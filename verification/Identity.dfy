/** The chat-template de-brander and the template flag editors. */
module Identity {
  import opened Text

  const MARKERS := [
    "identify yourself as", "override conflicting identity", "never claim to be", "this identity and attribution"]

  predicate HasMarker(s: string) {
    exists i :: 0 <= i < |MARKERS| && Contains(Lower(s), MARKERS[i])
  }

  // --- One set-assignment ---------------------------------------------------

  datatype SetAssignment = SetAssignment(
    indent: string, open: string, name: string, value: string, close: string, suffix: string)

  predicate IsNameChar(c: char) {
    IsAlnum(c) || c == '_'
  }

  /** Position of the last `%}`. */
  function LastClose(s: string): (r: Option<nat>)
    ensures r.Some? ==> r.value + 2 <= |s|
  {
    if |s| < 2 then None
    else if s[|s| - 2..] == "%}" then Some(|s| - 2)
    else LastClose(s[..|s| - 1])
  }

  function Strip(s: string, prefix: string): Option<string> {
    if StartsWith(s, prefix) then Some(s[|prefix|..]) else None
  }

  /** The opening tag of a line without indentation. */
  function OpenTag(t: string): (r: string)
    ensures |r| <= |t|
  {
    if StartsWith(t, "{%-") then "{%-" else if StartsWith(t, "{%") then "{%" else []
  }

  /** Name and quoted body after `set`, as in ` name = "body`. */
  function NameAndBody(s: string): Option<(string, string)> {
    if s == [] || !IsSpace(s[0]) then None
    else
      match SplitOnce(TrimStart(s), '=')
      case None => None
      case Some((left, right)) => Named(TrimEnd(left), Strip(TrimStart(right), "\""))
  }

  predicate IsName(name: string) {
    name != [] && forall i :: 0 <= i < |name| ==> IsNameChar(name[i])
  }

  function Named(name: string, body: Option<string>): Option<(string, string)> {
    if IsName(name) && body.Some? then Some((name, body.value)) else None
  }

  /** Value, closing tag and what follows, as in `value" -%}suffix`. */
  function ValueAndClose(body: string): Option<(string, string, string)> {
    match LastClose(body)
    case None => None
    case Some(at) => if Trim(body[at + 2..]) == [] then ValueBefore(body[..at], body[at + 2..]) else None
  }

  function ValueBefore(before: string, suffix: string): Option<(string, string, string)> {
    if EndsWith(before, "-") then Unquoted(TrimEnd(before[..|before| - 1]), "-%}", suffix)
    else Unquoted(TrimEnd(before), "%}", suffix)
  }

  function Unquoted(quoted: string, close: string, suffix: string): Option<(string, string, string)> {
    if EndsWith(quoted, "\"") then Some((quoted[..|quoted| - 1], close, suffix)) else None
  }

  function Parse(line: string): Option<SetAssignment> {
    var t := TrimStart(line);
    var open := OpenTag(t);
    if open == [] then None
    else
      match Strip(TrimStart(t[|open|..]), "set")
      case None => None
      case Some(rest) => ParseSet(line[..|line| - |t|], open, rest)
  }

  /** The rest of a set-assignment after the word `set`. */
  function ParseSet(indent: string, open: string, rest: string): Option<SetAssignment> {
    match NameAndBody(rest)
    case None => None
    case Some((name, body)) =>
      match ValueAndClose(body)
      case None => None
      case Some((value, close, suffix)) => Some(SetAssignment(indent, open, name, value, close, suffix))
  }

  function Emptied(a: SetAssignment): string {
    a.indent + a.open + " set " + a.name + " = \"\" " + a.close + a.suffix
  }

  // --- Re-reading an emptied line -------------------------------------------

  ghost predicate Shaped(a: SetAssignment) {
    && AllSpace(a.indent) && (a.open == "{%-" || a.open == "{%") && (a.close == "-%}" || a.close == "%}")
    && a.name != "" && (forall i :: 0 <= i < |a.name| ==> NameChar(a.name[i]))
    && Trim(a.suffix) == [] && '%' !in a.suffix
  }

  predicate NameChar(c: char) {
    'a' <= c <= 'z' || 'A' <= c <= 'Z' || '0' <= c <= '9' || c == '_'
  }

  lemma {:induction false} LastCloseAt(a: string, b: string)
    requires '%' !in b
    ensures LastClose(a + "%}" + b) == Some(|a|)
    decreases |b|
  {
    var s := a + "%}" + b;
    if b == [] {
      assert s[|s| - 2..] == "%}";
    } else {
      var b' := b[..|b| - 1];
      assert s[..|s| - 1] == a + "%}" + b';
      assert s[|s| - 2..] != "%}" by {
        assert s[|s| - 2..][0] == if |b| == 1 then '}' else b[|b| - 2];
      }
      LastCloseAt(a, b');
    }
  }

  lemma TrimsToNothing(s: string)
    requires Trim(s) == []
    ensures AllSpace(s)
  {
    hide IsSpace;
    var t := TrimStart(s);
    assert t[|TrimEnd(t)|..] == t;
    assert t == [];
    assert s[..|s|] == s;
  }

  lemma SpaceHasNoPercent(s: string)
    requires AllSpace(s)
    ensures '%' !in s
  {
    assert !IsSpace('%');
    hide IsSpace;
  }

  lemma IsNameMeans(name: string)
    ensures IsName(name) <==> name != "" && forall i :: 0 <= i < |name| ==> NameChar(name[i])
  {
    assert forall c :: IsNameChar(c) == NameChar(c);
    hide IsNameChar, NameChar;
  }

  lemma NameIsPlain(name: string)
    requires IsName(name)
    ensures NoSpace(name) && '=' !in name && '\n' !in name
  {}

  lemma StripAt(prefix: string, rest: string)
    ensures Strip(prefix + rest, prefix) == Some(rest)
  {}

  lemma ReadName(p1: string, name: string, p2: string, p3: string, tail: string)
    requires IsName(name) && AllSpace(p1) && p1 != "" && AllSpace(p2) && AllSpace(p3)
    ensures NameAndBody(p1 + (name + (p2 + ("=" + (p3 + ("\"" + tail)))))) == Some((name, tail))
  {
    NameIsPlain(name);
    SpaceIsPlain(p2);
    assert !IsSpace('"');
    hide IsSpace, IsNameChar, IsName;
    var body := "\"" + tail;
    var left, right := name + p2, p3 + body;
    var rest := left + "=" + right;
    assert rest[0] == name[0];
    TrimStartAt(p1, rest);
    TrimEndAt(name, p2);
    TrimStartAt(p3, body);
    NamedAt(p1, rest, left, right, name, tail);
    hide *;
    LeftOf(p1, name, p2, "=", right);
  }

  lemma LeftOf(a: string, b: string, c: string, d: string, e: string)
    ensures a + (b + (c + (d + e))) == a + ((b + c) + d + e)
  {}

  lemma NamedAt(p: string, rest: string, left: string, right: string, name: string, tail: string)
    requires p != "" && AllSpace(p) && IsName(name)
    requires rest == left + "=" + right && '=' !in left
    requires TrimStart(p + rest) == rest && TrimEnd(left) == name && TrimStart(right) == "\"" + tail
    ensures NameAndBody(p + rest) == Some((name, tail))
  {
    assert IsSpace((p + rest)[0]) by { assert (p + rest)[0] == p[0]; }
    SplitOnceAt(left, '=', right);
    StripAt("\"", tail);
    hide IsSpace, TrimStart, TrimEnd, SplitOnce, Strip, AllSpace, IsName;
  }

  lemma SpaceIsPlain(s: string)
    requires AllSpace(s)
    ensures '=' !in s && '%' !in s && '-' !in s
  {
    assert !IsSpace('=') && !IsSpace('%') && !IsSpace('-');
    hide IsSpace;
  }

  lemma ReadValue(value: string, p: string, close: string, suffix: string)
    requires (close == "-%}" || close == "%}") && AllSpace(p) && Trim(suffix) == [] && '%' !in suffix
    ensures ValueAndClose(value + ("\"" + (p + (close + suffix)))) == Some((value, close, suffix))
  {
    hide Trim, LastClose, ValueBefore, IsSpace;
    var quoted := value + "\"";
    if close == "-%}" {
      FoundClose(quoted + p + "-", suffix);
      ValueBeforeDash(value, p, suffix);
      assert value + ("\"" + (p + (close + suffix))) == quoted + p + "-" + "%}" + suffix;
    } else {
      FoundClose(quoted + p, suffix);
      ValueBeforeBlank(value, p, suffix);
      assert value + ("\"" + (p + (close + suffix))) == quoted + p + "%}" + suffix;
    }
  }

  lemma FoundClose(before: string, suffix: string)
    requires Trim(suffix) == [] && '%' !in suffix
    ensures ValueAndClose(before + "%}" + suffix) == ValueBefore(before, suffix)
  {
    hide Trim, LastClose, ValueBefore;
    LastCloseAt(before, suffix);
    var body := before + "%}" + suffix;
    assert body[..|before|] == before && body[|before| + 2..] == suffix;
  }

  lemma ValueBeforeDash(value: string, p: string, suffix: string)
    requires AllSpace(p)
    ensures ValueBefore(value + "\"" + p + "-", suffix) == Some((value, "-%}", suffix))
  {
    QuoteTrims(value, p);
    var quoted := value + "\"";
    var before := quoted + p + "-";
    assert EndsWith(before, "-") by { assert before[|before| - 1..] == "-"; }
    assert before[..|before| - 1] == quoted + p && quoted[..|quoted| - 1] == value;
    hide TrimEnd, EndsWith, IsSpace;
  }

  lemma ValueBeforeBlank(value: string, p: string, suffix: string)
    requires AllSpace(p)
    ensures ValueBefore(value + "\"" + p, suffix) == Some((value, "%}", suffix))
  {
    QuoteTrims(value, p);
    SpaceIsPlain(p);
    hide TrimEnd, IsSpace;
    var quoted := value + "\"";
    var before := quoted + p;
    assert quoted[..|quoted| - 1] == value;
    assert before[|before| - 1..][0] == before[|before| - 1] != '-';
  }

  lemma QuoteTrims(value: string, p: string)
    requires AllSpace(p)
    ensures TrimEnd(value + "\"" + p) == value + "\"" && EndsWith(value + "\"", "\"")
  {
    assert !IsSpace('"');
    hide IsSpace;
    var quoted := value + "\"";
    assert quoted[|quoted| - 1..] == "\"";
    TrimEndAt(quoted, p);
  }

  lemma ReadOpen(indent: string, open: string, p: string, tail: string)
    requires AllSpace(indent) && AllSpace(p) && (open == "{%-" || open == "{%")
    ensures var t := open + (p + ("set" + tail));
      && TrimStart(indent + t) == t && OpenTag(t) == open
      && Strip(TrimStart(t[|open|..]), "set") == Some(tail)
  {
    assert !IsSpace('{') && !IsSpace('s');
    hide IsSpace;
    var s := "set" + tail;
    var t := open + (p + s);
    TrimStartAt(indent, t);
    TrimStartAt(p, s);
    StripAt("set", tail);
    SpaceIsPlain(p);
    hide TrimStart, Strip, AllSpace;
    assert t[|open|..] == p + s;
    OpenTagAt(open, p + s);
  }

  lemma OpenTagAt(open: string, s: string)
    requires (open == "{%-" || open == "{%") && s != [] && s[0] != '-'
    ensures OpenTag(open + s) == open
  {
    var t := open + s;
    assert t[..|open|] == open;
    if open == "{%" && |t| >= 3 { assert t[..3][2] == s[0] != "{%-"[2]; }
  }

  lemma ParseAt(indent: string, t: string, open: string, rest: string)
    requires TrimStart(indent + t) == t && OpenTag(t) == open && open != []
    requires Strip(TrimStart(t[|open|..]), "set") == Some(rest)
    ensures Parse(indent + t) == ParseSet(indent, open, rest)
  {
    hide ParseSet, OpenTag, Strip, TrimStart;
    var line := indent + t;
    assert line[..|line| - |t|] == indent;
  }

  lemma ParseSetAt(a: SetAssignment, rest: string, body: string)
    requires NameAndBody(rest) == Some((a.name, body)) && ValueAndClose(body) == Some((a.value, a.close, a.suffix))
    ensures ParseSet(a.indent, a.open, rest) == Some(a)
  {
    hide NameAndBody, ValueAndClose;
  }

  /** The blanks between the parts of an assignment. */
  datatype Pads = Pads(afterOpen: string, afterSet: string, beforeEq: string, afterEq: string, beforeClose: string)

  ghost predicate Blank(p: Pads) {
    && AllSpace(p.afterOpen) && AllSpace(p.afterSet) && p.afterSet != "" && AllSpace(p.beforeEq)
    && AllSpace(p.afterEq) && AllSpace(p.beforeClose)
  }

  /** The line with these parts and these blanks. */
  function Spelled(a: SetAssignment, p: Pads): string {
    var tail := SpelledTail(a, p);
    a.indent + (a.open + (p.afterOpen + ("set" + (p.afterSet + (a.name + (p.beforeEq + ("=" + (p.afterEq + tail))))))))
  }

  function SpelledTail(a: SetAssignment, p: Pads): string {
    "\"" + (a.value + ("\"" + (p.beforeClose + (a.close + a.suffix))))
  }

  ghost predicate Spells(line: string, a: SetAssignment, p: Pads) {
    Shaped(a) && Blank(p) && line == Spelled(a, p)
  }

  /** A line is read as an assignment exactly when it is spelled as that one, with
      any blanks between the parts. */
  lemma ParseExact(line: string, a: SetAssignment)
    ensures Parse(line) == Some(a) <==> exists p :: Spells(line, a, p)
  {
    hide *;
    if Parse(line) == Some(a) { var p := ParsedIsSpelled(line); }
    if p :| Spells(line, a, p) { SpelledReparses(line, a, p); }
  }

  lemma SpelledReparses(line: string, a: SetAssignment, p: Pads)
    requires Spells(line, a, p)
    ensures Parse(line) == Some(a)
  {
    var body := a.value + ("\"" + (p.beforeClose + (a.close + a.suffix)));
    var rest := p.afterSet + (a.name + (p.beforeEq + ("=" + (p.afterEq + ("\"" + body)))));
    SpelledSteps(a, p, body, rest);
    hide Parse, ParseSet, NameAndBody, ValueAndClose, OpenTag, Strip, TrimStart;
    ParseSetAt(a, rest, body);
    ParseAt(a.indent, a.open + (p.afterOpen + ("set" + rest)), a.open, rest);
  }

  lemma SpelledSteps(a: SetAssignment, p: Pads, body: string, rest: string)
    requires Shaped(a) && Blank(p) && body == a.value + ("\"" + (p.beforeClose + (a.close + a.suffix)))
    requires rest == p.afterSet + (a.name + (p.beforeEq + ("=" + (p.afterEq + ("\"" + body)))))
    ensures var t := a.open + (p.afterOpen + ("set" + rest));
      && TrimStart(a.indent + t) == t && OpenTag(t) == a.open
      && Strip(TrimStart(t[|a.open|..]), "set") == Some(rest)
      && NameAndBody(rest) == Some((a.name, body))
      && ValueAndClose(body) == Some((a.value, a.close, a.suffix))
  {
    hide NameAndBody, ValueAndClose, OpenTag, Strip, TrimStart, IsSpace, IsName;
    ReadOpen(a.indent, a.open, p.afterOpen, rest);
    IsNameMeans(a.name);
    ReadName(p.afterSet, a.name, p.beforeEq, p.afterEq, body);
    ReadValue(a.value, p.beforeClose, a.close, a.suffix);
  }

  /** An emptied assignment reads back as the same assignment with no value. */
  lemma EmptiedReparses(a: SetAssignment)
    requires Shaped(a)
    ensures Parse(Emptied(a)) == Some(a.(value := ""))
  {
    BlankIsSpace();
    EmptiedIsSpelled(a);
    hide Parse, Emptied, Spelled, IsName, IsSpace, Trim;
    SpelledReparses(Emptied(a), a.(value := ""), Pads(" ", " ", " ", " ", " "));
  }

  lemma EmptiedIsSpelled(a: SetAssignment)
    ensures Emptied(a) == Spelled(a.(value := ""), Pads(" ", " ", " ", " ", " "))
  {
    assert " set " == " " + "set" + " " && " = \"\" " == " " + "=" + " " + "\"" + "" + "\"" + " ";
  }

  lemma ValueAndCloseShape(body: string)
    requires ValueAndClose(body).Some?
    ensures var (v, close, suffix) := ValueAndClose(body).value;
      && (close == "-%}" || close == "%}") && Trim(suffix) == []
      && ('\n' !in body ==> '\n' !in suffix)
  {
    hide Trim, TrimEnd, LastClose;
  }

  lemma NameAndBodyShape(s: string)
    requires NameAndBody(s).Some?
    ensures var (name, body) := NameAndBody(s).value;
      IsName(name) && ('\n' !in s ==> '\n' !in body)
  {
    hide IsSpace, TrimEnd, IsName;
  }

  lemma ParseSetShape(indent: string, open: string, rest: string)
    requires ParseSet(indent, open, rest).Some?
    ensures var a := ParseSet(indent, open, rest).value;
      && a.indent == indent && a.open == open && IsName(a.name)
      && (a.close == "-%}" || a.close == "%}") && Trim(a.suffix) == []
      && ('\n' !in rest ==> '\n' !in a.suffix)
  {
    hide NameAndBody, ValueAndClose, IsName, Trim;
    NameAndBodyShape(rest);
    ValueAndCloseShape(NameAndBody(rest).value.1);
  }

  /** What a parsed assignment is made of. */
  lemma ParseShape(line: string)
    requires Parse(line).Some?
    ensures Shaped(Parse(line).value)
    ensures '\n' !in line ==> '\n' !in Emptied(Parse(line).value)
  {
    ParseKeeps(line);
    var a := Parse(line).value;
    TrimsToNothing(a.suffix);
    SpaceHasNoPercent(a.suffix);
    IsNameMeans(a.name);
    hide IsSpace, IsName, NameChar, Parse, Trim, Emptied;
    if '\n' !in line { EmptiedIsOneLine(a); }
  }

  lemma ParseKeeps(line: string)
    requires Parse(line).Some?
    ensures var a := Parse(line).value;
      && AllSpace(a.indent) && (a.open == "{%-" || a.open == "{%") && IsName(a.name)
      && (a.close == "-%}" || a.close == "%}") && Trim(a.suffix) == []
      && ('\n' !in line ==> '\n' !in a.indent && '\n' !in a.suffix)
  {
    var t, after, rest := TagFacts(line);
    var open, trimmed := OpenTag(t), TrimStart(after);
    ParseOpens(line);
    OpenTagKnown(t);
    TrimmedAway(line);
    TrimmedAway(after);
    hide *;
    var indent := line[..|line| - |t|];
    ParseSetShape(indent, open, rest);
    NoBreakIn(line, indent, t, open, after, after[..|after| - |trimmed|], trimmed, rest);
  }

  lemma ParseOpens(line: string)
    requires Parse(line).Some?
    ensures OpenTag(TrimStart(line)) != []
  {
    hide OpenTag, TrimStart, Strip, ParseSet;
  }

  lemma NoBreakIn(
    line: string, a: string, t: string, b: string, after: string, c: string, trimmed: string, rest: string)
    requires line == a + t && t == b + after && after == c + trimmed && trimmed == "set" + rest
    ensures '\n' !in line ==> '\n' !in a && '\n' !in rest
  {}

  /** What is read as an assignment is one, part by part, and nothing else is on the
      line. */
  lemma ParsedIsSpelled(line: string) returns (p: Pads)
    requires Parse(line).Some?
    ensures Spells(line, Parse(line).value, p)
  {
    ParseShape(line);
    var a := Parse(line).value;
    var p0, rest := TagPads(line);
    var parts := SetParts(a.indent, a.open, rest);
    var p1, p2, p3, body := NamePads(rest);
    var p4 := ClosePads(body);
    p := Pads(p0, p1, p2, p3, p4);
    hide *;
    SpelledOut(line, a, p, rest, body);
  }

  lemma SpelledOut(line: string, a: SetAssignment, p: Pads, rest: string, body: string)
    requires line == a.indent + (a.open + (p.afterOpen + ("set" + rest)))
    requires rest == p.afterSet + (a.name + (p.beforeEq + ("=" + (p.afterEq + ("\"" + body)))))
    requires body == a.value + ("\"" + (p.beforeClose + (a.close + a.suffix)))
    ensures line == Spelled(a, p)
  {}

  lemma TagPads(line: string) returns (p: string, rest: string)
    requires Parse(line).Some?
    ensures var a := Parse(line).value;
      && line == a.indent + (a.open + (p + ("set" + rest))) && AllSpace(p)
      && ParseSet(a.indent, a.open, rest) == Some(a)
  {
    var t, after;
    t, after, rest := TagFacts(line);
    p := after[..|after| - |TrimStart(after)|];
    var indent := line[..|line| - |t|];
    TrimmedAway(line);
    TrimmedAway(after);
    ParseSetOpen(indent, OpenTag(t), rest);
    hide *;
  }

  lemma TagFacts(line: string) returns (t: string, after: string, rest: string)
    requires Parse(line).Some?
    ensures t == TrimStart(line) && t == OpenTag(t) + after && TrimStart(after) == "set" + rest
    ensures Parse(line) == ParseSet(line[..|line| - |t|], OpenTag(t), rest)
  {
    t := TrimStart(line);
    hide ParseSet, OpenTag, IsSpace, TrimStart;
    OpenTagPrefix(t);
    after := t[|OpenTag(t)|..];
    rest := Strip(TrimStart(after), "set").value;
    StripIs(TrimStart(after), "set");
    hide *;
  }

  lemma TrimmedAway(s: string)
    ensures var lead := s[..|s| - |TrimStart(s)|]; AllSpace(lead) && s == lead + TrimStart(s)
  {
    hide *;
  }

  lemma ParseSetOpen(indent: string, open: string, rest: string)
    ensures ParseSet(indent, open, rest).Some? ==>
      ParseSet(indent, open, rest).value.indent == indent && ParseSet(indent, open, rest).value.open == open
  {
    hide NameAndBody, ValueAndClose;
  }

  lemma OpenTagPrefix(t: string)
    ensures |OpenTag(t)| <= |t| && t == OpenTag(t) + t[|OpenTag(t)|..]
  {}

  lemma StripIs(s: string, prefix: string)
    requires Strip(s, prefix).Some?
    ensures s == prefix + Strip(s, prefix).value
  {}

  lemma SetParts(indent: string, open: string, rest: string) returns (parts: (string, string))
    requires ParseSet(indent, open, rest).Some?
    ensures NameAndBody(rest) == Some(parts) && ValueAndClose(parts.1).Some?
    ensures var a := ParseSet(indent, open, rest).value;
      && a.indent == indent && a.open == open && a.name == parts.0
      && (a.value, a.close, a.suffix) == ValueAndClose(parts.1).value
  {
    hide NameAndBody, ValueAndClose;
    parts := NameAndBody(rest).value;
  }

  lemma NamePads(s: string) returns (p1: string, p2: string, p3: string, body: string)
    requires NameAndBody(s).Some?
    ensures body == NameAndBody(s).value.1
    ensures s == p1 + (NameAndBody(s).value.0 + (p2 + ("=" + (p3 + ("\"" + body)))))
    ensures AllSpace(p1) && p1 != "" && AllSpace(p2) && AllSpace(p3)
  {
    var name, t, left, right;
    name, body, t, left, right := NameFacts(s);
    p1 := s[..|s| - |t|];
    p2 := left[|TrimEnd(left)|..];
    p3 := right[..|right| - |TrimStart(right)|];
    TrimmedAway(s);
    TrimmedAway(right);
    TrimmedEnd(left);
    hide *;
    Reassociate(name, p2, "=", right);
  }

  lemma Reassociate(a: string, b: string, c: string, d: string)
    ensures (a + b) + (c + d) == a + (b + (c + d))
  {}

  lemma TrimmedEnd(s: string)
    ensures var end := s[|TrimEnd(s)|..]; AllSpace(end) && s == TrimEnd(s) + end
  {
    hide *;
  }

  lemma NameFacts(s: string) returns (name: string, body: string, t: string, left: string, right: string)
    requires NameAndBody(s).Some?
    ensures NameAndBody(s) == Some((name, body))
    ensures t == TrimStart(s) && |t| < |s| && t == left + ("=" + right)
    ensures name == TrimEnd(left) && TrimStart(right) == "\"" + body
  {
    NameParts(s);
    hide *;
    t := TrimStart(s);
    Shrinks(s);
    SplitsIn(t, '=');
    left, right := SplitOnce(t, '=').value.0, SplitOnce(t, '=').value.1;
    StripIs(TrimStart(right), "\"");
    name, body := TrimEnd(left), Strip(TrimStart(right), "\"").value;
  }

  lemma NameParts(s: string)
    requires NameAndBody(s).Some?
    ensures s != [] && IsSpace(s[0]) && SplitOnce(TrimStart(s), '=').Some?
    ensures var (left, right) := SplitOnce(TrimStart(s), '=').value;
      var quoted := Strip(TrimStart(right), "\"");
      quoted.Some? && NameAndBody(s) == Some((TrimEnd(left), quoted.value))
  {
    hide IsSpace, TrimStart, TrimEnd, SplitOnce, Strip, IsName;
  }

  lemma Shrinks(s: string)
    requires s != [] && IsSpace(s[0])
    ensures |TrimStart(s)| < |s|
  {
    hide IsSpace;
  }

  lemma SplitsIn(s: string, c: char)
    requires SplitOnce(s, c).Some?
    ensures var (left, right) := SplitOnce(s, c).value; s == left + ([c] + right)
  {}

  lemma ClosePads(body: string) returns (p: string)
    requires ValueAndClose(body).Some?
    ensures var (value, close, suffix) := ValueAndClose(body).value;
      body == value + ("\"" + (p + (close + suffix))) && AllSpace(p)
  {
    var before, suffix := CloseFacts(body);
    p := BeforePads(before, suffix);
    hide *;
  }

  lemma CloseFacts(body: string) returns (before: string, suffix: string)
    requires ValueAndClose(body).Some?
    ensures body == before + ("%}" + suffix) && ValueBefore(before, suffix) == ValueAndClose(body)
  {
    LastCloseIs(body);
    CloseRead(body);
    hide *;
    var at := LastClose(body).value;
    before, suffix := body[..at], body[at + 2..];
    CutAt(body, at);
  }

  lemma CloseRead(body: string)
    requires ValueAndClose(body).Some?
    ensures LastClose(body).Some?
    ensures var at := LastClose(body).value; ValueBefore(body[..at], body[at + 2..]) == ValueAndClose(body)
  {
    hide LastClose, Trim, ValueBefore;
  }

  lemma CutAt(s: string, at: nat)
    requires at + 2 <= |s|
    ensures s == s[..at] + (s[at..at + 2] + s[at + 2..])
  {}

  lemma BeforePads(before: string, suffix: string) returns (p: string)
    requires ValueBefore(before, suffix).Some?
    ensures var (value, close, end) := ValueBefore(before, suffix).value;
      before + ("%}" + suffix) == value + ("\"" + (p + (close + end))) && AllSpace(p)
  {
    var inner, close := BeforeFacts(before, suffix);
    p := QuotePads(inner, close, suffix);
    hide *;
    QuoteAssoc(ValueBefore(before, suffix).value.0, "\"", p, close + suffix);
  }

  lemma BeforeFacts(before: string, suffix: string) returns (inner: string, close: string)
    ensures ValueBefore(before, suffix) == Unquoted(TrimEnd(inner), close, suffix)
    ensures before + ("%}" + suffix) == inner + (close + suffix)
  {
    hide TrimEnd, Unquoted;
    if EndsWith(before, "-") {
      inner, close := before[..|before| - 1], "-%}";
      assert before == inner + "-" && "-%}" == "-" + "%}";
    } else {
      inner, close := before, "%}";
    }
  }

  lemma QuoteAssoc(a: string, b: string, c: string, d: string)
    ensures (a + (b + c)) + d == a + (b + (c + d))
  {}

  lemma {:induction false} LastCloseIs(s: string)
    ensures LastClose(s).Some? ==> s[LastClose(s).value..LastClose(s).value + 2] == "%}"
  {
    if |s| >= 2 && s[|s| - 2..] != "%}" {
      var init := s[..|s| - 1];
      LastCloseIs(init);
      if LastClose(init).Some? {
        var at := LastClose(init).value;
        assert init[at..at + 2] == s[at..at + 2];
      }
    }
  }

  lemma QuotePads(before: string, close: string, suffix: string) returns (p: string)
    requires Unquoted(TrimEnd(before), close, suffix).Some?
    ensures AllSpace(p)
    ensures var (value, c, end) := Unquoted(TrimEnd(before), close, suffix).value;
      before == value + ("\"" + p) && c == close && end == suffix
  {
    hide IsSpace;
    var quoted := TrimEnd(before);
    p := before[|quoted|..];
    assert before == quoted + p && quoted == quoted[..|quoted| - 1] + "\"";
  }

  lemma OpenTagKnown(t: string)
    ensures OpenTag(t) == [] || OpenTag(t) == "{%-" || OpenTag(t) == "{%"
  {}

  lemma EmptiedIsOneLine(a: SetAssignment)
    requires Shaped(a) && '\n' !in a.indent && '\n' !in a.suffix
    ensures '\n' !in Emptied(a)
  {
    NameIsPlain(a.name);
    hide IsName, Trim;
    assert '\n' !in a.open && '\n' !in a.close && '\n' !in " set " && '\n' !in " = \"\" ";
  }

  // --- The whole template ---------------------------------------------------

  predicate Branded(a: SetAssignment) {
    EndsWith(Lower(a.name), "identity") || HasMarker(a.value)
  }

  /** A branded assignment with a value is emptied; any other line is kept. */
  function Rewrite(line: string): string {
    match Parse(line)
    case None => line
    case Some(a) => if Branded(a) && a.value != [] then Emptied(a) else line
  }

  function RewriteAll(lines: seq<string>): (r: seq<string>)
    ensures |r| == |lines| && forall i :: 0 <= i < |lines| ==> r[i] == Rewrite(lines[i])
  {
    hide Rewrite;
    if lines == [] then [] else [Rewrite(lines[0])] + RewriteAll(lines[1..])
  }

  function Debrand(template: string): string {
    Join(RewriteAll(Split(template, '\n')), "\n")
  }

  lemma RewriteTwice(line: string)
    requires '\n' !in line
    ensures '\n' !in Rewrite(line) && Rewrite(Rewrite(line)) == Rewrite(line)
  {
    if Rewrite(line) != line {
      ParseShape(line);
      EmptiedReparses(Parse(line).value);
    }
    hide Parse, Emptied, Branded;
  }

  /** De-branding works line by line: it keeps the number of lines, and each line
      is either untouched or the emptied form of a branded set-assignment. */
  lemma DebrandByLine(template: string)
    ensures Split(Debrand(template), '\n') == RewriteAll(Split(template, '\n'))
    ensures |Split(Debrand(template), '\n')| == |Split(template, '\n')|
  {
    hide Rewrite, Split;
    var lines := Split(template, '\n');
    forall i | 0 <= i < |lines| ensures '\n' !in RewriteAll(lines)[i] { RewriteTwice(lines[i]); }
    SplitOfJoin(RewriteAll(lines), '\n');
  }

  /** De-branding a de-branded template changes nothing. */
  lemma DebrandIdempotent(template: string)
    ensures Debrand(Debrand(template)) == Debrand(template)
  {
    hide Rewrite, Split;
    DebrandByLine(template);
    var lines := Split(template, '\n');
    var once := RewriteAll(lines);
    forall i | 0 <= i < |lines| ensures RewriteAll(once)[i] == once[i] { RewriteTwice(lines[i]); }
    assert RewriteAll(once) == once;
  }

  /** A line is rewritten exactly when it is an assignment with a value that locks the
      identity: it is then the same assignment, with the same name, tags, indentation
      and suffix, and no value. */
  lemma RewrittenLine(line: string)
    ensures if Parse(line).Some? && Parse(line).value.value != "" && LocksIdentity(Parse(line).value)
      then Parse(Rewrite(line)) == Some(Parse(line).value.(value := ""))
      else Rewrite(line) == line
  {
    RewriteIs(line);
    hide *;
    if Parse(line).Some? {
      ParseShape(line);
      EmptiedReparses(Parse(line).value);
      LockIsBrand(Parse(line).value);
    }
  }

  lemma RewriteIs(line: string)
    ensures Rewrite(line) == if Parse(line).Some? && Branded(Parse(line).value) && Parse(line).value.value != ""
                             then Emptied(Parse(line).value) else line
  {
    hide Parse, Branded, Emptied;
  }

  /** The variable is named as an identity, or its value insists on one. */
  ghost predicate LocksIdentity(a: SetAssignment) {
    || (exists front :: Lower(a.name) == front + "identity")
    || Contains(Lower(a.value), "identify yourself as")
    || Contains(Lower(a.value), "override conflicting identity")
    || Contains(Lower(a.value), "never claim to be")
    || Contains(Lower(a.value), "this identity and attribution")
  }

  lemma LockIsBrand(a: SetAssignment)
    ensures Branded(a) <==> LocksIdentity(a)
  {
    var n := Lower(a.name);
    hide Lower, Contains;
    if EndsWith(n, "identity") { assert n == n[..|n| - 8] + "identity"; }
    if front :| n == front + "identity" { assert n[|n| - 8..] == "identity"; }
    assert MARKERS[0] == "identify yourself as" && MARKERS[1] == "override conflicting identity"
        && MARKERS[2] == "never claim to be" && MARKERS[3] == "this identity and attribution";
  }

  /** In a de-branded template no assignment that locks the identity has a value. */
  lemma NothingLocked(template: string, i: nat)
    requires i < |Split(Debrand(template), '\n')|
    ensures var line := Split(Debrand(template), '\n')[i];
      Parse(line).Some? && LocksIdentity(Parse(line).value) ==> Parse(line).value.value == ""
  {
    DebrandByLine(template);
    var was := Split(template, '\n')[i];
    RewrittenLine(was);
    hide Split, Parse, Rewrite, LocksIdentity, Debrand;
  }

  method DebrandTemplate(template: string) returns (out: string)
    ensures out == Debrand(template)
  {
    hide Rewrite, Split;
    var lines := Split(template, '\n');
    var changed := false;
    var parts: seq<string> := [];
    for i := 0 to |lines|
      invariant |parts| == i && forall j :: 0 <= j < i ==> parts[j] == Rewrite(lines[j])
      invariant !changed ==> forall j :: 0 <= j < i ==> parts[j] == lines[j]
    {
      var line := Rewrite(lines[i]);
      if line != lines[i] { changed := true; }
      parts := parts + [line];
    }
    hide Join;
    assert parts == RewriteAll(lines);
    assert !changed ==> parts == lines;
    return if changed then Join(parts, "\n") else template;
  }

  // --- The flag editors -----------------------------------------------------

  const FLAG := "--chat-template-file"

  predicate IsFlag(tok: string) {
    tok == FLAG
  }

  ghost predicate NoFlag(toks: seq<string>) {
    forall i :: 0 <= i < |toks| ==> !IsFlag(toks[i])
  }

  function Position(toks: seq<string>): (r: Option<nat>)
    ensures r.Some? ==> r.value < |toks| && IsFlag(toks[r.value]) && NoFlag(toks[..r.value])
    ensures r.None? ==> NoFlag(toks)
  {
    hide IsFlag;
    if toks == [] then None
    else if IsFlag(toks[0]) then Some(0)
    else match Position(toks[1..])
      case None => None
      case Some(i) => Some(i + 1)
  }

  function WithToks(toks: seq<string>, path: string): seq<string> {
    match Position(toks)
    case Some(i) => if i + 1 < |toks| then toks[i + 1 := path] else toks + [path]
    case None => toks + [FLAG, path]
  }

  function WithTemplate(flags: string, path: string): string {
    Join(WithToks(Words(flags), path), " ")
  }

  function WithoutToks(toks: seq<string>): (r: seq<string>)
    ensures NoFlag(r)
    ensures forall x :: x in r ==> x in toks
  {
    hide IsFlag;
    if toks == [] then []
    else if !IsFlag(toks[0]) then [toks[0]] + WithoutToks(toks[1..])
    else if |toks| == 1 then []
    else WithoutToks(toks[2..])
  }

  function WithoutTemplate(flags: string): string {
    Join(WithoutToks(Words(flags)), " ")
  }

  lemma WithoutPlainFirst(toks: seq<string>)
    requires toks != [] && !IsFlag(toks[0])
    ensures WithoutToks(toks) == [toks[0]] + WithoutToks(toks[1..])
  {
    hide IsFlag;
  }

  lemma WithoutFlagFirst(toks: seq<string>)
    requires toks != [] ==> IsFlag(toks[0])
    ensures WithoutToks(toks) == [] + if |toks| >= 2 then WithoutToks(toks[2..]) else []
  {
    hide IsFlag, NoFlag;
    assert forall s: seq<string> :: [] + s == s;
  }

  /** Everything up to the first flag is kept; the flag and its value go. */
  lemma {:induction false} WithoutAt(before: seq<string>, rest: seq<string>)
    requires NoFlag(before) && (rest != [] ==> IsFlag(rest[0]))
    ensures WithoutToks(before + rest) == before + if |rest| >= 2 then WithoutToks(rest[2..]) else []
    decreases |before|
  {
    hide IsFlag, WithoutToks;
    var toks := before + rest;
    if before == [] {
      assert toks == rest;
      WithoutFlagFirst(rest);
    } else {
      var b, more := before[0], before[1..];
      assert !IsFlag(b) && NoFlag(more);
      hide NoFlag;
      assert toks[0] == b && toks[1..] == more + rest;
      WithoutPlainFirst(toks);
      WithoutAt(more, rest);
      var tail := if |rest| >= 2 then WithoutToks(rest[2..]) else [];
      assert [b] + (more + tail) == before + tail;
    }
  }

  lemma WithoutOfWith(toks: seq<string>, path: string)
    ensures WithoutToks(WithToks(toks, path)) == WithoutToks(toks)
  {
    assert IsFlag(FLAG);
    hide IsFlag, WithoutToks, Position;
    match Position(toks)
    case None =>
      assert toks + [] == toks;
      WithoutAt(toks, []);
      WithoutAt(toks, [FLAG, path]);
      WithoutEmpty([FLAG, path]);
    case Some(i) =>
      assert toks == toks[..i] + toks[i..];
      WithoutAt(toks[..i], toks[i..]);
      if i + 1 < |toks| {
        var after := toks[i..][1 := path];
        assert toks[i + 1 := path] == toks[..i] + after && after[2..] == toks[i..][2..];
        WithoutAt(toks[..i], after);
      } else {
        assert toks + [path] == toks[..i] + [toks[i], path];
        WithoutAt(toks[..i], [toks[i], path]);
        WithoutEmpty([toks[i], path]);
      }
  }

  lemma WithoutEmpty(toks: seq<string>)
    requires |toks| == 2
    ensures WithoutToks(toks[2..]) == []
  {}

  lemma PositionAt(before: seq<string>, rest: seq<string>)
    requires NoFlag(before) && rest != [] && IsFlag(rest[0])
    ensures Position(before + rest) == Some(|before|)
  {
    hide IsFlag, Position;
    var toks := before + rest;
    assert toks[|before|] == rest[0];
    var i := Position(toks).value;
    assert forall j :: 0 <= j < |before| ==> toks[j] == before[j];
    assert forall j :: 0 <= j < i ==> toks[..i][j] == toks[j];
    assert i >= |before|;
  }

  /** Setting the flag where it is keeps what is around it. */
  lemma WithAt(before: seq<string>, rest: seq<string>, path: string)
    requires NoFlag(before) && rest != [] && IsFlag(rest[0])
    ensures WithToks(before + rest, path) == before + [rest[0], path] + if |rest| >= 2 then rest[2..] else []
  {
    PositionAt(before, rest);
    hide IsFlag, Position, NoFlag;
    var toks, n := before + rest, |before|;
    if |rest| >= 2 {
      assert toks[n + 1 := path] == before + [rest[0], path] + rest[2..];
    } else {
      assert toks + [path] == before + [rest[0], path] + [];
    }
  }

  lemma WithOfWith(toks: seq<string>, p: string, q: string)
    ensures WithToks(WithToks(toks, p), q) == WithToks(toks, q)
  {
    assert IsFlag(FLAG);
    hide IsFlag, Position, NoFlag;
    match Position(toks)
    case None =>
      WithAt(toks, [FLAG, p], q);
      assert toks + [FLAG, q] + [] == toks + [FLAG, q] && [FLAG, p][2..] == [];
    case Some(i) =>
      assert toks == toks[..i] + toks[i..];
      WithOfFlag(toks[..i], toks[i..], p, q);
  }

  lemma WithOfFlag(before: seq<string>, rest: seq<string>, p: string, q: string)
    requires NoFlag(before) && rest != [] && IsFlag(rest[0])
    ensures WithToks(WithToks(before + rest, p), q) == WithToks(before + rest, q)
  {
    hide IsFlag, Position, NoFlag, WithToks;
    var tail := if |rest| >= 2 then rest[2..] else [];
    WithAt(before, rest, p);
    WithAt(before, rest, q);
    WithAt(before, [rest[0], p] + tail, q);
    assert before + [rest[0], p] + tail == before + ([rest[0], p] + tail) && ([rest[0], p] + tail)[2..] == tail;
  }

  lemma WithToksAreWords(toks: seq<string>, path: string)
    requires IsWord(path) && forall i :: 0 <= i < |toks| ==> IsWord(toks[i])
    ensures forall i :: 0 <= i < |WithToks(toks, path)| ==> IsWord(WithToks(toks, path)[i])
  {
    assert IsWord(FLAG);
    hide IsWord, Position;
  }

  /** Adding the template flag leaves the other flags as they are: removing it
      again is the same as removing it from the original. */
  lemma WithoutUndoesWith(flags: string, path: string)
    requires IsWord(path)
    ensures WithoutTemplate(WithTemplate(flags, path)) == WithoutTemplate(flags)
  {
    hide Words, IsWord, WithToks;
    WithToksAreWords(Words(flags), path);
    WordsOfJoin(WithToks(Words(flags), path));
    WithoutOfWith(Words(flags), path);
  }

  /** Setting the template twice keeps only the last path, never a second flag. */
  lemma WithReplacesWith(flags: string, p: string, q: string)
    requires IsWord(p) && IsWord(q)
    ensures WithTemplate(WithTemplate(flags, p), q) == WithTemplate(flags, q)
  {
    hide Words, IsWord, WithToks;
    WithToksAreWords(Words(flags), p);
    WordsOfJoin(WithToks(Words(flags), p));
    WithOfWith(Words(flags), p, q);
  }

  /** Setting the template changes one word and no other: the one after the first
      template flag, or it adds that word, or the flag and the word. */
  lemma WithWords(flags: string, path: string, before: seq<string>, rest: seq<string>)
    requires IsWord(path) && Words(flags) == before + rest && "--chat-template-file" !in before
    requires rest == [] || rest[0] == "--chat-template-file"
    ensures Words(WithTemplate(flags, path))
         == before + ["--chat-template-file", path] + if |rest| >= 2 then rest[2..] else []
  {
    NotInNoFlag(before);
    hide Words, IsWord, WithToks;
    WithToksAreWords(Words(flags), path);
    WordsOfJoin(WithToks(Words(flags), path));
    if rest == [] {
      assert before + rest == before && before + ["--chat-template-file", path] + []
          == before + ["--chat-template-file", path];
      WithNone(before, path);
    } else {
      WithAt(before, rest, path);
    }
  }

  lemma NotInNoFlag(toks: seq<string>)
    requires "--chat-template-file" !in toks
    ensures NoFlag(toks)
  {}

  lemma WithNone(toks: seq<string>, path: string)
    requires NoFlag(toks)
    ensures WithToks(toks, path) == toks + ["--chat-template-file", path]
  {
    hide IsFlag;
    assert Position(toks).None?;
    hide Position;
  }

  /** Removing the template drops the flag and the word after it, and no other. */
  lemma WithoutWords(flags: string, before: seq<string>, rest: seq<string>)
    requires Words(flags) == before + rest && "--chat-template-file" !in before
    requires rest == [] || (rest[0] == "--chat-template-file" && forall i :: 2 <= i < |rest| ==> rest[i] != rest[0])
    ensures Words(WithoutTemplate(flags)) == before + if |rest| >= 2 then rest[2..] else []
  {
    NotInNoFlag(before);
    hide Words, IsWord, WithoutToks;
    var r := WithoutToks(Words(flags));
    assert forall i :: 0 <= i < |r| ==> r[i] in r;
    WordsOfJoin(r);
    WithoutAt(before, rest);
    if |rest| >= 2 {
      assert "--chat-template-file" !in rest[2..];
      NotInNoFlag(rest[2..]);
      var tail := rest[2..];
      WithoutAt(tail, []);
      assert tail + [] == tail;
    }
  }

  method AddTemplate(flags: string, path: string) returns (out: string)
    ensures out == WithTemplate(flags, path)
  {
    hide Words, IsFlag;
    assert IsFlag(FLAG) by { FlagIsFlag(); }
    var toks := Words(flags);
    var i := 0;
    while i < |toks| && !IsFlag(toks[i])
      invariant 0 <= i <= |toks| && forall j :: 0 <= j < i ==> !IsFlag(toks[j])
    {
      i := i + 1;
    }
    if i < |toks| {
      assert toks == toks[..i] + toks[i..];
      PositionAt(toks[..i], toks[i..]);
    } else {
      assert Position(toks).None?;
    }
    if i + 1 < |toks| {
      toks := toks[i + 1 := path];
    } else if i < |toks| {
      toks := toks + [path];
    } else {
      toks := toks + [FLAG, path];
    }
    hide Join;
    return Join(toks, " ");
  }

  lemma FlagIsFlag()
    ensures IsFlag(FLAG)
  {}

  method RemoveTemplate(flags: string) returns (out: string)
    ensures out == WithoutTemplate(flags)
  {
    hide Words, IsFlag;
    var toks := Words(flags);
    var kept: seq<string> := [];
    var i := 0;
    while i < |toks|
      invariant 0 <= i <= |toks|
      invariant WithoutToks(toks) == kept + WithoutToks(toks[i..])
    {
      assert toks[i..][1..] == toks[i + 1..];
      if IsFlag(toks[i]) {
        assert i + 1 < |toks| ==> toks[i..][2..] == toks[i + 2..];
        i := if i + 1 < |toks| then i + 2 else i + 1;
      } else {
        kept := kept + [toks[i]];
        i := i + 1;
      }
    }
    assert kept + [] == kept;
    return Join(kept, " ");
  }
}
