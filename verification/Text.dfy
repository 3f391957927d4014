/** Text primitives with the meaning Rust's `str` methods give them. */
module Text {

  datatype Option<+T> = None | Some(value: T)

  /** Unicode White_Space, which is what `char::is_whitespace` tests. */
  predicate IsSpace(c: char) {
    var n := c as int;
    9 <= n <= 13 || n == 32 || n == 0x85 || n == 0xA0 || n == 0x1680 || 0x2000 <= n <= 0x200A
    || n == 0x2028 || n == 0x2029 || n == 0x202F || n == 0x205F || n == 0x3000
  }

  predicate IsAlnum(c: char) {
    'a' <= c <= 'z' || 'A' <= c <= 'Z' || '0' <= c <= '9'
  }

  ghost predicate NoSpace(s: string) {
    forall i :: 0 <= i < |s| ==> !IsSpace(s[i])
  }

  ghost predicate AllSpace(s: string) {
    forall i :: 0 <= i < |s| ==> IsSpace(s[i])
  }

  predicate OneLine(s: string) {
    '\n' !in s
  }

  lemma OneLineConcat(a: string, b: string)
    ensures OneLine(a + b) <==> OneLine(a) && OneLine(b)
  {}

  lemma BlankIsSpace()
    ensures IsSpace(' ')
  {}

  /** A word: what `split_whitespace` can yield. */
  ghost predicate IsWord(s: string) {
    s != [] && NoSpace(s)
  }

  /** No white space at either end. */
  ghost predicate Trimmed(s: string) {
    s != [] ==> !IsSpace(s[0]) && !IsSpace(s[|s| - 1])
  }

  function TrimStart(s: string): (t: string)
    ensures |t| <= |s| && t == s[|s| - |t|..] && AllSpace(s[..|s| - |t|])
    ensures t != [] ==> !IsSpace(t[0])
  {
    hide IsSpace;
    if s != [] && IsSpace(s[0]) then
      var t := TrimStart(s[1..]);
      assert s[..|s| - |t|] == [s[0]] + s[1..][..|s| - 1 - |t|];
      t
    else s
  }

  function TrimEnd(s: string): (t: string)
    ensures t <= s && AllSpace(s[|t|..])
    ensures t != [] ==> !IsSpace(t[|t| - 1])
  {
    if s != [] && IsSpace(s[|s| - 1]) then TrimEnd(s[..|s| - 1]) else s
  }

  function Trim(s: string): (t: string)
    ensures Trimmed(t)
    ensures Trimmed(s) ==> t == s
  {
    TrimEnd(TrimStart(s))
  }

  /** Leading white space comes off entirely, and nothing after it. */
  lemma TrimStartAt(pad: string, s: string)
    requires AllSpace(pad) && (s != [] ==> !IsSpace(s[0]))
    ensures TrimStart(pad + s) == s
  {
    hide IsSpace;
    var t := TrimStart(pad + s);
    var k := |pad + s| - |t|;
    assert forall i :: 0 <= i < |pad| ==> (pad + s)[i] == pad[i];
    assert k >= |pad|;
    assert s != [] ==> (pad + s)[|pad|] == s[0];
    assert k == |pad| by {
      assert forall i :: 0 <= i < k ==> IsSpace((pad + s)[..k][i]);
    }
  }

  lemma TrimEndAt(s: string, pad: string)
    requires AllSpace(pad) && (s != [] ==> !IsSpace(s[|s| - 1]))
    ensures TrimEnd(s + pad) == s
  {
    hide IsSpace;
    var t := TrimEnd(s + pad);
    assert forall i :: 0 <= i < |pad| ==> (s + pad)[|s| + i] == pad[i];
    assert |t| <= |s|;
    assert forall i :: 0 <= i < |s + pad| - |t| ==> (s + pad)[|t|..][i] == (s + pad)[|t| + i];
    assert s != [] ==> (s + pad)[|s| - 1] == s[|s| - 1];
  }

  /** Text with no white space at its ends trims to itself. */
  lemma TrimsToItself(a: string, mid: string, b: string)
    requires a != [] && b != [] && !IsSpace(a[0]) && !IsSpace(b[|b| - 1])
    ensures Trim(a + mid + b) == a + mid + b && DropCr(a + mid + b) == a + mid + b
  {
    CrIsSpace();
    hide IsSpace, Trim;
    var s := a + mid + b;
    assert s[0] == a[0] && s[|s| - 1] == b[|b| - 1];
  }

  lemma CrIsSpace()
    ensures IsSpace('\r') && IsSpace('\n')
  {}

  /** Trimming keeps the first character of a text that does not start blank. */
  lemma TrimKeepsStart(line: string)
    requires line != [] && !IsSpace(line[0])
    ensures Trim(line) != [] && Trim(line) <= line
  {
    hide IsSpace;
    assert TrimStart(line) == line;
    var at := |TrimEnd(line)|;
    assert forall i :: 0 <= i < |line| - at ==> line[at..][i] == line[at + i];
  }

  predicate StartsWith(s: string, p: string) {
    |p| <= |s| && s[..|p|] == p
  }

  lemma NotPrefix(t: string, p: string, i: nat)
    requires i < |p| && (i < |t| ==> t[i] != p[i])
    ensures !StartsWith(t, p)
  {
    if |p| <= |t| { assert t[..|p|][i] == t[i]; }
  }

  predicate EndsWith(s: string, p: string) {
    |p| <= |s| && s[|s| - |p|..] == p
  }

  predicate Contains(s: string, p: string) {
    exists i :: 0 <= i <= |s| && StartsWith(s[i..], p)
  }

  /** Position of the first `c` in `s`. */
  function Find(s: string, c: char): (r: Option<nat>)
    ensures r.Some? ==> r.value < |s| && s[r.value] == c && c !in s[..r.value]
    ensures r.None? <==> c !in s
  {
    if s == [] then None
    else if s[0] == c then Some(0)
    else match Find(s[1..], c)
      case None => None
      case Some(i) =>
        assert s[..i + 1] == [s[0]] + s[1..][..i];
        Some(i + 1)
  }

  lemma FindAt(a: string, c: char, b: string)
    requires c !in a
    ensures Find(a + [c] + b, c) == Some(|a|)
  {
    var s := a + [c] + b;
    assert s[|a|] == c;
    var i := Find(s, c).value;
    assert i >= |a|;
    assert c !in s[..i] && (forall j :: 0 <= j < i ==> s[..i][j] == s[j]);
  }

  /** `split_once`: the text before and after the first `c`. */
  function SplitOnce(s: string, c: char): Option<(string, string)> {
    match Find(s, c)
    case None => None
    case Some(i) => Some((s[..i], s[i + 1..]))
  }

  lemma SplitOnceAt(a: string, c: char, b: string)
    requires c !in a
    ensures SplitOnce(a + [c] + b, c) == Some((a, b))
  {
    FindAt(a, c, b);
    assert (a + [c] + b)[..|a|] == a && (a + [c] + b)[|a| + 1..] == b;
  }

  /** `split(c)`: the pieces between separators, always at least one. */
  function Split(s: string, c: char): (r: seq<string>)
    ensures r != []
    ensures forall i :: 0 <= i < |r| ==> c !in r[i]
    ensures Join(r, [c]) == s
    decreases |s|
  {
    match Find(s, c)
    case None => [s]
    case Some(i) =>
      var rest := Split(s[i + 1..], c);
      assert s == s[..i] + [c] + s[i + 1..];
      [s[..i]] + rest
  }

  function Join(parts: seq<string>, sep: string): string {
    if parts == [] then []
    else if |parts| == 1 then parts[0]
    else parts[0] + sep + Join(parts[1..], sep)
  }

  /** Splitting what was joined gives the pieces back. */
  lemma {:induction false} SplitOfJoin(parts: seq<string>, c: char)
    requires parts != [] && forall i :: 0 <= i < |parts| ==> c !in parts[i]
    ensures Split(Join(parts, [c]), c) == parts
  {
    var s := Join(parts, [c]);
    if |parts| == 1 {
      assert parts == [s];
    } else {
      var rest := Join(parts[1..], [c]);
      assert s == parts[0] + [c] + rest;
      FindAt(parts[0], c, rest);
      assert s[..|parts[0]|] == parts[0] && s[|parts[0]| + 1..] == rest;
      SplitOfJoin(parts[1..], c);
    }
  }

  /** Length of the leading run of non-space characters. */
  function WordLen(s: string): (n: nat)
    ensures n <= |s| && (forall i :: 0 <= i < n ==> !IsSpace(s[i]))
    ensures n < |s| ==> IsSpace(s[n])
  {
    if s == [] || IsSpace(s[0]) then 0 else 1 + WordLen(s[1..])
  }

  lemma FirstIsWord(s: string)
    requires s != [] && !IsSpace(s[0])
    ensures WordLen(s) > 0 && IsWord(s[..WordLen(s)])
  {
    hide IsSpace;
  }

  /** `split_whitespace`. */
  function Words(s: string): (r: seq<string>)
    ensures forall i :: 0 <= i < |r| ==> IsWord(r[i])
    decreases |s|, 1
  {
    WordsFrom(TrimStart(s))
  }

  /** The words of a text that does not start with white space. */
  function WordsFrom(t: string): (r: seq<string>)
    requires t != [] ==> !IsSpace(t[0])
    ensures forall i :: 0 <= i < |r| ==> IsWord(r[i])
    decreases |t|, 0
  {
    hide IsSpace, IsWord;
    if t == [] then []
    else
      var n := WordLen(t);
      FirstIsWord(t);
      [t[..n]] + Words(t[n..])
  }

  lemma {:induction false} WordsCons(w: string, rest: string)
    requires IsWord(w) && (rest != [] ==> IsSpace(rest[0]))
    ensures Words(w + rest) == [w] + Words(rest)
  {
    hide IsSpace;
    var s := w + rest;
    assert s[0] == w[0];
    assert TrimStart(s) == s;
    WordLenAt(w, rest);
    hide IsWord, TrimStart, WordLen;
    assert s[..|w|] == w && s[|w|..] == rest;
  }

  lemma WordLenAt(w: string, rest: string)
    requires NoSpace(w) && (rest != [] ==> IsSpace(rest[0]))
    ensures WordLen(w + rest) == |w|
  {
    hide IsSpace;
    var s := w + rest;
    assert forall i :: 0 <= i < |w| ==> s[i] == w[i];
    assert WordLen(s) >= |w|;
    assert rest != [] ==> s[|w|] == rest[0];
  }

  lemma {:induction false} TrimStartSkip(pad: string, s: string)
    requires AllSpace(pad)
    ensures TrimStart(pad + s) == TrimStart(s)
  {
    hide IsSpace;
    if pad == [] {
      assert pad + s == s;
    } else {
      assert (pad + s)[1..] == pad[1..] + s;
      TrimStartSkip(pad[1..], s);
    }
  }

  lemma {:induction false} WordsSkip(pad: string, s: string)
    requires AllSpace(pad)
    ensures Words(pad + s) == Words(s)
  {
    hide IsSpace, IsWord, WordsFrom, TrimStart, AllSpace;
    TrimStartSkip(pad, s);
  }

  /** The first word of a text, with the white space before it. */
  lemma {:induction false} FirstWord(a: string) returns (pad: string, w: string, rest: string)
    requires !AllSpace(a)
    ensures a == pad + w + rest && AllSpace(pad) && IsWord(w) && (rest != [] ==> IsSpace(rest[0]))
    ensures |rest| < |a|
  {
    hide IsSpace, IsWord;
    if IsSpace(a[0]) {
      assert !AllSpace(a[1..]);
      pad, w, rest := FirstWord(a[1..]);
      pad := [a[0]] + pad;
      assert a == [a[0]] + a[1..];
    } else {
      FirstIsWord(a);
      pad, w, rest := [], a[..WordLen(a)], a[WordLen(a)..];
      assert [] + w == w;
    }
  }

  lemma {:induction false} WordsStep(pad: string, w: string, rest: string)
    requires AllSpace(pad) && IsWord(w) && (rest != [] ==> IsSpace(rest[0]))
    ensures Words(pad + w + rest) == [w] + Words(rest)
  {
    hide IsSpace, IsWord, Words;
    assert pad + w + rest == pad + (w + rest);
    WordsSkip(pad, w + rest);
    WordsCons(w, rest);
  }

  /** Words on either side of a blank are independent. */
  lemma {:induction false} WordsConcat(a: string, b: string)
    ensures Words(a + " " + b) == Words(a) + Words(b)
    decreases |a|
  {
    hide IsSpace, IsWord, Words;
    BlankIsSpace();
    if AllSpace(a) {
      WordsSkip(a + " ", b);
      WordsSkip(a, []);
      WordsEmpty();
      assert a + [] == a;
    } else {
      var pad, w, rest := FirstWord(a);
      assert a + " " + b == pad + w + (rest + " " + b);
      WordsStep(pad, w, rest);
      WordsStep(pad, w, rest + " " + b);
      WordsConcat(rest, b);
    }
  }

  lemma WordsEmpty()
    ensures Words([]) == []
  {}

  /** Words joined by single spaces split into the same words. */
  lemma {:induction false} WordsOfJoin(ws: seq<string>)
    requires forall i :: 0 <= i < |ws| ==> IsWord(ws[i])
    ensures Words(Join(ws, " ")) == ws
  {
    hide IsSpace, Words, IsWord;
    if ws == [] {
      WordsEmpty();
    } else {
      var tl := ws[1..];
      WordsOfJoin(tl);
      if tl == [] {
        assert Join(ws, " ") == ws[0] + [];
        WordsCons(ws[0], []);
        WordsEmpty();
      } else {
        var rest := Join(tl, " ");
        BlankIsSpace();
        WordsSkip(" ", rest);
        WordsCons(ws[0], " " + rest);
        assert Join(ws, " ") == ws[0] + (" " + rest);
      }
      assert ws == [ws[0]] + tl;
    }
  }

  /** `lines()`: split at '\n', one '\r' before it dropped, no empty last line. */
  function Lines(s: string): (r: seq<string>)
    ensures forall i :: 0 <= i < |r| ==> '\n' !in r[i]
    decreases |s|
  {
    if s == [] then []
    else match Find(s, '\n')
      case None => [s]
      case Some(i) => [DropCr(s[..i])] + Lines(s[i + 1..])
  }

  function DropCr(s: string): string {
    if s != [] && s[|s| - 1] == '\r' then s[..|s| - 1] else s
  }

  lemma LinesCons(line: string, rest: string)
    requires '\n' !in line
    ensures Lines(line + "\n" + rest) == [DropCr(line)] + Lines(rest)
  {
    FindAt(line, '\n', rest);
    var s := line + "\n" + rest;
    assert s[..|line|] == line && s[|line| + 1..] == rest;
  }

  /** ASCII lower case; no other letter lowers to an ASCII marker letter. */
  function Lower(s: string): (r: string)
    ensures |r| == |s|
    ensures forall i :: 0 <= i < |s| ==> r[i] == LowerChar(s[i])
  {
    if s == [] then [] else [LowerChar(s[0])] + Lower(s[1..])
  }

  function LowerChar(c: char): char {
    if 'A' <= c <= 'Z' then (c as int + 32) as char else c
  }

  // --- Decimal numerals -----------------------------------------------------

  function Digit(d: nat): char
    requires d < 10
  {
    (48 + d) as char
  }

  predicate IsDigit(c: char) {
    48 <= c as int < 58
  }

  function Decimal(n: nat): (s: string)
    ensures s != [] && forall i :: 0 <= i < |s| ==> IsDigit(s[i])
  {
    if n < 10 then [Digit(n)] else Decimal(n / 10) + [Digit(n % 10)]
  }

  function DigitsValue(s: string): (n: nat)
    requires forall i :: 0 <= i < |s| ==> IsDigit(s[i])
  {
    if s == [] then 0
    else
      var last := s[|s| - 1];
      assert IsDigit(last);
      10 * DigitsValue(s[..|s| - 1]) + (last as int - 48)
  }

  lemma {:induction false} DecimalValue(n: nat)
    ensures DigitsValue(Decimal(n)) == n
  {
    var s := Decimal(n);
    if n < 10 {
      assert s[..0] == [] && s[|s| - 1] as int - 48 == n;
      assert DigitsValue(s) == 10 * DigitsValue(s[..|s| - 1]) + n;
    } else {
      DecimalValue(n / 10);
      assert s[..|s| - 1] == Decimal(n / 10);
    }
  }

  /** `u16::from_str`: an optional '+', then digits whose value fits. */
  function ParseU16(s: string): (r: Option<nat>)
    ensures r.Some? ==> r.value < 0x1_0000
  {
    var d := if s != [] && s[0] == '+' then s[1..] else s;
    if d != [] && (forall i :: 0 <= i < |d| ==> IsDigit(d[i])) && DigitsValue(d) < 0x1_0000
    then Some(DigitsValue(d))
    else None
  }
}
