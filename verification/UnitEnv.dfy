/** The drop-in text: rendering the merged environment into a unit file, and
    reading a unit file's environment back. */
module UnitEnv {
  import opened Text
  import DropIns

  type Env = map<string, string>

  // --- Rendering ------------------------------------------------------------

  function MergedEnv(base: Env, ld: Option<string>, profile: Env): Env {
    (if ld.Some? then base["LD_LIBRARY_PATH" := ld.value] else base) + profile
  }

  predicate Spaced(v: string) {
    exists i :: 0 <= i < |v| && IsSpace(v[i])
  }

  function Assignment(k: string, v: string): string {
    if Spaced(v) then "\"" + k + "=" + v + "\"" else k + "=" + v
  }

  function EnvLines(keys: seq<string>, env: Env): string
    requires forall i :: 0 <= i < |keys| ==> keys[i] in env
  {
    if keys == [] then [] else "Environment=" + Assignment(keys[0], env[keys[0]]) + "\n" + EnvLines(keys[1..], env)
  }

  /** Where and how the server is launched. */
  datatype Launch = Launch(bin: string, model: string, dir: Option<string>, host: string, port: nat, flags: string)

  function ExecLine(l: Launch): string {
    "ExecStart=stdbuf -oL -eL \"" + l.bin + "\" -m \"" + l.model + "\" --host " + l.host
    + " --port " + Decimal(l.port) + " " + l.flags
  }

  function LaunchLines(l: Launch): string {
    (if l.dir.Some? then "WorkingDirectory=" + l.dir.value + "\n" else "")
    + "ExecStart=\n" + ExecLine(l) + "\n"
  }

  const HEADER := "# " + DropIns.MARKER + ". Per-arch launch. Do not edit."

  /** `keys` lists the environment's keys in the order they are written. */
  function RenderDropin(keys: seq<string>, env: Env, l: Launch): string
    requires forall i :: 0 <= i < |keys| ==> keys[i] in env
  {
    HEADER + "\n" + "[Service]" + "\n" + "Environment=" + "\n" + EnvLines(keys, env) + LaunchLines(l)
  }

  // --- Parsing --------------------------------------------------------------

  /** `split_quoted`'s state: words done, the word being read, the open quote. */
  datatype Splitter = Splitter(out: seq<string>, cur: string, quote: Option<char>)

  function Feed(q: Splitter, c: char): Splitter {
    if q.quote == Some(c) then q.(quote := None)
    else if q.quote.Some? then q.(cur := q.cur + [c])
    else if c == '"' || c == '\'' then q.(quote := Some(c))
    else if IsSpace(c) then (if q.cur == [] then q else Splitter(q.out + [q.cur], [], None))
    else q.(cur := q.cur + [c])
  }

  function FeedAll(q: Splitter, s: string): Splitter
    decreases |s|
  {
    if s == [] then q else FeedAll(Feed(q, s[0]), s[1..])
  }

  function Close(q: Splitter): seq<string> {
    if q.cur == [] then q.out else q.out + [q.cur]
  }

  const FRESH := Splitter([], [], None)

  function SplitQuoted(s: string): seq<string> {
    Close(FeedAll(FRESH, s))
  }

  lemma {:induction false} OnlyWords(q: Splitter, s: string)
    requires "" !in q.out
    ensures "" !in Close(FeedAll(q, s))
    decreases |s|
  {
    if s != [] { OnlyWords(Feed(q, s[0]), s[1..]); }
  }

  /** No word is empty: blanks around and between words, however many, and a pair of
      quotes with nothing in it, give none. */
  lemma NoEmptyWord(s: string)
    ensures "" !in SplitQuoted(s)
  {
    OnlyWords(FRESH, s);
  }

  function Insert(env: Env, tok: string): Env {
    match SplitOnce(tok, '=')
    case None => env
    case Some((k, v)) => if k == [] then env else env[k := v]
  }

  function InsertAll(env: Env, toks: seq<string>): Env
    decreases |toks|
  {
    if toks == [] then env else InsertAll(Insert(env, toks[0]), toks[1..])
  }

  datatype Reader = Reader(env: Env, inService: bool)

  function ReadLine(r: Reader, raw: string): Reader {
    var line := Trim(raw);
    if StartsWith(line, "[") then r.(inService := Lower(line) == "[service]")
    else if !r.inService || StartsWith(line, "#") || StartsWith(line, ";") || !StartsWith(line, "Environment=") then r
    else
      var rest := Trim(line[12..]);
      if rest == [] then r.(env := map[]) else r.(env := InsertAll(r.env, SplitQuoted(rest)))
  }

  function ReadLines(r: Reader, lines: seq<string>): Reader
    decreases |lines|
  {
    if lines == [] then r else ReadLines(ReadLine(r, lines[0]), lines[1..])
  }

  function ParseUnitEnv(text: string): Env {
    ReadLines(Reader(map[], false), Lines(text)).env
  }

  // --- One assignment -------------------------------------------------------

  /** A key of the form the precondition asks for. */
  ghost predicate GoodKey(k: string) {
    IsWord(k) && '=' !in k && '"' !in k && '\'' !in k
  }

  /** A value the rendering carries: a spaced one is written in double quotes and
      must hold none, an unspaced one is written bare and must hold no quote. */
  predicate Clean(v: string) {
    '"' !in v && (Spaced(v) || '\'' !in v)
  }

  function Total(words: seq<string>): nat {
    if words == [] then 0 else |words[0]| + Total(words[1..])
  }

  function Held(q: Splitter): nat {
    Total(q.out) + |q.cur|
  }

  lemma {:induction false} TotalSnoc(words: seq<string>, w: string)
    ensures Total(words + [w]) == Total(words) + |w|
  {
    if words != [] {
      assert (words + [w])[1..] == words[1..] + [w];
      TotalSnoc(words[1..], w);
    }
  }

  lemma {:induction false} TotalCovers(words: seq<string>, w: string)
    requires w in words
    ensures |w| <= Total(words)
  {
    if w != words[0] {
      assert w in words[1..];
      TotalCovers(words[1..], w);
    }
  }

  lemma {:induction false} FeedConcat(q: Splitter, a: string, b: string)
    ensures FeedAll(q, a + b) == FeedAll(FeedAll(q, a), b)
    decreases |a|
  {
    hide Feed;
    if a == [] {
      assert a + b == b;
    } else {
      assert (a + b)[1..] == a[1..] + b;
      FeedConcat(Feed(q, a[0]), a[1..], b);
    }
  }

  lemma FeedHeld(q: Splitter, c: char)
    ensures Held(Feed(q, c)) <= Held(q) + 1
  {
    hide IsSpace;
    TotalSnoc(q.out, q.cur);
  }

  lemma {:induction false} FeedAllHeld(q: Splitter, s: string)
    ensures Held(FeedAll(q, s)) <= Held(q) + |s|
    decreases |s|
  {
    hide Feed, Held;
    if s != [] {
      FeedHeld(q, s[0]);
      FeedAllHeld(Feed(q, s[0]), s[1..]);
    }
  }

  /** Outside quotes, text that ends in a double quote loses a character. */
  lemma {:induction false} LosesOne(q: Splitter, s: string)
    requires q.quote == None
    ensures Held(FeedAll(q, s + "\"")) <= Held(q) + |s|
    decreases |s|
  {
    hide IsSpace;
    var t := s + "\"";
    if s == [] {
      assert t[1..] == [];
    } else {
      assert t[1..] == s[1..] + "\"";
      TotalSnoc(q.out, q.cur);
      var next := Feed(q, s[0]);
      if next.quote == None {
        FeedHeld(q, s[0]);
        LosesOne(next, s[1..]);
      } else {
        FeedAllHeld(next, t[1..]);
      }
    }
  }

  /** Plain characters are kept as they are. */
  lemma {:induction false} FeedPlain(q: Splitter, s: string)
    requires q.quote == None && NoSpace(s) && '"' !in s && '\'' !in s
    ensures FeedAll(q, s) == q.(cur := q.cur + s)
    decreases |s|
  {
    hide IsSpace;
    if s == [] {
      assert q.cur + s == q.cur;
    } else {
      assert (q.cur + [s[0]]) + s[1..] == q.cur + s;
      FeedPlain(q.(cur := q.cur + [s[0]]), s[1..]);
    }
  }

  /** Inside double quotes everything but a double quote is kept. */
  lemma {:induction false} FeedQuoted(q: Splitter, s: string)
    requires q.quote == Some('"') && '"' !in s
    ensures FeedAll(q, s) == q.(cur := q.cur + s)
    decreases |s|
  {
    if s == [] {
      assert q.cur + s == q.cur;
    } else {
      assert (q.cur + [s[0]]) + s[1..] == q.cur + s;
      FeedQuoted(q.(cur := q.cur + [s[0]]), s[1..]);
    }
  }

  /** Once a word has begun, the first word out begins with it. */
  lemma {:induction false} FirstWordBegins(q: Splitter, s: string)
    requires q.cur != [] || q.out != []
    ensures var r := FeedAll(q, s);
      && Close(r) != []
      && (q.out == [] ==> q.cur <= Close(r)[0])
      && (q.out != [] ==> r.out != [] && Close(r)[0] == q.out[0])
    decreases |s|
  {
    hide IsSpace;
    if s != [] { FirstWordBegins(Feed(q, s[0]), s[1..]); }
  }

  lemma WordSplits(k: string, v: string)
    requires '=' !in k
    ensures SplitOnce(k + "=" + v, '=') == Some((k, v))
  {
    SplitOnceAt(k, '=', v);
    assert k + "=" + v == k + ['='] + v;
  }

  /** A clean assignment is read as one word, exactly `k=v`. */
  lemma CleanSplits(k: string, v: string)
    requires GoodKey(k) && Clean(v)
    ensures SplitQuoted(Assignment(k, v)) == [k + "=" + v]
  {
    KeyValue(k, v);
    hide GoodKey, IsSpace, SplitQuoted, Spaced, NoSpace;
    if Spaced(v) {
      assert Assignment(k, v) == "\"" + (k + "=" + v) + "\"";
      QuotedWord(k + "=" + v);
    } else {
      BareWord(k + "=" + v);
    }
  }

  lemma KeyValue(k: string, v: string)
    requires GoodKey(k) && Clean(v)
    ensures var kv := k + "=" + v; kv != [] && '"' !in kv && (!Spaced(v) ==> NoSpace(kv) && '\'' !in kv)
  {
    EqualsIsPlain();
    hide IsSpace;
  }

  lemma BareWord(w: string)
    requires w != [] && NoSpace(w) && '"' !in w && '\'' !in w
    ensures SplitQuoted(w) == [w]
  {
    hide IsSpace;
    assert [] + w == w;
    FeedPlain(FRESH, w);
  }

  lemma QuotedWord(w: string)
    requires '"' !in w && w != []
    ensures SplitQuoted("\"" + w + "\"") == [w]
  {
    hide IsSpace;
    var s, q := "\"" + w + "\"", FRESH.(quote := Some('"'));
    assert s[1..] == w + "\"" + "";
    assert FeedAll(FRESH, s) == FeedAll(q, s[1..]);
    ReadToQuote(q, w, "");
  }

  lemma EqualsIsPlain()
    ensures !IsSpace('=') && !IsSpace('"')
  {}

  /** The words of a text whose reading starts a word with `head` and then loses
      a character. */
  lemma ShortWords(head: string, mid: Splitter, end: Splitter, rest: string, limit: nat)
    requires mid == FRESH.(cur := mid.cur) && head != [] && head <= mid.cur
    requires end == FeedAll(mid, rest) && Held(end) < limit
    ensures Close(end) != [] && head <= Close(end)[0] && Total(Close(end)) < limit
  {
    FirstWordBegins(mid, rest);
    TotalSnoc(end.out, end.cur);
  }

  lemma UncleanBare(k: string, v: string)
    requires GoodKey(k) && !Clean(v) && !Spaced(v)
    ensures var w := SplitQuoted(Assignment(k, v));
      w != [] && k + "=" <= w[0] && Total(w) < |k + "=" + v|
  {
    hide IsSpace;
    EqualsIsPlain();
    var head := k + "=";
    assert [] + head == head;
    var mid := FRESH.(cur := head);
    assert Assignment(k, v) == head + v;
    assert NoSpace(head) && '"' !in head && '\'' !in head && NoSpace(v) && ('"' in v || '\'' in v);
    hide FeedAll, Clean, Spaced, GoodKey, NoSpace;
    FeedConcat(FRESH, head, v);
    FeedPlain(FRESH, head);
    QuoteLost(mid, v);
    ShortWords(head, mid, FeedAll(FRESH, head + v), v, |head + v|);
  }

  lemma UncleanSpaced(k: string, v: string)
    requires GoodKey(k) && !Clean(v) && Spaced(v)
    ensures var w := SplitQuoted(Assignment(k, v));
      w != [] && k + "=" <= w[0] && Total(w) < |k + "=" + v|
  {
    var i := Find(v, '"').value;
    assert '"' !in k + "=";
    hide SplitQuoted, Spaced, GoodKey;
    QuotedText(k, v[..i], v[i + 1..], v);
    ClosesEarly(k + "=", v[..i], v[i + 1..]);
  }

  lemma QuotedText(k: string, v1: string, v2: string, v: string)
    requires v == v1 + ['"'] + v2
    ensures "\"" + k + "=" + v + "\"" == "\"" + (k + "=" + v1 + "\"" + (v2 + "\""))
  {}

  lemma ClosesEarly(head: string, v1: string, v2: string)
    requires head != [] && '"' !in head && '"' !in v1
    ensures var w := SplitQuoted("\"" + (head + v1 + "\"" + (v2 + "\"")));
      w != [] && head <= w[0] && Total(w) < |head| + |v1| + 1 + |v2|
  {
    var text := head + v1 + "\"" + (v2 + "\"");
    assert ("\"" + text)[1..] == text;
    var q := FRESH.(quote := Some('"'));
    assert FeedAll(FRESH, "\"" + text) == FeedAll(q, text);
    var mid := FRESH.(cur := head + v1);
    hide Feed, IsSpace;
    ReadToQuote(q, head + v1, v2 + "\"");
    LosesOne(mid, v2);
    hide FeedAll;
    ShortWords(head, mid, FeedAll(q, text), v2 + "\"", |head| + |v1| + 1 + |v2|);
  }

  lemma ReadToQuote(q: Splitter, s: string, rest: string)
    requires q == FRESH.(quote := Some('"')) && '"' !in s
    ensures FeedAll(q, s + "\"" + rest) == FeedAll(FRESH.(cur := s), rest)
  {
    FeedConcat(q, s + "\"", rest);
    FeedConcat(q, s, "\"");
    FeedQuoted(q, s);
    assert [] + s == s && "\""[1..] == [];
  }

  /** An unclean assignment yields words that are all too short to be `k=v`, the
      first of which still begins with `k=`. */
  lemma UncleanSplits(k: string, v: string)
    requires GoodKey(k) && !Clean(v)
    ensures var w := SplitQuoted(Assignment(k, v));
      w != [] && k + "=" <= w[0] && Total(w) < |k + "=" + v|
  {
    hide IsSpace, Spaced, Clean, SplitQuoted;
    if Spaced(v) { UncleanSpaced(k, v); } else { UncleanBare(k, v); }
  }

  lemma {:induction false} QuoteLost(q: Splitter, v: string)
    requires q.quote == None && NoSpace(v) && ('"' in v || '\'' in v)
    ensures Held(FeedAll(q, v)) < Held(q) + |v|
    decreases |v|
  {
    hide IsSpace;
    var next := Feed(q, v[0]);
    if v[0] == '"' || v[0] == '\'' {
      FeedAllHeld(next, v[1..]);
    } else {
      assert v == [v[0]] + v[1..];
      QuoteLost(next, v[1..]);
    }
  }

  /** Inserting words none of which is `k=v` leaves `k` at some other value, if any
      of them assigns `k` or it was so before. */
  lemma {:induction false} InsertedWrong(env: Env, toks: seq<string>, k: string, v: string)
    requires k != [] && k + "=" + v !in toks
    requires (k in env && env[k] != v) || (toks != [] && '=' !in k && k + "=" <= toks[0])
    ensures var e := InsertAll(env, toks); k in e && e[k] != v
    decreases |toks|
  {
    if toks != [] {
      var t := toks[0];
      assert t in toks;
      InsertedOther(env, t, k, v);
      hide Insert;
      InsertedWrong(Insert(env, t), toks[1..], k, v);
    }
  }

  lemma InsertedOther(env: Env, t: string, k: string, v: string)
    requires k != [] && t != k + "=" + v
    requires (k in env && env[k] != v) || ('=' !in k && k + "=" <= t)
    ensures var e := Insert(env, t); k in e && e[k] != v
  {
    if '=' in t {
      var i := Find(t, '=').value;
      assert t == t[..i] + "=" + t[i + 1..];
    }
    if '=' !in k && k + "=" <= t {
      var x := t[|k| + 1..];
      assert t == k + "=" + x;
      WordSplits(k, x);
    }
  }

  /** A word assigns what follows its first equals sign to what comes before it; a
      word without one, or with nothing before it, assigns nothing. */
  lemma WordAssigns(env: Env, k: string, v: string)
    requires '=' !in k
    ensures Insert(env, k) == env
    ensures Insert(env, k + "=" + v) == if k == "" then env else env[k := v]
  {
    WordSplits(k, v);
  }

  // --- A whole drop-in ------------------------------------------------------

  /** A line of another setting leaves the reader as it is. */
  lemma OtherLine(r: Reader, line: string, start: string)
    requires start <= line && |start| >= 2
    requires start == "WorkingDirectory=" || start == "ExecStart="
    ensures ReadLine(r, line) == r && ReadLine(r, DropCr(line)) == r
  {
    assert line[0] == start[0] && line[1] == start[1];
    assert DropCr(line)[0] == line[0] && |DropCr(line)| >= 2 && DropCr(line)[1] == line[1];
    OtherSetting(r, line);
    OtherSetting(r, DropCr(line));
  }

  lemma OtherSetting(r: Reader, line: string)
    requires |line| >= 2 && (line[0] == 'W' || (line[0] == 'E' && line[1] == 'x'))
    ensures ReadLine(r, line) == r
  {
    assert !IsSpace('W') && !IsSpace('E');
    hide IsSpace;
    TrimKeepsStart(line);
    var t := Trim(line);
    assert t[0] == line[0];
    assert |t| >= 2 ==> t[1] == line[1];
    NotPrefix(t, "[", 0);
    NotPrefix(t, "Environment=", if line[0] == 'W' then 0 else 1);
    hide Trim, Lower, InsertAll, SplitQuoted, StartsWith;
  }

  /** What one environment line does to the environment read so far. */
  lemma EnvLine(r: Reader, k: string, v: string)
    requires r.inService && GoodKey(k)
    ensures var line := "Environment=" + Assignment(k, v);
      && DropCr(line) == line
      && ReadLine(r, line) == r.(env := InsertAll(r.env, SplitQuoted(Assignment(k, v))))
  {
    AssignmentEnds(k, v);
    var a := Assignment(k, v);
    LineTrims(a);
    hide IsSpace, Assignment, ReadLine, DropCr, SplitQuoted, InsertAll;
    ReadSetting(r, "Environment=" + a, a);
  }

  lemma LineTrims(a: string)
    requires a != [] && !IsSpace(a[0]) && !IsSpace(a[|a| - 1])
    ensures Trim(a) == a && Trim("Environment=" + a) == "Environment=" + a
    ensures DropCr("Environment=" + a) == "Environment=" + a
  {
    assert !IsSpace('E') && IsSpace('\r');
    hide IsSpace, Trim;
    StaysTrimmed("Environment=", a);
  }

  lemma StaysTrimmed(start: string, a: string)
    requires start != "" && !IsSpace(start[0]) && IsSpace('\r')
    requires a != [] && !IsSpace(a[0]) && !IsSpace(a[|a| - 1])
    ensures Trim(a) == a && Trim(start + a) == start + a && DropCr(start + a) == start + a
  {
    hide IsSpace, Trim;
    var line := start + a;
    assert line[|line| - 1] == a[|a| - 1] && line[0] == start[0];
  }

  lemma ReadSetting(r: Reader, line: string, a: string)
    requires r.inService && line == "Environment=" + a && Trim(line) == line && Trim(a) == a && a != []
    ensures ReadLine(r, line) == r.(env := InsertAll(r.env, SplitQuoted(a)))
  {
    hide Trim, Lower, InsertAll, SplitQuoted;
    assert line[..12] == "Environment=" && line[12..] == a;
    assert StartsWith(line, "Environment=");
    assert line[0] == 'E';
    NotPrefix(line, "[", 0);
    NotPrefix(line, "#", 0);
    NotPrefix(line, ";", 0);
    hide StartsWith;
  }

  lemma AssignmentEnds(k: string, v: string)
    requires GoodKey(k)
    ensures var a := Assignment(k, v); a != [] && !IsSpace(a[0]) && !IsSpace(a[|a| - 1])
  {
    EqualsIsPlain();
    hide IsSpace;
  }

  ghost predicate Writable(keys: seq<string>, env: Env) {
    && (forall k :: k in env <==> k in keys)
    && (forall i, j :: 0 <= i < j < |keys| ==> keys[i] != keys[j])
    && (forall i :: 0 <= i < |keys| ==> GoodKey(keys[i]))
    && (forall k :: k in env ==> '\n' !in env[k])
  }

  /** The environment after the lines of `keys` have been read. */
  function ReadBack(e: Env, keys: seq<string>, env: Env): Env
    requires forall i :: 0 <= i < |keys| ==> keys[i] in env
    decreases |keys|
  {
    if keys == [] then e
    else ReadBack(InsertAll(e, SplitQuoted(Assignment(keys[0], env[keys[0]]))), keys[1..], env)
  }

  function ReadText(r: Reader, text: string): Reader {
    ReadLines(r, Lines(text))
  }

  lemma ReadTextCons(r: Reader, line: string, rest: string)
    requires '\n' !in line
    ensures ReadText(r, line + "\n" + rest) == ReadText(ReadLine(r, DropCr(line)), rest)
  {
    hide ReadLine;
    LinesCons(line, rest);
    var lines := Lines(line + "\n" + rest);
    assert lines[0] == DropCr(line) && lines[1..] == Lines(rest);
  }

  lemma AssignmentIsOneLine(k: string, v: string)
    requires GoodKey(k) && '\n' !in v
    ensures OneLine("Environment=" + Assignment(k, v))
  {
    assert IsSpace('\n') && OneLine("Environment=") && OneLine("=") && OneLine("\"") && OneLine(k) && OneLine(v);
    hide IsSpace, OneLine, GoodKey, Spaced;
    OneLineConcat(k, "=");
    OneLineConcat(k + "=", v);
    OneLineConcat("\"", k);
    OneLineConcat("\"" + k, "=");
    OneLineConcat("\"" + k + "=", v);
    OneLineConcat("\"" + k + "=" + v, "\"");
    OneLineConcat("Environment=", Assignment(k, v));
  }

  lemma {:induction false} EnvLinesRead(r: Reader, keys: seq<string>, env: Env, tail: string)
    requires r.inService
    requires forall i :: 0 <= i < |keys| ==> GoodKey(keys[i]) && keys[i] in env && '\n' !in env[keys[i]]
    ensures ReadText(r, EnvLines(keys, env) + tail) == ReadText(r.(env := ReadBack(r.env, keys, env)), tail)
    decreases |keys|
  {
    hide GoodKey, Assignment, InsertAll, SplitQuoted, ReadText, ReadLine, DropCr;
    if keys == [] {
      assert EnvLines(keys, env) + tail == tail;
    } else {
      var k, v := keys[0], env[keys[0]];
      var line, rest := "Environment=" + Assignment(k, v), EnvLines(keys[1..], env) + tail;
      assert EnvLines(keys, env) + tail == line + "\n" + rest;
      AssignmentIsOneLine(k, v);
      ReadTextCons(r, line, rest);
      EnvLine(r, k, v);
      EnvLinesRead(ReadLine(r, line), keys[1..], env, tail);
    }
  }

  /** A launch every field of which is a single line. */
  ghost predicate SingleLine(l: Launch) {
    && '\n' !in l.bin && '\n' !in l.model && '\n' !in l.host && '\n' !in l.flags
    && (l.dir.Some? ==> '\n' !in l.dir.value)
  }

  lemma ExecLinesRead(r: Reader, exec: string)
    requires OneLine(exec) && "ExecStart=" <= exec
    ensures ReadText(r, "ExecStart=" + "\n" + (exec + "\n" + "")) == r
  {
    hide ReadLine, ReadLines, Lines, DropCr;
    OtherLine(r, exec, "ExecStart=");
    OtherLine(r, "ExecStart=", "ExecStart=");
    ReadNothing(r);
    hide ReadText;
    ReadTextCons(r, exec, "");
    ReadTextCons(r, "ExecStart=", exec + "\n" + "");
  }

  lemma DirLineRead(r: Reader, dir: string, rest: string)
    requires OneLine(dir)
    ensures ReadText(r, "WorkingDirectory=" + dir + "\n" + rest) == ReadText(r, rest)
  {
    hide ReadLine, ReadText, DropCr;
    var line := "WorkingDirectory=" + dir;
    OtherLine(r, line, "WorkingDirectory=");
    ReadTextCons(r, line, rest);
  }

  lemma LaunchLinesRead(r: Reader, l: Launch)
    requires SingleLine(l)
    ensures ReadText(r, LaunchLines(l)) == r
  {
    ExecIsOneLine(l);
    LaunchText(l);
    hide ReadText, LaunchLines, ExecLine;
    ExecLinesRead(r, ExecLine(l));
    if l.dir.Some? {
      DirLineRead(r, l.dir.value, "ExecStart=" + "\n" + (ExecLine(l) + "\n" + ""));
    }
  }

  lemma LaunchText(l: Launch)
    ensures var two := "ExecStart=" + "\n" + (ExecLine(l) + "\n" + "");
      LaunchLines(l) == if l.dir.Some? then "WorkingDirectory=" + l.dir.value + "\n" + two else two
  {
    hide ExecLine;
    assert "ExecStart=\n" == "ExecStart=" + "\n";
    assert "ExecStart=\n" + ExecLine(l) + "\n" == "ExecStart=" + "\n" + (ExecLine(l) + "\n" + "");
  }

  lemma ReadNothing(r: Reader)
    ensures ReadText(r, "") == r
  {}

  lemma ExecIsOneLine(l: Launch)
    requires SingleLine(l)
    ensures OneLine(ExecLine(l)) && "ExecStart=" <= ExecLine(l)
  {
    DecimalIsOneLine(l.port);
    hide Decimal;
    var start, mid, end := "ExecStart=stdbuf -oL -eL \"" + l.bin, "\" -m \"" + l.model, "\" --host " + l.host;
    var port, flags := " --port " + Decimal(l.port), " " + l.flags;
    assert OneLine(start) && OneLine(mid) && OneLine(end);
    assert OneLine(port) && OneLine(flags);
    hide OneLine;
    assert start[..10] == "ExecStart=";
    assert ExecLine(l) == start + mid + end + port + flags;
    OneLineConcat(start, mid);
    OneLineConcat(start + mid, end);
    OneLineConcat(start + mid + end, port);
    OneLineConcat(start + mid + end + port, flags);
    assert (start + mid + end + port + flags)[..10] == start[..10];
  }

  lemma DecimalIsOneLine(n: nat)
    ensures OneLine(Decimal(n))
  {
    assert !IsDigit('\n');
    hide Decimal;
  }

  lemma HeaderIsOneLine()
    ensures OneLine(HEADER) && HEADER[2..2 + |DropIns.MARKER|] == DropIns.MARKER
  {
    var tail := ". Per-arch launch. Do not edit.";
    assert OneLine("# ") && OneLine(DropIns.MARKER) && OneLine(tail);
    hide OneLine;
    OneLineConcat("# ", DropIns.MARKER);
    OneLineConcat("# " + DropIns.MARKER, tail);
  }

  /** The first lines of a drop-in forget whatever was read before them. */
  lemma HeaderRead(r: Reader, rest: string)
    ensures ReadText(r, HEADER + "\n" + "[Service]" + "\n" + "Environment=" + "\n" + rest)
         == ReadText(Reader(map[], true), rest)
  {
    HeaderIsOneLine();
    assert HEADER[0] == '#';
    CommentThenReset(r, HEADER, rest);
  }

  lemma CommentThenReset(r: Reader, comment: string, rest: string)
    requires OneLine(comment) && comment != [] && comment[0] == '#'
    ensures ReadText(r, comment + "\n" + "[Service]" + "\n" + "Environment=" + "\n" + rest)
         == ReadText(Reader(map[], true), rest)
  {
    hide *;
    CommentRead(r, comment);
    SectionRead(r);
    ResetRead(r.(inService := true));
    ServiceLines();
    ReadThree(r, comment, "[Service]", "Environment=", rest);
  }

  lemma ServiceLines()
    ensures OneLine("[Service]") && OneLine("Environment=")
  {}

  lemma ReadThree(r: Reader, a: string, b: string, c: string, rest: string)
    requires OneLine(a) && OneLine(b) && OneLine(c)
    ensures ReadText(r, a + "\n" + b + "\n" + c + "\n" + rest)
         == ReadText(ReadLine(ReadLine(ReadLine(r, DropCr(a)), DropCr(b)), DropCr(c)), rest)
  {
    hide ReadLine, ReadText, DropCr;
    var s2 := c + "\n" + rest;
    var s1 := b + "\n" + s2;
    assert a + "\n" + b + "\n" + c + "\n" + rest == a + "\n" + s1;
    var q := ReadLine(r, DropCr(a));
    ReadTextCons(r, a, s1);
    ReadTextCons(q, b, s2);
    ReadTextCons(ReadLine(q, DropCr(b)), c, rest);
  }

  /** A comment is passed over, in any section. */
  lemma CommentRead(r: Reader, line: string)
    requires line != [] && (line[0] == '#' || line[0] == ';')
    ensures ReadLine(r, line) == r && ReadLine(r, DropCr(line)) == r
  {
    assert !IsSpace('#') && !IsSpace(';') && DropCr(line) != [] && DropCr(line)[0] == line[0];
    hide IsSpace, ReadLine, DropCr;
    StartsComment(r, line);
    StartsComment(r, DropCr(line));
  }

  lemma StartsComment(r: Reader, line: string)
    requires line != [] && (line[0] == '#' || line[0] == ';') && !IsSpace(line[0])
    ensures ReadLine(r, line) == r
  {
    hide IsSpace, InsertAll, SplitQuoted, Lower;
    TrimKeepsStart(line);
    var t := Trim(line);
    assert t[0] == line[0];
    hide Trim;
    NotPrefix(t, "[", 0);
    assert t[..1] == [t[0]];
    assert StartsWith(t, "#") || StartsWith(t, ";");
    hide StartsWith;
  }

  lemma SectionRead(r: Reader)
    ensures ReadLine(r, DropCr("[Service]")) == r.(inService := true)
  {
    assert !IsSpace('[') && !IsSpace(']');
    hide IsSpace, InsertAll, SplitQuoted, ReadLine;
    var line := "[Service]";
    assert Trim(line) == line && DropCr(line) == line;
    assert line[..1] == "[";
    LowerService();
    hide Trim, Lower, DropCr;
    ReadSection(r, line);
  }

  lemma ReadSection(r: Reader, raw: string)
    requires StartsWith(Trim(raw), "[")
    ensures ReadLine(r, raw) == r.(inService := Lower(Trim(raw)) == "[service]")
  {
    hide Trim, Lower, InsertAll, SplitQuoted, StartsWith;
  }

  lemma LowerService()
    ensures Lower("[Service]") == "[service]"
  {
    hide Lower;
  }

  lemma ResetRead(r: Reader)
    requires r.inService
    ensures ReadLine(r, DropCr("Environment=")) == Reader(map[], true)
  {
    assert !IsSpace('E') && !IsSpace('=');
    hide IsSpace, InsertAll, SplitQuoted, Lower;
    var line := "Environment=";
    assert Trim(line) == line && Trim("") == "" && DropCr(line) == line;
    hide Trim, DropCr;
    assert line[12..] == "";
    NotPrefix(line, "[", 0);
    NotPrefix(line, "#", 0);
    NotPrefix(line, ";", 0);
  }

  /** Outside the service section nothing counts until the next section begins. */
  lemma {:induction false} OtherSectionIgnored(r: Reader, lines: seq<string>)
    requires !r.inService && forall i :: 0 <= i < |lines| ==> !StartsWith(Trim(lines[i]), "[")
    ensures ReadLines(r, lines) == r
    decreases |lines|
  {
    hide Trim, StartsWith, Lower, SplitQuoted, InsertAll;
    if lines != [] { OtherSectionIgnored(r, lines[1..]); }
  }

  /** Reading past a whole text and a line end comes to some state of the reader. */
  lemma {:induction false} ReadsPast(r: Reader, before: string, rest: string) returns (q: Reader)
    ensures ReadText(r, before + "\n" + rest) == ReadText(q, rest)
    decreases |before|
  {
    hide ReadLine, ReadText, DropCr;
    if '\n' in before {
      var i := Find(before, '\n').value;
      var line, more := before[..i], before[i + 1..];
      assert before + "\n" + rest == line + "\n" + (more + "\n" + rest);
      ReadTextCons(r, line, more + "\n" + rest);
      q := ReadsPast(ReadLine(r, DropCr(line)), more, rest);
    } else {
      ReadTextCons(r, before, rest);
      q := ReadLine(r, DropCr(before));
    }
  }

  /** A drop-in takes over: read after any other unit text, its environment is the
      same as read alone, so nothing declared before it gets through. */
  lemma DropinTakesOver(before: string, keys: seq<string>, env: Env, l: Launch)
    requires forall i :: 0 <= i < |keys| ==> keys[i] in env
    ensures ParseUnitEnv(before + "\n" + RenderDropin(keys, env, l)) == ParseUnitEnv(RenderDropin(keys, env, l))
  {
    var text := RenderDropin(keys, env, l);
    DropinText(keys, env, l);
    ParsesAs(text);
    ParsesAs(before + "\n" + text);
    hide ParseUnitEnv, ReadText, RenderDropin, EnvLines, LaunchLines;
    var q := ReadsPast(Reader(map[], false), before, text);
    HeaderRead(q, EnvLines(keys, env) + LaunchLines(l));
    HeaderRead(Reader(map[], false), EnvLines(keys, env) + LaunchLines(l));
  }

  lemma {:induction false} CleanReadBack(e: Env, keys: seq<string>, env: Env)
    requires forall i :: 0 <= i < |keys| ==> keys[i] in env && GoodKey(keys[i]) && Clean(env[keys[i]])
    ensures ReadBack(e, keys, env) == e + (map k | k in keys && k in env :: env[k])
    decreases |keys|
  {
    hide Clean, Assignment, SplitQuoted, GoodKey;
    if keys == [] {
      assert e + (map k | k in keys && k in env :: env[k]) == e;
    } else {
      var k, v := keys[0], env[keys[0]];
      CleanInserts(e, k, v);
      CleanReadBack(e[k := v], keys[1..], env);
      OneMoreKey(e, keys, env);
    }
  }

  lemma CleanInserts(e: Env, k: string, v: string)
    requires GoodKey(k) && Clean(v)
    ensures InsertAll(e, SplitQuoted(Assignment(k, v))) == e[k := v]
  {
    CleanSplits(k, v);
    WordSplits(k, v);
    hide Assignment, SplitQuoted, SplitOnce, IsWord;
    assert InsertAll(e, [k + "=" + v]) == Insert(e, k + "=" + v);
  }

  lemma OneMoreKey(e: Env, keys: seq<string>, env: Env)
    requires keys != [] && forall i :: 0 <= i < |keys| ==> keys[i] in env
    ensures e[keys[0] := env[keys[0]]] + (map x | x in keys[1..] && x in env :: env[x])
         == e + (map x | x in keys && x in env :: env[x])
  {
    assert keys == [keys[0]] + keys[1..];
  }

  lemma {:induction false} UncleanReadBack(e: Env, keys: seq<string>, env: Env, z: string)
    requires forall i :: 0 <= i < |keys| ==> keys[i] in env && GoodKey(keys[i])
    requires forall i, j :: 0 <= i < j < |keys| ==> keys[i] != keys[j]
    requires z in env
    requires (z in e && e[z] != env[z] && z !in keys && forall i :: 0 <= i < |keys| ==> Clean(env[keys[i]]))
          || exists i :: 0 <= i < |keys| && !Clean(env[keys[i]])
    ensures exists k :: k in env && (k !in ReadBack(e, keys, env) || ReadBack(e, keys, env)[k] != env[k])
    decreases |keys|
  {
    hide Clean, Assignment, SplitQuoted;
    if keys != [] {
      var k, v := keys[0], env[keys[0]];
      var toks := SplitQuoted(Assignment(k, v));
      var e' := InsertAll(e, toks);
      assert forall i :: 0 < i < |keys| ==> keys[i] == keys[1..][i - 1];
      if exists i :: 0 < i < |keys| && !Clean(env[keys[i]]) {
        var i :| 0 < i < |keys| && !Clean(env[keys[i]]);
        assert !Clean(env[keys[1..][i - 1]]);
        UncleanReadBack(e', keys[1..], env, z);
      } else if !Clean(v) {
        UncleanSplits(k, v);
        if k + "=" + v in toks { TotalCovers(toks, k + "=" + v); }
        InsertedWrong(e, toks, k, v);
        UncleanReadBack(e', keys[1..], env, k);
      } else {
        CleanInserts(e, k, v);
        UncleanReadBack(e', keys[1..], env, z);
      }
    }
  }

  lemma DropinText(keys: seq<string>, env: Env, l: Launch)
    requires forall i :: 0 <= i < |keys| ==> keys[i] in env
    ensures RenderDropin(keys, env, l)
         == HEADER + "\n" + "[Service]" + "\n" + "Environment=" + "\n" + (EnvLines(keys, env) + LaunchLines(l))
  {
    hide EnvLines, LaunchLines;
  }

  lemma DropinReads(keys: seq<string>, env: Env, l: Launch)
    requires Writable(keys, env) && SingleLine(l)
    ensures ParseUnitEnv(RenderDropin(keys, env, l)) == ReadBack(map[], keys, env)
  {
    ParsesAs(RenderDropin(keys, env, l));
    DropinText(keys, env, l);
    HeaderRead(Reader(map[], false), EnvLines(keys, env) + LaunchLines(l));
    hide Assignment, SplitQuoted, GoodKey, ReadBack, ReadText, ParseUnitEnv, RenderDropin, EnvLines, LaunchLines;
    EnvLinesRead(Reader(map[], true), keys, env, LaunchLines(l));
    LaunchLinesRead(Reader(ReadBack(map[], keys, env), true), l);
  }

  /** Reading a rendered drop-in gives back exactly its environment if and only if
      every value is clean; keys are words without `=` or quotes, lines single. */
  lemma DropinRoundTripExact(keys: seq<string>, env: Env, l: Launch)
    requires Writable(keys, env) && SingleLine(l)
    ensures ParseUnitEnv(RenderDropin(keys, env, l)) == env
       <==> forall k :: k in env ==> Clean(env[k])
  {
    hide Clean, GoodKey, ReadBack, ParseUnitEnv, RenderDropin;
    DropinReads(keys, env, l);
    if forall k :: k in env ==> Clean(env[k]) {
      CleanReadBack(map[], keys, env);
      assert map[] + (map k | k in keys && k in env :: env[k]) == env;
    } else {
      var k :| k in env && !Clean(env[k]);
      var i :| 0 <= i < |keys| && keys[i] == k;
      UncleanReadBack(map[], keys, env, k);
    }
  }

  /** A value with a double quote in it comes back as something else. */
  lemma QuoteDoesNotSurvive(l: Launch)
    requires SingleLine(l)
    ensures var env := map["K" := "a\"b"]; ParseUnitEnv(RenderDropin(["K"], env, l)) != env
  {
    var env := map["K" := "a\"b"];
    assert Writable(["K"], env) && !Clean(env["K"]);
    hide RenderDropin, ParseUnitEnv, Clean;
    DropinRoundTripExact(["K"], env, l);
  }

  lemma ParsesAs(text: string)
    ensures ParseUnitEnv(text) == ReadText(Reader(map[], false), text).env
  {}

  /** What a rendered drop-in gives the server, read back, is each key from the
      profile, else the library path, else the base unit: none of these is lost. */
  lemma RenderedPrecedence(keys: seq<string>, base: Env, ld: Option<string>, profile: Env, l: Launch, k: string)
    requires Writable(keys, MergedEnv(base, ld, profile)) && SingleLine(l)
    requires forall x :: x in MergedEnv(base, ld, profile) ==> Clean(MergedEnv(base, ld, profile)[x])
    ensures var env := ParseUnitEnv(RenderDropin(keys, MergedEnv(base, ld, profile), l));
      && (k in env <==> k in profile || (ld.Some? && k == "LD_LIBRARY_PATH") || k in base)
      && (k in env ==> env[k] == if k in profile then profile[k]
                                 else if ld.Some? && k == "LD_LIBRARY_PATH" then ld.value
                                 else base[k])
  {
    hide Writable, Clean, RenderDropin, ParseUnitEnv;
    DropinRoundTripExact(keys, MergedEnv(base, ld, profile), l);
  }

  /** Every rendered drop-in carries the marker by which a later stage knows it. */
  lemma RenderedIsOurs(keys: seq<string>, env: Env, l: Launch)
    requires forall i :: 0 <= i < |keys| ==> keys[i] in env
    ensures DropIns.IsOurs(RenderDropin(keys, env, l))
  {
    var s := RenderDropin(keys, env, l);
    var m := DropIns.MARKER;
    HeaderIsOneLine();
    assert s[..|HEADER|] == HEADER;
    assert s[2..][..|m|] == s[..|HEADER|][2..2 + |m|];
    assert StartsWith(s[2..], m);
  }

  // --- The launch line ------------------------------------------------------

  /** Between words: nothing begun, no quote open. */
  ghost predicate Between(q: Splitter) {
    q.cur == [] && q.quote == None
  }

  lemma PlainWordRead(q: Splitter, w: string)
    requires Between(q) && PlainWord(w)
    ensures FeedAll(q, w + " ") == Splitter(q.out + [w], [], None)
  {
    BlankIsSpace();
    hide IsSpace;
    FeedConcat(q, w, " ");
    FeedPlain(q, w);
    assert [] + w == w && " "[1..] == [];
  }

  lemma QuotedWordRead(q: Splitter, w: string)
    requires Between(q) && w != [] && '"' !in w
    ensures FeedAll(q, "\"" + w + "\"" + " ") == Splitter(q.out + [w], [], None)
  {
    BlankIsSpace();
    EqualsIsPlain();
    hide IsSpace;
    var inside := q.(quote := Some('"'));
    FeedConcat(q, "\"" + w + "\"", " ");
    FeedConcat(q, "\"" + w, "\"");
    FeedConcat(q, "\"", w);
    assert "\""[1..] == [] && " "[1..] == [];
    assert FeedAll(q, "\"") == inside;
    FeedQuoted(inside, w);
    assert [] + w == w;
  }

  lemma {:induction false} OutAddsUp(out: seq<string>, q: Splitter, s: string)
    ensures FeedAll(q.(out := out + q.out), s) == FeedAll(q, s).(out := out + FeedAll(q, s).out)
    decreases |s|
  {
    hide IsSpace;
    if s != [] {
      var next := Feed(q, s[0]);
      assert (out + q.out) + [q.cur] == out + (q.out + [q.cur]);
      assert Feed(q.(out := out + q.out), s[0]) == next.(out := out + next.out);
      hide Feed;
      OutAddsUp(out, next, s[1..]);
    }
  }

  /** Plain words, each followed by a blank. */
  function WithBlanks(words: seq<string>): string {
    if words == [] then [] else words[0] + " " + WithBlanks(words[1..])
  }

  lemma {:induction false} PlainWordsRead(q: Splitter, words: seq<string>)
    requires Between(q)
    requires forall w :: w in words ==> PlainWord(w)
    ensures FeedAll(q, WithBlanks(words)) == Splitter(q.out + words, [], None)
    decreases |words|
  {
    hide PlainWord;
    if words == [] {
      assert q.out + words == q.out;
    } else {
      var w, next := words[0], Splitter(q.out + [words[0]], [], None);
      PlainWordRead(q, w);
      FeedConcat(q, w + " ", WithBlanks(words[1..]));
      PlainWordsRead(next, words[1..]);
      assert next.out + words[1..] == q.out + words;
    }
  }

  /** Whatever blanks the paths hold, the launch line splits into the launcher's
      words, the binary, the model, host and port, and then the words of the flags. */
  lemma LaunchWords(l: Launch)
    requires l.bin != "" && '"' !in l.bin && l.model != "" && '"' !in l.model
    requires IsWord(l.host) && '"' !in l.host && '\'' !in l.host
    ensures |ExecLine(l)| >= 10 && ExecLine(l)[..10] == "ExecStart="
    ensures SplitQuoted(ExecLine(l)[10..])
         == ["stdbuf", "-oL", "-eL", l.bin, "-m", l.model, "--host", l.host, "--port", Decimal(l.port)]
            + SplitQuoted(l.flags)
  {
    var head, tail := ["stdbuf", "-oL", "-eL"], ["--host", l.host, "--port", Decimal(l.port)];
    LaunchParts(l);
    LaunchIsPlain(l);
    hide *;
    CommandWords(head, l.bin, "-m", l.model, tail, l.flags);
    assert head + [l.bin, "-m", l.model] + tail
        == ["stdbuf", "-oL", "-eL", l.bin, "-m", l.model, "--host", l.host, "--port", Decimal(l.port)];
  }

  ghost predicate PlainWord(w: string) {
    IsWord(w) && '"' !in w && '\'' !in w
  }

  /** Plain words, then two quoted ones with a plain one between, then plain words. */
  lemma CommandWords(
    head: seq<string>, first: string, flag: string, second: string, tail: seq<string>, flags: string)
    requires (forall w :: w in head ==> PlainWord(w)) && PlainWord(flag) && forall w :: w in tail ==> PlainWord(w)
    requires first != "" && '"' !in first && second != "" && '"' !in second
    ensures SplitQuoted(WithBlanks(head) + ("\"" + first + "\"" + " " + (flag + " " + ("\"" + second + "\"" + " "
              + (WithBlanks(tail) + flags)))))
         == head + [first, flag, second] + tail + SplitQuoted(flags)
  {
    var t4 := WithBlanks(tail) + flags;
    var t3 := "\"" + second + "\"" + " " + t4;
    var t2 := flag + " " + t3;
    var t1 := "\"" + first + "\"" + " " + t2;
    var q1 := Splitter([] + head, [], None);
    var q2 := Splitter(q1.out + [first], [], None);
    var q3 := Splitter(q2.out + [flag], [], None);
    var q4 := Splitter(q3.out + [second], [], None);
    var q5 := Splitter(q4.out + tail, [], None);
    hide FeedAll, PlainWord, WithBlanks;
    PlainWordsRead(FRESH, head);
    FeedConcat(FRESH, WithBlanks(head), t1);
    QuotedWordRead(q1, first);
    FeedConcat(q1, "\"" + first + "\"" + " ", t2);
    PlainWordRead(q2, flag);
    FeedConcat(q2, flag + " ", t3);
    QuotedWordRead(q3, second);
    FeedConcat(q3, "\"" + second + "\"" + " ", t4);
    PlainWordsRead(q4, tail);
    FeedConcat(q4, WithBlanks(tail), flags);
    RestWords(q5, flags);
    hide SplitQuoted, Close;
    assert q5.out == head + [first, flag, second] + tail;
  }

  /** After finished words the rest splits as it would alone. */
  lemma RestWords(q: Splitter, s: string)
    requires Between(q)
    ensures Close(FeedAll(q, s)) == q.out + SplitQuoted(s)
  {
    hide FeedAll;
    OutAddsUp(q.out, FRESH, s);
    assert q.out + FRESH.out == q.out && FRESH.(out := q.out) == q;
    var end := FeedAll(FRESH, s);
    assert (q.out + end.out) + [end.cur] == q.out + (end.out + [end.cur]);
  }

  /** After its environment a drop-in sets the working directory, if the model has
      one, clears the launch command, and sets its own. */
  lemma LaunchLinesAre(l: Launch)
    requires SingleLine(l)
    ensures Lines(LaunchLines(l))
         == (if l.dir.Some? then [DropCr("WorkingDirectory=" + l.dir.value)] else [])
            + [DropCr("ExecStart="), DropCr(ExecLine(l))]
  {
    var dir := if l.dir.Some? then "WorkingDirectory=" + l.dir.value else "";
    WorkingIsOneLine(l);
    ServiceExec();
    hide *;
    ExecIsOneLine(l);
    LaunchText(l);
    HasNoBreak(ExecLine(l));
    TwoLines("ExecStart=", ExecLine(l));
    if l.dir.Some? { LinesCons(dir, "ExecStart=" + "\n" + (ExecLine(l) + "\n" + "")); }
  }

  lemma HasNoBreak(s: string)
    requires OneLine(s)
    ensures '\n' !in s
  {}

  lemma ServiceExec()
    ensures '\n' !in "ExecStart="
  {}

  lemma TwoLines(a: string, b: string)
    requires '\n' !in a && '\n' !in b
    ensures Lines(a + "\n" + (b + "\n" + "")) == [DropCr(a), DropCr(b)]
  {
    NoLines();
    hide Lines, DropCr;
    LinesCons(b, "");
    LinesCons(a, b + "\n" + "");
  }

  lemma NoLines()
    ensures Lines("") == []
  {}

  lemma WorkingIsOneLine(l: Launch)
    requires SingleLine(l)
    ensures l.dir.Some? ==> '\n' !in "WorkingDirectory=" + l.dir.value
  {
    assert OneLine("WorkingDirectory=");
  }

  lemma LaunchParts(l: Launch)
    ensures |ExecLine(l)| >= 10 && ExecLine(l)[..10] == "ExecStart="
    ensures ExecLine(l)[10..] ==
      WithBlanks(["stdbuf", "-oL", "-eL"]) + ("\"" + l.bin + "\"" + " " + ("-m" + " " + ("\"" + l.model + "\"" + " "
      + (WithBlanks(["--host", l.host, "--port", Decimal(l.port)]) + l.flags))))
  {
    hide *;
    FourWords("--host", l.host, "--port", Decimal(l.port));
    ThreeWords();
    LaunchPieces();
    ExecPieces(l);
    var port := Decimal(l.port);
    var cmd := Regrouped("stdbuf -oL -eL ", "\"", l.bin, "-m", l.model, "--host", l.host, "--port", port, l.flags);
    AfterStart(ExecLine(l), cmd);
  }

  lemma AfterStart(line: string, cmd: string)
    requires line == "ExecStart=" + cmd
    ensures |line| >= 10 && line[..10] == "ExecStart=" && line[10..] == cmd
  {}

  lemma LaunchPieces()
    ensures "ExecStart=stdbuf -oL -eL \"" == "ExecStart=" + ("stdbuf -oL -eL " + "\"")
    ensures "\" -m \"" == "\"" + " " + "-m" + " " + "\""
    ensures "\" --host " == "\"" + " " + "--host" + " "
    ensures " --port " == " " + "--port" + " "
  {}

  lemma ExecPieces(l: Launch)
    ensures ExecLine(l) == "ExecStart=" + (
      ("stdbuf -oL -eL " + "\"") + l.bin + ("\"" + " " + "-m" + " " + "\"") + l.model
      + ("\"" + " " + "--host" + " ") + l.host + (" " + "--port" + " ") + Decimal(l.port) + " " + l.flags)
  {
    LaunchPieces();
    hide Decimal;
    var a, b := "\"" + " " + "-m" + " " + "\"", "\"" + " " + "--host" + " ";
    var c, d := " " + "--port" + " ", "stdbuf -oL -eL " + "\"";
    assert ExecLine(l) == ("ExecStart=" + d) + l.bin + a + l.model + b + l.host + c + Decimal(l.port) + " " + l.flags;
    FromLeft("ExecStart=", d, l.bin, a, l.model, b, l.host, c, Decimal(l.port), " ", l.flags);
  }

  lemma FromLeft(s: string, a: string, b: string, c: string, d: string, e: string, f: string, g: string, h: string,
                 i: string, j: string)
    ensures (s + a) + b + c + d + e + f + g + h + i + j == s + (a + b + c + d + e + f + g + h + i + j)
  {}

  /** The same command with its parts put together from the left and from the right. */
  lemma Regrouped(a: string, q: string, b: string, c: string, d: string, e: string, f: string, g: string, h: string,
                  i: string)
    returns (cmd: string)
    ensures cmd == (a + q) + b + (q + " " + c + " " + q) + d + (q + " " + e + " ") + f + (" " + g + " ") + h + " " + i
    ensures cmd == a + (q + b + q + " " + (c + " " + (q + d + q + " " + ((e + " " + f + " " + g + " " + h + " ") + i))))
  {
    cmd := a + (q + b + q + " " + (c + " " + (q + d + q + " " + ((e + " " + f + " " + g + " " + h + " ") + i))));
  }

  lemma ThreeWords()
    ensures WithBlanks(["stdbuf", "-oL", "-eL"]) == "stdbuf -oL -eL "
  {
    FourWords("stdbuf", "-oL", "-eL", "");
    assert WithBlanks(["-eL"]) == "-eL" + " " + WithBlanks(["-eL"][1..]);
    assert ["stdbuf", "-oL", "-eL"][1..] == ["-oL", "-eL"] && ["-oL", "-eL"][1..] == ["-eL"];
    assert WithBlanks(["-oL", "-eL"]) == "-oL" + " " + WithBlanks(["-eL"]);
  }

  lemma FourWords(a: string, b: string, c: string, d: string)
    ensures WithBlanks([a, b, c, d]) == a + " " + b + " " + c + " " + d + " "
  {
    assert [a, b, c, d][1..] == [b, c, d] && [b, c, d][1..] == [c, d] && [c, d][1..] == [d] && [d][1..] == [];
    assert WithBlanks([d]) == d + " ";
    assert WithBlanks([c, d]) == c + " " + (d + " ");
    assert WithBlanks([b, c, d]) == b + " " + (c + " " + (d + " "));
  }

  lemma LaunchIsPlain(l: Launch)
    requires IsWord(l.host) && '"' !in l.host && '\'' !in l.host
    ensures forall w :: w in ["stdbuf", "-oL", "-eL"] ==> PlainWord(w)
    ensures PlainWord("-m")
    ensures forall w :: w in ["--host", l.host, "--port", Decimal(l.port)] ==> PlainWord(w)
  {
    DecimalValue(l.port);
  }

  // --- The loops ------------------------------------------------------------

  method SplitWords(s: string) returns (words: seq<string>)
    ensures words == SplitQuoted(s)
  {
    var q := FRESH;
    for i := 0 to |s|
      invariant SplitQuoted(s) == Close(FeedAll(q, s[i..]))
    {
      assert s[i..][1..] == s[i + 1..];
      q := Feed(q, s[i]);
    }
    return Close(q);
  }

  method ReadUnit(text: string) returns (env: Env)
    ensures env == ParseUnitEnv(text)
  {
    hide Insert, SplitQuoted, Trim, Lines;
    var lines := Lines(text);
    env := map[];
    var inService := false;
    for i := 0 to |lines|
      invariant ParseUnitEnv(text) == ReadLines(Reader(env, inService), lines[i..]).env
    {
      assert lines[i..][1..] == lines[i + 1..];
      var line := Trim(lines[i]);
      if StartsWith(line, "[") {
        inService := Lower(line) == "[service]";
      } else if inService && !StartsWith(line, "#") && !StartsWith(line, ";") && StartsWith(line, "Environment=") {
        var rest := Trim(line[12..]);
        if rest == [] {
          env := map[];
        } else {
          var toks := SplitWords(rest);
          env := InsertWords(env, toks);
        }
      }
    }
  }

  method InsertWords(start: Env, toks: seq<string>) returns (env: Env)
    ensures env == InsertAll(start, toks)
  {
    hide Insert;
    env := start;
    for i := 0 to |toks|
      invariant InsertAll(start, toks) == InsertAll(env, toks[i..])
    {
      assert toks[i..][1..] == toks[i + 1..];
      env := Insert(env, toks[i]);
    }
  }

  method Render(keys: seq<string>, env: Env, l: Launch) returns (s: string)
    requires forall i :: 0 <= i < |keys| ==> keys[i] in env
    ensures s == RenderDropin(keys, env, l)
  {
    hide Assignment, LaunchLines;
    s := HEADER + "\n" + "[Service]" + "\n" + "Environment=" + "\n";
    for i := 0 to |keys|
      invariant HEADER + "\n" + "[Service]" + "\n" + "Environment=" + "\n" + EnvLines(keys, env)
             == s + EnvLines(keys[i..], env)
    {
      assert keys[i..][1..] == keys[i + 1..];
      s := s + ("Environment=" + Assignment(keys[i], env[keys[i]]) + "\n");
    }
    assert s + [] == s;
    s := s + LaunchLines(l);
  }
}
