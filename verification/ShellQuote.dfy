/** Quoting of the remote command: what `sh_quote` writes, the remote shell reads
    back as the same arguments. */
module ShellQuote {
  import opened Text

  predicate IsSafe(c: char) {
    IsAlnum(c) || c in "_@%+=:,./-"
  }

  predicate AllSafe(s: string) {
    forall i :: 0 <= i < |s| ==> IsSafe(s[i])
  }

  /** Every single quote becomes: close, escaped quote, open. */
  function Escape(s: string): string {
    if s == [] then []
    else (if s[0] == '\'' then "'\\''" else [s[0]]) + Escape(s[1..])
  }

  function Quote(s: string): string {
    if s != [] && AllSafe(s) then s else "'" + Escape(s) + "'"
  }

  function QuoteAll(args: seq<string>): seq<string> {
    if args == [] then [] else [Quote(args[0])] + QuoteAll(args[1..])
  }

  const PREFIX := ["llmtune", "--json", "node"]

  /** The string ssh hands to the remote shell. */
  function RemoteCommand(args: seq<string>): string {
    Join(PREFIX + QuoteAll(args), " ")
  }

  // --- The remote shell's word splitting ------------------------------------

  /** The splitter's state: words done, the word being read and whether there is
      one, and whether inside single quotes. */
  datatype Splitter = Splitter(words: seq<string>, cur: string, has: bool, quoted: bool)

  function Finish(w: Splitter): seq<string> {
    if w.has then w.words + [w.cur] else w.words
  }

  function SplitFrom(w: Splitter, s: string): seq<string>
    decreases |s|
  {
    if s == [] then Finish(w)
    else if s[0] == '\\' && !w.quoted then
      if |s| == 1 then Finish(w)
      else SplitFrom(w.(cur := w.cur + [s[1]], has := true), s[2..])
    else if s[0] == '\'' then SplitFrom(w.(quoted := !w.quoted, has := true), s[1..])
    else if s[0] == ' ' && !w.quoted then
      SplitFrom(if w.has then w.(words := w.words + [w.cur], cur := [], has := false) else w, s[1..])
    else SplitFrom(w.(cur := w.cur + [s[0]], has := true), s[1..])
  }

  function ShellSplit(s: string): seq<string> {
    SplitFrom(Splitter([], [], false, false), s)
  }

  /** Blanks between words count once, and those before the first not at all. */
  lemma BlanksCountOnce(w: Splitter, s: string)
    requires !w.quoted
    ensures SplitFrom(w, "  " + s) == SplitFrom(w, " " + s)
    ensures ShellSplit(" " + s) == ShellSplit(s)
  {
    assert ("  " + s)[1..] == " " + s && (" " + s)[1..] == s;
  }

  /** An escaped character, whichever it is, is a word; a lone backslash is none. */
  lemma EscapedAlone(c: char)
    ensures ShellSplit(['\\', c]) == [[c]] && ShellSplit("\\") == []
  {
    var w: Splitter := Splitter([], [], false, false);
    var x := w.(cur := w.cur + [c], has := true);
    assert ['\\', c][2..] == [] && w.cur + [c] == [c] && x.words + [x.cur] == [[c]];
    assert SplitFrom(x, []) == Finish(x);
  }

  lemma {:induction false} SafeReads(w: Splitter, s: string, tail: string)
    requires AllSafe(s) && !w.quoted
    ensures SplitFrom(w, s + tail) == SplitFrom(w.(cur := w.cur + s, has := w.has || s != []), tail)
    decreases |s|
  {
    if s == [] {
      assert s + tail == tail && w.cur + s == w.cur;
    } else {
      assert IsSafe(s[0]);
      assert (s + tail)[1..] == s[1..] + tail;
      assert (w.cur + [s[0]]) + s[1..] == w.cur + s;
      SafeReads(w.(cur := w.cur + [s[0]], has := true), s[1..], tail);
    }
  }

  lemma {:induction false} EscapedReads(w: Splitter, s: string, tail: string)
    requires w.quoted && w.has
    ensures SplitFrom(w, Escape(s) + "'" + tail) == SplitFrom(w.(cur := w.cur + s, quoted := false), tail)
    decreases |s|
  {
    var text := Escape(s) + "'" + tail;
    if s == [] {
      assert text == "'" + tail && text[1..] == tail && w.cur + s == w.cur;
    } else {
      var rest := Escape(s[1..]) + "'" + tail;
      assert (w.cur + [s[0]]) + s[1..] == w.cur + s;
      EscapedReads(w.(cur := w.cur + [s[0]]), s[1..], tail);
      EscapedHead(s, tail);
      hide Escape;
      if s[0] == '\'' {
        QuoteReads(w, rest);
      } else {
        assert text[1..] == rest;
      }
    }
  }

  /** What an escaped text starts with. */
  lemma EscapedHead(s: string, tail: string)
    requires s != []
    ensures Escape(s) + "'" + tail
         == (if s[0] == '\'' then "'\\''" else [s[0]]) + (Escape(s[1..]) + "'" + tail)
  {}

  lemma QuoteReads(w: Splitter, rest: string)
    requires w.quoted && w.has
    ensures SplitFrom(w, "'\\''" + rest) == SplitFrom(w.(cur := w.cur + ['\'']), rest)
  {
    var t0, t1, t2 := "'\\''" + rest, "\\''" + rest, "'" + rest;
    assert t0[1..] == t1 && t1[2..] == t2 && t2[1..] == rest;
    var w1 := w.(quoted := false, has := true);
    var w2 := w1.(cur := w.cur + ['\'']);
    assert SplitFrom(w, t0) == SplitFrom(w1, t1);
    assert SplitFrom(w1, t1) == SplitFrom(w2, t2);
  }

  /** Between words, one quoted argument is read as exactly that argument. */
  lemma QuotedReads(w: Splitter, arg: string, tail: string)
    requires w.cur == [] && !w.has && !w.quoted
    ensures SplitFrom(w, Quote(arg) + tail) == SplitFrom(w.(cur := arg, has := true), tail)
  {
    assert [] + arg == arg;
    if arg != [] && AllSafe(arg) {
      SafeReads(w, arg, tail);
    } else {
      var text := Escape(arg) + "'" + tail;
      assert Quote(arg) + tail == "'" + text;
      assert ("'" + text)[1..] == text;
      EscapedReads(w.(quoted := true, has := true), arg, tail);
    }
  }

  lemma {:induction false} QuotedListReads(w: Splitter, args: seq<string>)
    requires w.cur == [] && !w.has && !w.quoted
    ensures SplitFrom(w, Join(QuoteAll(args), " ")) == w.words + args
    decreases |args|
  {
    hide Quote;
    if args != [] {
      var q, rest := QuoteAll(args), Join(QuoteAll(args[1..]), " ");
      QuotedReads(w, args[0], if |args| == 1 then [] else " " + rest);
      assert q[0] + [] == q[0] && q[1..] == QuoteAll(args[1..]);
      if |args| > 1 {
        assert Join(q, " ") == q[0] + (" " + rest);
        var next := w.(words := w.words + [args[0]]);
        assert (" " + rest)[1..] == rest;
        QuotedListReads(next, args[1..]);
        assert next.words + args[1..] == w.words + args;
      } else {
        assert args == [args[0]];
      }
    }
  }

  lemma {:induction false} SafePrefix(prefix: seq<string>, args: seq<string>)
    requires forall i :: 0 <= i < |prefix| ==> prefix[i] != [] && AllSafe(prefix[i])
    ensures QuoteAll(prefix + args) == prefix + QuoteAll(args)
    decreases |prefix|
  {
    if prefix == [] {
      assert prefix + args == args;
    } else {
      assert (prefix + args)[1..] == prefix[1..] + args;
      SafePrefix(prefix[1..], args);
    }
  }

  /** Whatever the arguments contain, the remote shell splits the command string
      back into the command words and exactly those arguments. */
  lemma RemoteArgsRoundTrip(args: seq<string>)
    ensures ShellSplit(RemoteCommand(args)) == ["llmtune", "--json", "node"] + args
  {
    SafePrefix(PREFIX, args);
    hide QuoteAll, Join, SplitFrom;
    QuotedListReads(Splitter([], [], false, false), PREFIX + args);
  }

  ghost predicate PlainToken(s: string) {
    s != "" && forall i :: 0 <= i < |s| ==>
      'a' <= s[i] <= 'z' || 'A' <= s[i] <= 'Z' || '0' <= s[i] <= '9' || s[i] == '_' || s[i] == '@' || s[i] == '%'
      || s[i] == '+' || s[i] == '=' || s[i] == ':' || s[i] == ',' || s[i] == '.' || s[i] == '/' || s[i] == '-'
  }

  /** An argument is passed as it is exactly when it is a plain token. */
  lemma PlainExactly(s: string)
    ensures Quote(s) == s <==> PlainToken(s)
  {
    assert PlainToken(s) <==> s != [] && AllSafe(s);
    EscapeGrows(s);
  }

  lemma {:induction false} EscapeGrows(s: string)
    ensures |Escape(s)| >= |s|
  {
    if s != [] { EscapeGrows(s[1..]); }
  }

  // --- Nothing for the shell to expand --------------------------------------

  /** Outside single quotes there are only blanks, safe characters and escaped
      quotes, and every quote is closed: no expansion, no operator. */
  predicate Inert(s: string, quoted: bool)
    decreases |s|
  {
    if s == [] then !quoted
    else if s[0] == '\'' then Inert(s[1..], !quoted)
    else if quoted || IsSafe(s[0]) || s[0] == ' ' then Inert(s[1..], quoted)
    else s[0] == '\\' && |s| > 1 && s[1] == '\'' && Inert(s[2..], false)
  }

  lemma {:induction false} SafeIsInert(s: string, tail: string)
    requires AllSafe(s) && Inert(tail, false)
    ensures Inert(s + tail, false)
  {
    if s == [] {
      assert s + tail == tail;
    } else {
      assert (s + tail)[1..] == s[1..] + tail;
      SafeIsInert(s[1..], tail);
    }
  }

  lemma {:induction false} EscapedIsInert(s: string, tail: string)
    requires Inert(tail, false)
    ensures Inert(Escape(s) + "'" + tail, true)
  {
    var text := Escape(s) + "'" + tail;
    if s == [] {
      assert text[1..] == tail;
    } else {
      var rest := Escape(s[1..]) + "'" + tail;
      EscapedIsInert(s[1..], tail);
      EscapedHead(s, tail);
      hide Escape, IsSafe;
      if s[0] == '\'' {
        var t1, t2 := "\\''" + rest, "'" + rest;
        assert text[1..] == t1 && t1[2..] == t2 && t2[1..] == rest;
        assert Inert(t2, false) && Inert(t1, false);
      } else {
        assert text[1..] == rest;
      }
    }
  }

  lemma QuotedIsInert(arg: string, tail: string)
    requires Inert(tail, false)
    ensures Inert(Quote(arg) + tail, false)
  {
    if arg != [] && AllSafe(arg) {
      SafeIsInert(arg, tail);
      hide Inert, AllSafe;
    } else {
      assert Quote(arg) == "'" + Escape(arg) + "'" by { hide AllSafe, Escape; }
      hide *;
      EscapedIsInert(arg, tail);
      QuoteOpens(Escape(arg) + "'" + tail);
      Bracketed(Escape(arg), tail);
    }
  }

  lemma Bracketed(a: string, b: string)
    ensures "'" + (a + "'" + b) == "'" + a + "'" + b
  {}

  lemma QuoteOpens(text: string)
    ensures Inert("'" + text, false) == Inert(text, true)
  {
    assert ("'" + text)[1..] == text;
  }

  lemma {:induction false} QuotedListIsInert(args: seq<string>)
    ensures Inert(Join(QuoteAll(args), " "), false)
  {
    hide Quote, IsSafe;
    if args != [] {
      var q, rest := QuoteAll(args), Join(QuoteAll(args[1..]), " ");
      QuotedListIsInert(args[1..]);
      assert q[1..] == QuoteAll(args[1..]);
      if |args| == 1 {
        assert Join(q, " ") == q[0] + [];
        QuotedIsInert(args[0], []);
      } else {
        assert (" " + rest)[1..] == rest;
        assert Join(q, " ") == q[0] + (" " + rest);
        QuotedIsInert(args[0], " " + rest);
      }
    }
  }

  /** The remote command holds nothing the shell would expand or act on. */
  lemma RemoteCommandIsInert(args: seq<string>)
    ensures Inert(RemoteCommand(args), false)
  {
    SafePrefix(PREFIX, args);
    hide QuoteAll, Join, Inert;
    QuotedListIsInert(PREFIX + args);
  }

  // --- The loops ------------------------------------------------------------

  method BuildRemoteCommand(args: seq<string>) returns (words: seq<string>)
    ensures Join(words, " ") == RemoteCommand(args)
  {
    words := PREFIX;
    var i := 0;
    while i < |args|
      invariant 0 <= i <= |args|
      invariant PREFIX + QuoteAll(args) == words + QuoteAll(args[i..])
    {
      assert args[i..][0] == args[i] && args[i..][1..] == args[i + 1..];
      words := words + [Quote(args[i])];
      i := i + 1;
    }
    assert words + [] == words;
  }

  method RemoteShellSplit(s: string) returns (words: seq<string>)
    ensures words == ShellSplit(s)
  {
    var w := Splitter([], [], false, false);
    var i := 0;
    while i < |s|
      invariant 0 <= i <= |s|
      invariant ShellSplit(s) == SplitFrom(w, s[i..])
    {
      var c := s[i];
      assert s[i..][0] == c && s[i..][1..] == s[i + 1..];
      if c == '\\' && !w.quoted {
        i := i + 1;
        if i < |s| {
          assert s[i - 1..][2..] == s[i + 1..];
          w := w.(cur := w.cur + [s[i]], has := true);
        } else {
          return Finish(w);
        }
      } else if c == '\'' {
        w := w.(quoted := !w.quoted, has := true);
      } else if c == ' ' && !w.quoted {
        if w.has { w := w.(words := w.words + [w.cur], cur := [], has := false); }
      } else {
        w := w.(cur := w.cur + [c], has := true);
      }
      i := i + 1;
    }
    return Finish(w);
  }
}
