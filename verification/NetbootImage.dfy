/** The netboot image store: an `init=` path is only ever served with the kernel
    and initrd it was built with. Hashing is an arbitrary function. */
module NetbootImage {
  import opened Text

  datatype Result<+T> = Ok(value: T) | Err

  // --- Extraction -----------------------------------------------------------

  /** The text after the first white space character. */
  function AfterSpace(s: string): string {
    if s == [] then [] else if IsSpace(s[0]) then s[1..] else AfterSpace(s[1..])
  }

  function ArgsOf(lines: seq<string>): (r: Result<string>)
    ensures r.Ok? ==> r.value != [] && Trimmed(r.value)
  {
    if lines == [] then Err
    else
      var line := Trim(lines[0]);
      if StartsWith(line, "kernel ") then
        var args := Trim(AfterSpace(Trim(line[7..])));
        if args == [] then Err else Ok(args)
      else ArgsOf(lines[1..])
  }

  function ExtractKernelArgs(ipxe: string): Result<string> {
    ArgsOf(Lines(ipxe))
  }

  predicate IsStoreInit(v: string) {
    StartsWith(v, "/nix/store/") && EndsWith(v, "/init")
  }

  function InitOf(toks: seq<string>): (r: Result<string>)
    ensures r.Ok? ==> IsStoreInit(r.value) && "init=" + r.value in toks
  {
    if toks == [] then Err
    else if StartsWith(toks[0], "init=") then
      var v := toks[0][5..];
      assert toks[0] == "init=" + v;
      if IsStoreInit(v) then Ok(v) else Err
    else InitOf(toks[1..])
  }

  function ExtractInit(args: string): Result<string> {
    InitOf(Words(args))
  }

  /** The first `init=` word decides, and only a store path will do. */
  ghost predicate InitAt(toks: seq<string>, v: string, i: nat) {
    && i < |toks| && toks[i] == "init=" + v
    && (forall j :: 0 <= j < i ==> !StartsWith(toks[j], "init="))
    && StartsWith(v, "/nix/store/") && EndsWith(v, "/init")
  }

  lemma {:induction false} InitOfExact(toks: seq<string>, v: string)
    ensures InitOf(toks) == Ok(v) <==> exists i: nat :: InitAt(toks, v, i)
  {
    if toks != [] {
      InitHead(toks[0], v);
      hide StartsWith, EndsWith;
      if StartsWith(toks[0], "init=") {
        if i: nat :| InitAt(toks, v, i) { assert i == 0; }
        if toks[0] == "init=" + v && IsStoreInit(v) { assert InitAt(toks, v, 0); }
      } else {
        InitOfExact(toks[1..], v);
        if i: nat :| InitAt(toks[1..], v, i) {
          assert forall j :: 0 < j < i + 1 ==> toks[j] == toks[1..][j - 1];
          assert InitAt(toks, v, i + 1);
        }
        if i: nat :| InitAt(toks, v, i) {
          assert i > 0 && forall j :: 0 <= j < i - 1 ==> toks[1..][j] == toks[j + 1];
          assert InitAt(toks[1..], v, i - 1);
        }
      }
    }
  }

  lemma InitHead(tok: string, v: string)
    ensures tok == "init=" + v <==> StartsWith(tok, "init=") && tok[5..] == v
  {
    if StartsWith(tok, "init=") { assert tok == "init=" + tok[5..]; }
    if tok == "init=" + v { assert tok[..5] == "init="; }
  }

  /** The `init=` of an argument string is that of its first `init=` word, if that is
      a store path; otherwise there is none. */
  lemma InitExact(args: string, v: string)
    ensures ExtractInit(args) == Ok(v) <==> exists i: nat :: InitAt(Words(args), v, i)
  {
    hide *;
    InitOfExact(Words(args), v);
    FirstOf(args);
  }

  lemma FirstOf(args: string)
    ensures ExtractInit(args) == InitOf(Words(args))
  {}

  /** The kernel arguments are those of the first kernel line, after its image word;
      without such a line, or without arguments on it, there are none. */
  lemma {:induction false} ArgsExact(skipped: seq<string>, line: string, rest: seq<string>)
    requires forall i :: 0 <= i < |skipped| ==> !StartsWith(Trim(skipped[i]), "kernel ")
    requires StartsWith(Trim(line), "kernel ")
    ensures var args := Trim(AfterSpace(Trim(Trim(line)[7..])));
      ArgsOf(skipped + [line] + rest) == if args == "" then Err else Ok(args)
    ensures ArgsOf(skipped) == Err
    decreases |skipped|
  {
    var lines := skipped + [line] + rest;
    hide Trim, AfterSpace, StartsWith;
    KernelIsLong(Trim(line));
    if skipped != [] {
      assert lines[1..] == skipped[1..] + [line] + rest && lines[0] == skipped[0];
      ArgsExact(skipped[1..], line, rest);
    } else {
      assert lines[0] == line;
    }
  }

  // --- Manifests and the store ----------------------------------------------

  const VERSION: nat := 1
  const KERNEL_FILE := "vmlinuz"
  const INITRD_FILE := "initrd"

  datatype Artifact = Artifact(file: string, sha256: string)
  datatype Manifest = Manifest(
    version: nat, id: string, init: string, cmdline: string, kernel: Artifact, initrd: Artifact)

  /** The manifest file of an image directory: absent, not loading, or a manifest. */
  datatype ManifestFile = Absent | Unreadable | Holds(value: Manifest)

  /** An image directory: its manifest file and its artifact files. */
  datatype Image = Image(manifest: ManifestFile, files: map<string, string>)

  /** The images root: the image directories and the text of the active pointer. */
  datatype Store = Store(images: map<string, Image>, active: Option<string>)

  type Hash = string -> string

  predicate Matches(image: Image, a: Artifact, hash: Hash) {
    a.file in image.files && hash(image.files[a.file]) == a.sha256
  }

  predicate Verified(image: Image, m: Manifest, hash: Hash) {
    && m.version == VERSION && IsStoreInit(m.init) && "init=" + m.init in Words(m.cmdline)
    && Matches(image, m.initrd, hash) && Matches(image, m.kernel, hash)
  }

  predicate ValidId(id: string) {
    id != [] && id[0] != '.' && forall i :: 0 <= i < |id| ==> IsAlnum(id[i]) || id[i] in "-_."
  }

  /** Load an image's manifest and verify it against the files. */
  function LoadVerified(s: Store, id: string, hash: Hash): Result<Manifest> {
    if !ValidId(id) || id !in s.images || !s.images[id].manifest.Holds? then Err
    else
      var m := s.images[id].manifest.value;
      if Verified(s.images[id], m, hash) then Ok(m) else Err
  }

  function StageImage(s: Store, id: string, hash: Hash, written: bool): (Store, Result<Manifest>) {
    var r := LoadVerified(s, id, hash);
    if r.Ok? && written then (s.(active := Some(id + "\n")), r) else (s, Err)
  }

  function ActiveId(s: Store): Option<string> {
    if s.active.None? || Trim(s.active.value) == [] then None else Some(Trim(s.active.value))
  }

  /** `Ok(None)` when nothing is staged. */
  function LoadActive(s: Store, hash: Hash): Result<Option<Manifest>> {
    match ActiveId(s)
    case None => Ok(None)
    case Some(id) =>
      var r := LoadVerified(s, id, hash);
      if r.Ok? then Ok(Some(r.value)) else Err
  }

  function Prefix12(s: string): string {
    if |s| < 12 then s else s[..12]
  }

  function IdComment(id: string): string {
    "# AUTO-GENERATED by llmtune from image " + id + " - init= is co-built with the"
  }

  function ShaComment(sha: string): string {
    "# served initrd (verified sha256 " + sha + "). Do not edit by hand."
  }

  function BootScript(m: Manifest, base: string): string {
    "#!ipxe" + "\n"
    + (IdComment(m.id) + "\n"
    + (ShaComment(Prefix12(m.initrd.sha256)) + "\n"
    + ("kernel " + (base + "/" + KERNEL_FILE) + " " + m.cmdline + "\n"
    + ("initrd " + base + "/" + INITRD_FILE + "\n" + "boot\n"))))
  }

  /** One co-build: the boot script and the two artifacts of one invocation. */
  datatype Build = Build(ipxe: string, kernel: string, initrd: string)

  function ManifestOf(id: string, b: Build, hash: Hash): Result<Manifest> {
    match ExtractKernelArgs(b.ipxe)
    case Err => Err
    case Ok(args) =>
      match ExtractInit(args)
      case Err => Err
      case Ok(init) =>
        Ok(Manifest(VERSION, id, init, args,
                    Artifact(KERNEL_FILE, hash(b.kernel)), Artifact(INITRD_FILE, hash(b.initrd))))
  }

  /** Seal a build under `id`; an identical one already there is reused. */
  function Seal(s: Store, id: string, b: Build, hash: Hash): (Store, Result<Manifest>) {
    var r := ManifestOf(id, b, hash);
    if r.Err? then (s, Err)
    else if id in s.images && s.images[id].manifest.Unreadable? then (s, Err)
    else if id in s.images && s.images[id].manifest.Holds? then
      var prev := s.images[id].manifest.value;
      (s, if prev.initrd.sha256 == r.value.initrd.sha256 && prev.kernel.sha256 == r.value.kernel.sha256
          then Ok(prev) else Err)
    else
      var files := if id in s.images then s.images[id].files else map[];
      var image := Image(Holds(r.value), files[KERNEL_FILE := b.kernel][INITRD_FILE := b.initrd]);
      (s.(images := s.images[id := image]), if Verified(image, r.value, hash) then r else Err)
  }

  /** What is sealed: the command line and `init=` of the build's own script, and the
      build's two artifacts, recorded under their names with their hashes. */
  lemma SealRecords(s: Store, id: string, b: Build, hash: Hash)
    requires id in s.images ==> s.images[id].manifest.Absent?
    ensures var (t, r) := Seal(s, id, b, hash);
      match r
      case Err => t == s
      case Ok(m) =>
        && m.version == 1 && m.id == id
        && ExtractKernelArgs(b.ipxe) == Ok(m.cmdline) && ExtractInit(m.cmdline) == Ok(m.init)
        && m.kernel == Artifact("vmlinuz", hash(b.kernel)) && m.initrd == Artifact("initrd", hash(b.initrd))
        && id in t.images && t.images[id].manifest == Holds(m)
        && "vmlinuz" in t.images[id].files && t.images[id].files["vmlinuz"] == b.kernel
        && "initrd" in t.images[id].files && t.images[id].files["initrd"] == b.initrd
  {
    if ManifestOf(id, b, hash).Ok? {
      SealedVerifies(s, id, b, hash);
      NewImage(s, id, b, hash);
      ManifestIsOf(id, b, hash);
    } else {
      hide *;
      NothingSealed(s, id, b, hash);
    }
    hide *;
  }

  lemma NothingSealed(s: Store, id: string, b: Build, hash: Hash)
    requires ManifestOf(id, b, hash).Err?
    ensures Seal(s, id, b, hash) == (s, Err)
  {
    hide ManifestOf;
  }

  lemma ManifestIsOf(id: string, b: Build, hash: Hash)
    requires ManifestOf(id, b, hash).Ok?
    ensures var m := ManifestOf(id, b, hash).value;
      && m.version == 1 && m.id == id
      && ExtractKernelArgs(b.ipxe) == Ok(m.cmdline) && ExtractInit(m.cmdline) == Ok(m.init)
      && m.kernel == Artifact("vmlinuz", hash(b.kernel)) && m.initrd == Artifact("initrd", hash(b.initrd))
  {
    hide ExtractKernelArgs, ExtractInit;
  }

  lemma NewImage(s: Store, id: string, b: Build, hash: Hash)
    requires ManifestOf(id, b, hash).Ok? && (id in s.images ==> s.images[id].manifest.Absent?)
    ensures var t := Seal(s, id, b, hash).0;
      && id in t.images && t.images[id].manifest == Holds(ManifestOf(id, b, hash).value)
      && "vmlinuz" in t.images[id].files && t.images[id].files["vmlinuz"] == b.kernel
      && "initrd" in t.images[id].files && t.images[id].files["initrd"] == b.initrd
  {
    assert "vmlinuz"[0] != "initrd"[0];
    hide ManifestOf, Verified;
  }

  /** A freshly sealed image always passes its own verification. */
  lemma SealedVerifies(s: Store, id: string, b: Build, hash: Hash)
    requires ManifestOf(id, b, hash).Ok? && (id in s.images ==> s.images[id].manifest.Absent?)
    ensures var (t, r) := Seal(s, id, b, hash);
      r == ManifestOf(id, b, hash) && id in t.images && Verified(t.images[id], r.value, hash)
  {
    var m := ManifestOf(id, b, hash).value;
    var files := if id in s.images then s.images[id].files else map[];
    var image := Image(Holds(m), files[KERNEL_FILE := b.kernel][INITRD_FILE := b.initrd]);
    ManifestIsSound(id, b, hash);
    BothFilesMatch(m, files, b, hash);
    hide Words, ManifestOf, IsStoreInit, Matches;
    assert Verified(image, m, hash);
    assert Seal(s, id, b, hash).0.images[id] == image;
  }

  lemma ManifestIsSound(id: string, b: Build, hash: Hash)
    requires ManifestOf(id, b, hash).Ok?
    ensures var m := ManifestOf(id, b, hash).value;
      && m.version == VERSION && IsStoreInit(m.init) && "init=" + m.init in Words(m.cmdline)
      && m.kernel == Artifact(KERNEL_FILE, hash(b.kernel)) && m.initrd == Artifact(INITRD_FILE, hash(b.initrd))
  {
    hide Words, ExtractKernelArgs, IsStoreInit, InitOf;
  }

  lemma BothFilesMatch(m: Manifest, files: map<string, string>, b: Build, hash: Hash)
    requires m.kernel == Artifact(KERNEL_FILE, hash(b.kernel)) && m.initrd == Artifact(INITRD_FILE, hash(b.initrd))
    ensures var image := Image(Holds(m), files[KERNEL_FILE := b.kernel][INITRD_FILE := b.initrd]);
      Matches(image, m.kernel, hash) && Matches(image, m.initrd, hash)
  {
    assert KERNEL_FILE[0] != INITRD_FILE[0];
  }

  // --- The boot script reads back -------------------------------------------

  /** A line that is not the kernel line is passed over. */
  lemma SkipLine(line: string, rest: string)
    requires OneLine(line) && line != [] && line[0] == '#'
    ensures ExtractKernelArgs(line + "\n" + rest) == ExtractKernelArgs(rest)
  {
    LinesCons(line, rest);
    CommentLine(line);
    var lines := Lines(line + "\n" + rest);
    assert lines[0] == DropCr(line) && lines[1..] == Lines(rest);
    hide Lines, Trim, StartsWith, AfterSpace;
  }

  lemma CommentLine(line: string)
    requires line != [] && line[0] == '#'
    ensures !StartsWith(Trim(DropCr(line)), "kernel ")
  {
    assert !IsSpace('#');
    hide IsSpace;
    var l := DropCr(line);
    assert l[0] == '#';
    TrimKeepsStart(l);
    var t := Trim(l);
    assert t[0] == '#';
    NotPrefix(t, "kernel ", 0);
  }

  lemma {:induction false} AfterSpaceAt(word: string, rest: string)
    requires NoSpace(word)
    ensures AfterSpace(word + " " + rest) == rest
  {
    BlankIsSpace();
    hide IsSpace;
    var s := word + " " + rest;
    if word == [] {
      assert s[1..] == rest;
    } else {
      assert s[1..] == word[1..] + " " + rest;
      AfterSpaceAt(word[1..], rest);
    }
  }

  /** The kernel line of a served script gives back its arguments. */
  lemma ReadKernelLine(url: string, args: string, rest: string)
    requires url != [] && NoSpace(url) && OneLine(url)
    requires args != [] && Trimmed(args) && OneLine(args)
    ensures ExtractKernelArgs("kernel " + url + " " + args + "\n" + rest) == Ok(args)
  {
    assert OneLine("kernel ") && OneLine(" ") && !IsSpace('k');
    hide IsSpace;
    var tail := url + " " + args;
    var line := "kernel " + tail;
    assert "kernel " + url + " " + args == line;
    TrimsToItself("kernel ", url + " ", args);
    assert "kernel " + (url + " ") + args == line;
    TrimsToItself(url, " ", args);
    AfterSpaceAt(url, args);
    LinesCons(line, rest);
    hide Lines, Trim, AfterSpace, DropCr;
    KernelLine(line, tail, args, Lines(rest));
  }

  lemma KernelLine(line: string, tail: string, args: string, rest: seq<string>)
    requires line == "kernel " + tail && Trim(line) == line && Trim(tail) == tail && Trim(args) == args
    requires AfterSpace(tail) == args && args != []
    ensures ArgsOf([line] + rest) == Ok(args)
  {
    hide Trim, AfterSpace;
    assert line[..7] == "kernel " && line[7..] == tail;
  }

  /** A command line that fits one line of a script as it is. */
  ghost predicate FitsLine(cmdline: string) {
    cmdline != [] && Trimmed(cmdline) && OneLine(cmdline)
  }

  /** A manifest whose command line could be written in a script of one. */
  ghost predicate Writable(m: Manifest) {
    FitsLine(m.cmdline) && OneLine(m.id) && OneLine(m.initrd.sha256)
  }

  /** The script served for a manifest reads back as its command line exactly when
      that is one non-empty line without blanks around it. */
  lemma ScriptCarriesCmdline(m: Manifest, base: string)
    requires OneLine(m.id) && OneLine(m.initrd.sha256) && NoSpace(base)
    ensures ExtractKernelArgs(BootScript(m, base)) == Ok(m.cmdline) <==> FitsLine(m.cmdline)
  {
    var script := BootScript(m, base);
    if FitsLine(m.cmdline) { ScriptReadsBack(m, base); }
    hide BootScript, Lines, ArgsOf;
    ArgsAreOneLine(Lines(script));
  }

  /** The script served for a manifest, line by line: two comments that name the image
      and the first twelve digits of the hash, then the kernel and the initrd under the
      base address, and the command to boot them. */
  lemma ScriptLines(m: Manifest, base: string)
    requires Writable(m) && NoSpace(base)
    ensures var sha := m.initrd.sha256;
      Lines(BootScript(m, base))
      == ["#!ipxe", "# AUTO-GENERATED by llmtune from image " + m.id + " - init= is co-built with the",
          "# served initrd (verified sha256 " + (if |sha| > 12 then sha[..12] else sha) + "). Do not edit by hand.",
          "kernel " + base + "/vmlinuz " + m.cmdline, "initrd " + base + "/initrd", "boot"]
  {
    CommentsSay(m.id, m.initrd.sha256);
    hide *;
    ScriptSplits(m, base);
  }

  lemma CommentsSay(id: string, sha: string)
    ensures IdComment(id) == "# AUTO-GENERATED by llmtune from image " + id + " - init= is co-built with the"
    ensures ShaComment(Prefix12(sha)) == "# served initrd (verified sha256 "
                                       + (if |sha| > 12 then sha[..12] else sha) + "). Do not edit by hand."
  {}

  lemma ScriptSplits(m: Manifest, base: string)
    requires Writable(m) && NoSpace(base)
    ensures Lines(BootScript(m, base))
         == ["#!ipxe", IdComment(m.id), ShaComment(Prefix12(m.initrd.sha256)),
             "kernel " + base + "/vmlinuz " + m.cmdline, "initrd " + base + "/initrd", "boot"]
  {
    Prefix12IsOneLine(m.initrd.sha256);
    ScriptText(m, base);
    ScriptLineEnds(m, base);
    CommentEnds(m.id, Prefix12(m.initrd.sha256));
    var kernel, initrd := "kernel " + base + "/vmlinuz " + m.cmdline, "initrd " + base + "/initrd";
    hide *;
    SixLines("#!ipxe", IdComment(m.id), ShaComment(Prefix12(m.initrd.sha256)), kernel, initrd, "boot");
  }

  lemma Prefix12IsOneLine(s: string)
    requires OneLine(s)
    ensures OneLine(Prefix12(s))
  {}

  lemma ScriptText(m: Manifest, base: string)
    ensures BootScript(m, base) ==
      "#!ipxe" + "\n" + (IdComment(m.id) + "\n" + (ShaComment(Prefix12(m.initrd.sha256)) + "\n"
      + ("kernel " + base + "/vmlinuz " + m.cmdline + "\n"
      + ("initrd " + base + "/initrd" + "\n" + ("boot" + "\n" + "")))))
  {
    assert "/vmlinuz " == "/" + KERNEL_FILE + " " && "/initrd" == "/" + INITRD_FILE && "boot\n" == "boot" + "\n" + "";
    hide IdComment, ShaComment;
    assert "kernel " + (base + "/" + KERNEL_FILE) + " " + m.cmdline == "kernel " + base + "/vmlinuz " + m.cmdline;
    assert "initrd " + base + "/" + INITRD_FILE == "initrd " + base + "/initrd";
  }

  ghost predicate WholeLine(s: string) {
    '\n' !in s && DropCr(s) == s
  }

  /** Lines, each with its line end. */
  function Ended(lines: seq<string>): string {
    if lines == [] then "" else lines[0] + "\n" + Ended(lines[1..])
  }

  lemma {:induction false} LinesOfEnded(lines: seq<string>)
    requires forall i :: 0 <= i < |lines| ==> WholeLine(lines[i])
    ensures Lines(Ended(lines)) == lines
  {
    if lines == [] {
      assert Lines("") == [];
    } else {
      hide Lines, DropCr;
      LinesOfEnded(lines[1..]);
      LinesCons(lines[0], Ended(lines[1..]));
    }
  }

  lemma SixLines(a: string, b: string, c: string, d: string, e: string, f: string)
    requires WholeLine(a) && WholeLine(b) && WholeLine(c) && WholeLine(d) && WholeLine(e) && WholeLine(f)
    ensures Lines(a + "\n" + (b + "\n" + (c + "\n" + (d + "\n" + (e + "\n" + (f + "\n" + "")))))) == [a, b, c, d, e, f]
  {
    hide WholeLine, Lines;
    LinesOfEnded([a, b, c, d, e, f]);
    ThreeEnded(a, b, c, [d, e, f]);
    ThreeEnded(d, e, f, []);
    assert [a, b, c] + [d, e, f] == [a, b, c, d, e, f] && [d, e, f] + [] == [d, e, f];
  }

  lemma ThreeEnded(a: string, b: string, c: string, rest: seq<string>)
    ensures Ended([a, b, c] + rest) == a + "\n" + (b + "\n" + (c + "\n" + Ended(rest)))
  {
    var abc := [a, b, c] + rest;
    assert abc[1..] == [b, c] + rest && ([b, c] + rest)[1..] == [c] + rest && ([c] + rest)[1..] == rest;
    assert Ended([c] + rest) == c + "\n" + Ended(rest);
    assert Ended([b, c] + rest) == b + "\n" + Ended([c] + rest);
  }

  lemma ScriptLineEnds(m: Manifest, base: string)
    requires Writable(m) && NoSpace(base)
    ensures WholeLine("#!ipxe") && WholeLine("boot")
    ensures WholeLine("kernel " + base + "/vmlinuz " + m.cmdline) && WholeLine("initrd " + base + "/initrd")
  {
    CrIsSpace();
    BreakIsSpace();
    hide IsSpace;
    var kernel, initrd := "kernel " + base + "/vmlinuz " + m.cmdline, "initrd " + base + "/initrd";
    assert kernel[|kernel| - 1] == m.cmdline[|m.cmdline| - 1];
    assert initrd[|initrd| - 1] == "/initrd"[6];
    assert OneLine("kernel ") && OneLine("/vmlinuz ") && OneLine("initrd ") && OneLine("/initrd") && OneLine(base);
    hide OneLine, NoSpace;
    OneLineConcat("kernel ", base);
    OneLineConcat("kernel " + base, "/vmlinuz ");
    OneLineConcat("kernel " + base + "/vmlinuz ", m.cmdline);
    OneLineConcat("initrd ", base);
    OneLineConcat("initrd " + base, "/initrd");
    NoBreak(kernel);
    NoBreak(initrd);
  }

  lemma BreakIsSpace()
    ensures IsSpace('\n')
  {}

  lemma NoBreak(s: string)
    requires OneLine(s)
    ensures '\n' !in s
  {}

  lemma CommentEnds(id: string, sha: string)
    requires OneLine(id) && OneLine(sha)
    ensures WholeLine(IdComment(id)) && WholeLine(ShaComment(sha))
  {
    CommentsAreLines(id, sha);
    NoBreak(IdComment(id));
    NoBreak(ShaComment(sha));
    var a, b := IdComment(id), ShaComment(sha);
    assert a[|a| - 1] == 'e' && b[|b| - 1] == '.';
  }

  lemma ScriptReadsBack(m: Manifest, base: string)
    requires Writable(m) && NoSpace(base)
    ensures ExtractKernelArgs(BootScript(m, base)) == Ok(m.cmdline)
  {
    var url := base + "/" + KERNEL_FILE;
    var end := "initrd " + base + "/" + INITRD_FILE + "\n" + "boot\n";
    var s3 := "kernel " + url + " " + m.cmdline + "\n" + end;
    var c2, c3 := IdComment(m.id), ShaComment(Prefix12(m.initrd.sha256));
    CommentsAreLines(m.id, Prefix12(m.initrd.sha256));
    UrlIsWord(base);
    hide ExtractKernelArgs, IsSpace, IdComment, ShaComment;
    assert BootScript(m, base) == "#!ipxe" + "\n" + (c2 + "\n" + (c3 + "\n" + s3));
    SkipLine("#!ipxe", c2 + "\n" + (c3 + "\n" + s3));
    SkipLine(c2, c3 + "\n" + s3);
    SkipLine(c3, s3);
    ReadKernelLine(url, m.cmdline, end);
  }

  lemma UrlIsWord(base: string)
    requires NoSpace(base)
    ensures var url := base + "/" + KERNEL_FILE; url != [] && NoSpace(url) && OneLine(url)
  {
    assert NoSpace("/" + KERNEL_FILE);
    CrIsSpace();
    hide IsSpace;
  }

  lemma CommentsAreLines(id: string, sha: string)
    requires OneLine(id) && OneLine(sha)
    ensures IdComment(id) != [] && IdComment(id)[0] == '#' && OneLine(IdComment(id))
    ensures ShaComment(sha) != [] && ShaComment(sha)[0] == '#' && OneLine(ShaComment(sha))
  {
    IdCommentIsLine(id);
    ShaCommentIsLine(sha);
    hide IdComment, ShaComment, OneLine;
  }

  lemma LineOfThree(a: string, b: string, c: string)
    requires OneLine(a) && OneLine(b) && OneLine(c) && a != [] && a[0] == '#'
    ensures a + b + c != [] && (a + b + c)[0] == '#' && OneLine(a + b + c)
  {}

  lemma IdCommentIsLine(id: string)
    requires OneLine(id)
    ensures IdComment(id) != [] && IdComment(id)[0] == '#' && OneLine(IdComment(id))
  {
    var a, b := "# AUTO-GENERATED by llmtune from image ", " - init= is co-built with the";
    assert a[0] == '#' && OneLine(a) && OneLine(b);
    hide OneLine;
    LineOfThree(a, id, b);
  }

  lemma ShaCommentIsLine(sha: string)
    requires OneLine(sha)
    ensures ShaComment(sha) != [] && ShaComment(sha)[0] == '#' && OneLine(ShaComment(sha))
  {
    var a, b := "# served initrd (verified sha256 ", "). Do not edit by hand.";
    assert a[0] == '#' && OneLine(a) && OneLine(b);
    hide OneLine;
    LineOfThree(a, sha, b);
  }

  // --- Runs of the store ----------------------------------------------------

  /** A step: seal a build, stage an image, or any outside edit. */
  datatype Op = SealOp(id: string, build: Build) | StageOp(id: string, written: bool) | EditOp(to: Store)

  /** The store, and every build sealed so far. */
  datatype World = World(store: Store, sealed: set<Build>)

  function Step(w: World, op: Op, hash: Hash): World {
    match op
    case SealOp(id, b) => World(Seal(w.store, id, b, hash).0, w.sealed + {b})
    case StageOp(id, written) => w.(store := StageImage(w.store, id, hash, written).0)
    case EditOp(to) => w.(store := to)
  }

  function RunAll(w: World, ops: seq<Op>, hash: Hash): World
    decreases |ops|
  {
    if ops == [] then w else RunAll(Step(w, ops[0], hash), ops[1..], hash)
  }

  /** An edit may replace artifacts, drop images and rewrite the pointer, but puts
      no manifest where it was not. */
  ghost predicate KeepsManifests(s: Store, t: Store) {
    forall id :: id in t.images && t.images[id].manifest.Holds? ==>
      id in s.images && s.images[id].manifest == t.images[id].manifest
  }

  ghost predicate ManifestsKept(w: World, ops: seq<Op>, hash: Hash)
    decreases |ops|
  {
    ops == [] ||
    ((ops[0].EditOp? ==> KeepsManifests(w.store, ops[0].to)) && ManifestsKept(Step(w, ops[0], hash), ops[1..], hash))
  }

  /** Every manifest in the store was written by one seal of one build. */
  ghost predicate AllSealed(w: World, hash: Hash) {
    forall id :: id in w.store.images && w.store.images[id].manifest.Holds? ==>
      exists b :: b in w.sealed && ManifestOf(id, b, hash) == Ok(w.store.images[id].manifest.value)
  }

  lemma StepKeepsSealed(w: World, op: Op, hash: Hash)
    requires AllSealed(w, hash) && (op.EditOp? ==> KeepsManifests(w.store, op.to))
    ensures AllSealed(Step(w, op, hash), hash)
  {
    hide ManifestOf, Verified, LoadVerified;
  }

  lemma {:induction false} RunKeepsSealed(w: World, ops: seq<Op>, hash: Hash)
    requires AllSealed(w, hash) && ManifestsKept(w, ops, hash)
    ensures AllSealed(RunAll(w, ops, hash), hash)
    decreases |ops|
  {
    hide AllSealed, Step, KeepsManifests;
    if ops != [] {
      StepKeepsSealed(w, ops[0], hash);
      RunKeepsSealed(Step(w, ops[0], hash), ops[1..], hash);
    }
  }

  lemma {:induction false} ArgsAreOneLine(lines: seq<string>)
    requires forall i :: 0 <= i < |lines| ==> '\n' !in lines[i]
    ensures ArgsOf(lines).Ok? ==> OneLine(ArgsOf(lines).value)
  {
    hide Trim, AfterSpace, StartsWith;
    if lines != [] {
      TrimIsPart(lines[0]);
      var line := Trim(lines[0]);
      KernelIsLong(line);
      if StartsWith(line, "kernel ") {
        TrimIsPart(line[7..]);
        AfterSpaceIsPart(Trim(line[7..]));
        TrimIsPart(AfterSpace(Trim(line[7..])));
      } else {
        ArgsAreOneLine(lines[1..]);
      }
    }
  }

  lemma KernelIsLong(line: string)
    ensures StartsWith(line, "kernel ") ==> |line| >= 7
  {
  }

  lemma TrimIsPart(s: string)
    ensures OneLine(s) ==> OneLine(Trim(s))
  {
    hide IsSpace;
    TrimStartIsPart(s);
    TrimEndIsPart(TrimStart(s));
  }

  lemma {:induction false} TrimStartIsPart(s: string)
    ensures OneLine(s) ==> OneLine(TrimStart(s))
  {
    hide IsSpace;
    if s != [] && IsSpace(s[0]) { TrimStartIsPart(s[1..]); }
  }

  lemma {:induction false} TrimEndIsPart(s: string)
    ensures OneLine(s) ==> OneLine(TrimEnd(s))
  {
    hide IsSpace;
    if s != [] && IsSpace(s[|s| - 1]) { TrimEndIsPart(s[..|s| - 1]); }
  }

  lemma {:induction false} AfterSpaceIsPart(s: string)
    ensures '\n' !in s ==> '\n' !in AfterSpace(s)
  {
    hide IsSpace;
    if s != [] && !IsSpace(s[0]) { AfterSpaceIsPart(s[1..]); }
  }

  lemma SealedIsWritable(id: string, b: Build, hash: Hash)
    requires ManifestOf(id, b, hash).Ok? && OneLine(id) && forall x :: OneLine(hash(x))
    ensures Writable(ManifestOf(id, b, hash).value)
  {
    hide Lines, ArgsOf, ExtractInit;
    ArgsAreOneLine(Lines(b.ipxe));
  }

  /** An id the store accepts is a single line without blanks. */
  lemma ValidIdIsWord(id: string)
    requires ValidId(id)
    ensures OneLine(id) && Trim(id) == id && Trim(id + "\n") == id
  {
    assert forall i :: 0 <= i < |id| ==> !IsSpace(id[i]) && id[i] != '\n';
    CrIsSpace();
    hide IsSpace, ValidId;
    assert TrimStart(id + "\n") == id + "\n" by { assert (id + "\n")[0] == id[0]; }
    TrimEndAt(id, "\n");
  }

  /** What one build and the store must agree on for a script to be served. */
  ghost predicate CoBuilt(b: Build, script: string, image: Image, hash: Hash) {
    && ExtractKernelArgs(b.ipxe).Ok? && ExtractKernelArgs(script) == ExtractKernelArgs(b.ipxe)
    && ExtractInit(ExtractKernelArgs(script).value).Ok?
    && KERNEL_FILE in image.files && hash(image.files[KERNEL_FILE]) == hash(b.kernel)
    && INITRD_FILE in image.files && hash(image.files[INITRD_FILE]) == hash(b.initrd)
  }

  /** A plain name that does not begin with a dot. */
  ghost predicate GoodId(id: string) {
    id != "" && id[0] != '.'
    && forall i :: 0 <= i < |id| ==>
      'a' <= id[i] <= 'z' || 'A' <= id[i] <= 'Z' || '0' <= id[i] <= '9' || id[i] == '-' || id[i] == '_' || id[i] == '.'
  }

  /** The manifest is of a known version, its `init=` is a store path and a word of
      its command line, and both artifacts are there with the recorded hashes. */
  ghost predicate Paired(image: Image, m: Manifest, hash: Hash) {
    && m.version == 1
    && StartsWith(m.init, "/nix/store/") && EndsWith(m.init, "/init") && "init=" + m.init in Words(m.cmdline)
    && m.initrd.file in image.files && hash(image.files[m.initrd.file]) == m.initrd.sha256
    && m.kernel.file in image.files && hash(image.files[m.kernel.file]) == m.kernel.sha256
  }

  ghost predicate Loads(s: Store, id: string, m: Manifest, hash: Hash) {
    GoodId(id) && id in s.images && s.images[id].manifest == Holds(m) && Paired(s.images[id], m, hash)
  }

  lemma LoadVerifiedExact(s: Store, id: string, m: Manifest, hash: Hash)
    ensures LoadVerified(s, id, hash) == Ok(m) <==> Loads(s, id, m, hash)
  {
    assert ValidId(id) <==> GoodId(id) by { IdsAgree(id); }
    assert id in s.images ==> (Verified(s.images[id], m, hash) <==> Paired(s.images[id], m, hash)) by {
      if id in s.images { PairsAgree(s.images[id], m, hash); }
    }
    hide ValidId, GoodId, Verified, Paired;
  }

  lemma IdsAgree(id: string)
    ensures ValidId(id) <==> GoodId(id)
  {
    assert forall c: char :: c in "-_." <==> c == '-' || c == '_' || c == '.';
  }

  lemma PairsAgree(image: Image, m: Manifest, hash: Hash)
    ensures Verified(image, m, hash) <==> Paired(image, m, hash)
  {
    hide Words, StartsWith, EndsWith;
  }

  /** Whatever is in the store, a manifest is loaded if and only if the active file, less
      blanks around it, names an image whose manifest it is and whose files pair with
      it; nothing is active exactly where the active file names nothing. */
  lemma LoadExact(s: Store, m: Manifest, hash: Hash)
    ensures LoadActive(s, hash) == Ok(Some(m)) <==>
      s.active.Some? && Trim(s.active.value) != "" && Loads(s, Trim(s.active.value), m, hash)
    ensures LoadActive(s, hash) == Ok(None) <==> s.active.None? || Trim(s.active.value) == ""
  {
    if s.active.Some? { LoadVerifiedExact(s, Trim(s.active.value), m, hash); }
    hide Loads, LoadVerified, Trim;
  }

  /** Staging succeeds if and only if the image loads and the pointer is written; the
      pointer then holds the id on a line, and is else what it was. */
  lemma StageExact(s: Store, id: string, m: Manifest, hash: Hash, written: bool)
    ensures StageImage(s, id, hash, written).1 == Ok(m) <==> written && Loads(s, id, m, hash)
    ensures var (t, r) := StageImage(s, id, hash, written); t == if r.Ok? then s.(active := Some(id + "\n")) else s
  {
    LoadVerifiedExact(s, id, m, hash);
    hide Loads, LoadVerified;
  }

  /** Under an id that is taken, sealing changes nothing: it is refused where the
      manifest does not load or records other artifacts, and reused where it records
      the same ones. */
  lemma SealOverExisting(s: Store, id: string, b: Build, hash: Hash)
    requires id in s.images && !s.images[id].manifest.Absent?
    ensures var (t, r) := Seal(s, id, b, hash);
      && t == s
      && forall m :: r == Ok(m) <==>
           s.images[id].manifest == Holds(m) && ManifestOf(id, b, hash).Ok?
           && m.initrd.sha256 == hash(b.initrd) && m.kernel.sha256 == hash(b.kernel)
  {
    hide ExtractKernelArgs, ExtractInit;
  }

  /** What a load that answers has checked. */
  lemma LoadedIsVerified(s: Store, m: Manifest, hash: Hash)
    requires LoadActive(s, hash) == Ok(Some(m))
    ensures ActiveId(s).Some?
    ensures var id := ActiveId(s).value;
      ValidId(id) && id in s.images && s.images[id].manifest == Holds(m) && Verified(s.images[id], m, hash)
  {
    hide Verified, ValidId, ActiveId;
  }

  lemma ServedNow(w: World, base: string, m: Manifest, hash: Hash)
    requires AllSealed(w, hash) && LoadActive(w.store, hash) == Ok(Some(m))
    requires NoSpace(base) && forall x :: OneLine(hash(x))
    ensures ActiveId(w.store).Some? && ActiveId(w.store).value in w.store.images
    ensures ExtractInit(m.cmdline) == Ok(m.init)
    ensures exists b :: (b in w.sealed
      && CoBuilt(b, BootScript(m, base), w.store.images[ActiveId(w.store).value], hash))
  {
    LoadedIsVerified(w.store, m, hash);
    var id := ActiveId(w.store).value;
    hide LoadActive, ActiveId;
    ValidIdIsWord(id);
    var b :| b in w.sealed && ManifestOf(id, b, hash) == Ok(m);
    hide AllSealed;
    SealedIsWritable(id, b, hash);
    ScriptReadsBack(m, base);
    hide Writable, ValidId, Trim, BootScript;
    SealedIsCoBuilt(id, b, m, BootScript(m, base), w.store.images[id], hash);
  }

  lemma SealedIsCoBuilt(id: string, b: Build, m: Manifest, script: string, image: Image, hash: Hash)
    requires ManifestOf(id, b, hash) == Ok(m) && Verified(image, m, hash)
    requires ExtractKernelArgs(script) == Ok(m.cmdline)
    ensures CoBuilt(b, script, image, hash) && ExtractInit(m.cmdline) == Ok(m.init)
  {
    hide ExtractKernelArgs, ExtractInit, IsStoreInit, Words;
  }

  /** Over any run of seals, stages and edits that forge no manifest, every script
      served comes from one sealed build: its arguments and `init=` are that
      build's, and the kernel and initrd on disk at that step hash as that
      build's did. */
  lemma ServedIsCoBuilt(ops: seq<Op>, base: string, hash: Hash)
    requires ManifestsKept(World(Store(map[], None), {}), ops, hash)
    requires NoSpace(base) && forall x :: OneLine(hash(x))
    ensures var w := RunAll(World(Store(map[], None), {}), ops, hash);
      match LoadActive(w.store, hash)
      case Ok(Some(m)) =>
        && ActiveId(w.store).Some? && ActiveId(w.store).value in w.store.images
        && ExtractInit(m.cmdline) == Ok(m.init)
        && exists b :: b in w.sealed
             && CoBuilt(b, BootScript(m, base), w.store.images[ActiveId(w.store).value], hash)
      case _ => true
  {
    var start := World(Store(map[], None), {});
    RunKeepsSealed(start, ops, hash);
    var w := RunAll(start, ops, hash);
    hide RunAll, ManifestsKept, BootScript, AllSealed, LoadActive, ActiveId, CoBuilt, ExtractInit;
    var r := LoadActive(w.store, hash);
    if r.Ok? && r.value.Some? { ServedNow(w, base, r.value.value, hash); }
  }

  lemma {:induction false} RunSnoc(w: World, ops: seq<Op>, op: Op, hash: Hash)
    ensures RunAll(w, ops + [op], hash) == Step(RunAll(w, ops, hash), op, hash)
    decreases |ops|
  {
    if ops == [] {
      assert ops + [op] == [op] && [op][1..] == [];
    } else {
      assert (ops + [op])[1..] == ops[1..] + [op];
      RunSnoc(Step(w, ops[0], hash), ops[1..], op, hash);
    }
  }

  /** The builds of a run are exactly those it was asked to seal. */
  lemma {:induction false} SealedAreAsked(w: World, ops: seq<Op>, hash: Hash, b: Build)
    ensures b in RunAll(w, ops, hash).sealed
      <==> b in w.sealed || exists i :: 0 <= i < |ops| && ops[i].SealOp? && ops[i].build == b
    decreases |ops|
  {
    hide Seal, StageImage;
    if ops != [] {
      SealedAreAsked(Step(w, ops[0], hash), ops[1..], hash, b);
      assert forall i :: 0 < i < |ops| ==> ops[i] == ops[1..][i - 1];
    }
  }

  /** After any run whatever, sealing a build under a valid id that is free and staging
      it ends with that build served; and an edit leaves what it was told to. */
  lemma SealedThenServed(w: World, ops: seq<Op>, id: string, b: Build, to: Store, hash: Hash)
    ensures RunAll(w, ops + [EditOp(to)], hash).store == to
    ensures GoodId(id) && id !in RunAll(w, ops, hash).store.images && ManifestOf(id, b, hash).Ok? ==>
      LoadActive(RunAll(w, ops + [SealOp(id, b)] + [StageOp(id, true)], hash).store, hash)
      == Ok(Some(ManifestOf(id, b, hash).value))
  {
    RunSnoc(w, ops, EditOp(to), hash);
    RunSnoc(w, ops, SealOp(id, b), hash);
    RunSnoc(w, ops + [SealOp(id, b)], StageOp(id, true), hash);
    var s := RunAll(w, ops, hash).store;
    hide RunAll;
    if GoodId(id) && id !in s.images && ManifestOf(id, b, hash).Ok? {
      SealedVerifies(s, id, b, hash);
      var t := Seal(s, id, b, hash).0;
      var m := ManifestOf(id, b, hash).value;
      SealedHolds(s, id, b, hash);
      IdsAgree(id);
      hide Seal, ManifestOf, Verified, ValidId, GoodId;
      assert LoadVerified(t, id, hash) == Ok(m);
      StageThenLoad(t, id, hash, true);
      hide LoadActive;
    }
  }

  lemma SealedHolds(s: Store, id: string, b: Build, hash: Hash)
    requires id !in s.images && ManifestOf(id, b, hash).Ok?
    ensures var t := Seal(s, id, b, hash).0;
      id in t.images && t.images[id].manifest == Holds(ManifestOf(id, b, hash).value)
  {
    hide ManifestOf, Verified;
  }

  /** A stage that is refused leaves the pointer alone; one that is accepted is
      what the very next load serves. */
  lemma StageThenLoad(s: Store, id: string, hash: Hash, written: bool)
    ensures var (t, r) := StageImage(s, id, hash, written);
      && (r.Err? ==> t == s)
      && (r.Ok? ==> t.images == s.images && LoadActive(t, hash) == Ok(Some(r.value)))
  {
    var (t, r) := StageImage(s, id, hash, written);
    hide Verified, ValidId, Trim;
    if r.Ok? {
      ValidIdIsWord(id);
      assert id != [] by { assert ValidId(id); NotEmptyId(id); }
      assert LoadVerified(t, id, hash) == LoadVerified(s, id, hash);
      hide LoadVerified;
      assert ActiveId(t) == Some(id);
    }
  }

  lemma NotEmptyId(id: string)
    requires ValidId(id)
    ensures id != []
  {
  }

  // --- The commands themselves ----------------------------------------------

  class ImageRoot {
    const hash: Hash
    var store: Store

    constructor (h: Hash, s: Store)
      ensures hash == h && store == s
    {
      hash, store := h, s;
    }

    method SealBuild(id: string, b: Build) returns (r: Result<Manifest>)
      modifies this
      ensures (store, r) == Seal(old(store), id, b, hash)
    {
      hide Verified, ManifestOf;
      r := ManifestOf(id, b, hash);
      if r.Err? { return; }
      var m := r.value;
      var files: map<string, string> := map[];
      if id in store.images {
        files := store.images[id].files;
        if store.images[id].manifest.Unreadable? { return Err; }
        if store.images[id].manifest.Holds? {
          var prev := store.images[id].manifest.value;
          return if prev.initrd.sha256 == m.initrd.sha256 && prev.kernel.sha256 == m.kernel.sha256
                 then Ok(prev) else Err;
        }
      }
      files := files[KERNEL_FILE := b.kernel][INITRD_FILE := b.initrd];
      store := store.(images := store.images[id := Image(Holds(m), files)]);
      if !Verified(store.images[id], m, hash) { r := Err; }
    }

    method Stage(id: string, written: bool) returns (r: Result<Manifest>)
      modifies this
      ensures (store, r) == StageImage(old(store), id, hash, written)
    {
      hide LoadVerified;
      r := LoadVerified(store, id, hash);
      if r.Err? || !written { return Err; }
      store := store.(active := Some(id + "\n"));
    }

    method Serve(base: string) returns (script: Option<string>)
      ensures script == match LoadActive(store, hash)
        case Ok(Some(m)) => Some(BootScript(m, base))
        case _ => None
    {
      hide LoadVerified, BootScript, Trim;
      var id := ActiveId(store);
      if id.None? { return None; }
      var r := LoadVerified(store, id.value, hash);
      if r.Err? { return None; }
      return Some(BootScript(r.value, base));
    }
  }
}
