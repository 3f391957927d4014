/** The systemd drop-in files of one unit: which file wins the merge, and how a
    swap stages its own file and takes it back. */
module DropIns {
  import opened Text

  // --- Byte order on file names ---------------------------------------------

  predicate Less(a: string, b: string) {
    if b == [] then false
    else if a == [] then true
    else if a[0] != b[0] then a[0] < b[0]
    else Less(a[1..], b[1..])
  }

  lemma {:induction false} LessTrans(a: string, b: string, c: string)
    requires Less(a, b) && Less(b, c)
    ensures Less(a, c)
  {
    if a != [] && a[0] == b[0] == c[0] { LessTrans(a[1..], b[1..], c[1..]); }
  }

  lemma {:induction false} LessTotal(a: string, b: string)
    ensures Less(a, b) || a == b || Less(b, a)
    ensures !(Less(a, b) && Less(b, a)) && !Less(a, a)
  {
    if a != [] { LessTotal(a[1..], a[1..]); }
    if a != [] && b != [] && a[0] == b[0] {
      LessTotal(a[1..], b[1..]);
      assert a == [a[0]] + a[1..] && b == [b[0]] + b[1..];
    }
  }

  lemma {:induction false} LessAfterPrefix(p: string, a: string, b: string)
    requires Less(a, b)
    ensures Less(p + a, p + b)
  {
    if p == [] {
      assert p + a == a && p + b == b;
    } else {
      assert (p + a)[1..] == p[1..] + a && (p + b)[1..] == p[1..] + b;
      LessAfterPrefix(p[1..], a, b);
    }
  }

  // --- The winning name -----------------------------------------------------

  const BASE_NAME := "zzzzzz-llmtune.conf"

  function Larger(a: string, b: string): string {
    if Less(a, b) then b else a
  }

  function Greatest(names: seq<string>): (m: string)
    requires names != []
    ensures m in names
  {
    if |names| == 1 then names[0] else Larger(names[0], Greatest(names[1..]))
  }

  function Stem(name: string): string {
    if EndsWith(name, ".conf") then name[..|name| - 5] else name
  }

  function WinningName(foreign: seq<string>): string {
    if foreign == [] || Less(Greatest(foreign), BASE_NAME) then BASE_NAME
    else Stem(Greatest(foreign)) + "z-llmtune.conf"
  }

  lemma {:induction false} GreatestBounds(names: seq<string>, n: string)
    requires n in names
    ensures n == Greatest(names) || Less(n, Greatest(names))
  {
    if |names| > 1 {
      var g := Greatest(names[1..]);
      LessTotal(names[0], g);
      if n in names[1..] {
        GreatestBounds(names[1..], n);
        if n != g && !Less(names[0], g) && names[0] != g { LessTrans(n, g, names[0]); }
      }
    }
  }

  lemma StemExtendedWins(m: string)
    ensures Less(m, Stem(m) + "z-llmtune.conf")
  {
    var p := Stem(m);
    if EndsWith(m, ".conf") {
      assert m == p + ".conf";
      assert Less(".conf", "z-llmtune.conf");
      LessAfterPrefix(p, ".conf", "z-llmtune.conf");
    } else {
      assert m == p + [];
      LessAfterPrefix(p, [], "z-llmtune.conf");
    }
  }

  /** The chosen name sorts strictly after every foreign name. */
  lemma WinningNameWins(foreign: seq<string>, n: string)
    requires n in foreign
    ensures Less(n, WinningName(foreign))
  {
    var g := Greatest(foreign);
    GreatestBounds(foreign, n);
    if Less(g, BASE_NAME) {
      if n != g { LessTrans(n, g, BASE_NAME); }
    } else {
      StemExtendedWins(g);
      if n != g { LessTrans(n, g, WinningName(foreign)); }
    }
  }

  /** The name depends on which foreign names there are, not on their order. */
  lemma WinningNameStable(a: seq<string>, b: seq<string>)
    requires forall n :: n in a <==> n in b
    ensures WinningName(a) == WinningName(b)
  {
    assert a != [] ==> a[0] in a;
    assert b != [] ==> b[0] in b;
    if a != [] {
      var ga, gb := Greatest(a), Greatest(b);
      GreatestBounds(b, ga);
      GreatestBounds(a, gb);
      LessTotal(ga, gb);
    }
  }

  // --- The files systemd merges ---------------------------------------------

  const ETC := "/etc/systemd/system"
  const RUN := "/run/systemd/system"
  const ROOTS := [ETC, RUN, "/usr/lib/systemd/system", "/lib/systemd/system"]
  const MARKER := "AUTO-GENERATED by llmtune [model-select]"

  /** A drop-in of the unit: the unit directory's root, and the file name. */
  datatype Path = Path(root: string, name: string)
  type Files = map<Path, string>

  /** The root llmtune writes to. */
  function InstallRoot(etcWritable: bool): (r: string)
    ensures r in ROOTS
  {
    if etcWritable then ETC else RUN
  }

  predicate Writable(etcWritable: bool, root: string) {
    root == InstallRoot(etcWritable) || root == RUN
  }

  /** A file whose extension is `conf`. */
  predicate IsConf(name: string) {
    EndsWith(name, ".conf") && |name| > 5
  }

  predicate IsOurs(content: string) {
    Contains(content, MARKER)
  }

  /** A model-select drop-in llmtune may remove. */
  predicate Removable(etcWritable: bool, files: Files, p: Path) {
    p in files && IsConf(p.name) && Writable(etcWritable, p.root) && IsOurs(files[p])
  }

  /** A merged drop-in that stays where it is. */
  predicate Foreign(etcWritable: bool, files: Files, p: Path) {
    p in files && p.root in ROOTS && IsConf(p.name) && !Removable(etcWritable, files, p)
  }

  datatype Scan = Scan(ours: seq<Path>, foreign: seq<Path>)

  function ScanDir(files: Files, root: string, names: seq<string>): Scan {
    if names == [] then Scan([], [])
    else
      var (rest, p) := (ScanDir(files, root, names[1..]), Path(root, names[0]));
      if !IsConf(p.name) then rest
      else if p in files && IsOurs(files[p]) then rest.(ours := [p] + rest.ours)
      else rest.(foreign := [p] + rest.foreign)
  }

  /** The union scan over the unit's directories. `list` is what reading a
      directory yields, in any order. */
  function Collect(etcWritable: bool, files: Files, roots: seq<string>, list: (Files, string) -> seq<string>): Scan {
    if roots == [] then Scan([], [])
    else
      var d := ScanDir(files, roots[0], list(files, roots[0]));
      var rest := Collect(etcWritable, files, roots[1..], list);
      if Writable(etcWritable, roots[0]) then Scan(d.ours + rest.ours, d.foreign + rest.foreign)
      else Scan(rest.ours, d.ours + d.foreign + rest.foreign)
  }

  function Names(ps: seq<Path>): (ns: seq<string>)
    ensures |ns| == |ps| && forall i :: 0 <= i < |ps| ==> ns[i] == ps[i].name
  {
    if ps == [] then [] else [ps[0].name] + Names(ps[1..])
  }

  type Listing = (Files, string) -> seq<string>

  ghost predicate Lists(list: Listing) {
    forall files, root, n :: n in list(files, root) <==> Path(root, n) in files
  }

  lemma {:induction false} ScanDirExact(files: Files, root: string, names: seq<string>)
    requires forall n :: n in names ==> Path(root, n) in files
    ensures var s := ScanDir(files, root, names);
      && (forall p :: p in s.ours <==>
            p.root == root && p.name in names && IsConf(p.name) && IsOurs(files[p]))
      && (forall p :: p in s.foreign <==>
            p.root == root && p.name in names && IsConf(p.name) && !IsOurs(files[p]))
  {
    hide IsConf, IsOurs;
    if names != [] {
      ScanDirExact(files, root, names[1..]);
      assert names == [names[0]] + names[1..];
    }
  }

  /** The scan finds exactly the removable files and exactly those that stay. */
  lemma {:induction false} CollectExact(etcWritable: bool, files: Files, roots: seq<string>, list: Listing)
    requires Lists(list) && forall r :: r in roots ==> r in ROOTS
    ensures var s := Collect(etcWritable, files, roots, list);
      && (forall p :: p in s.ours <==> p.root in roots && Removable(etcWritable, files, p))
      && (forall p :: p in s.foreign <==> p.root in roots && Foreign(etcWritable, files, p))
  {
    hide IsConf, IsOurs, ScanDir, ROOTS;
    if roots != [] {
      var r := roots[0];
      assert roots == [r] + roots[1..];
      ScanDirExact(files, r, list(files, r));
      CollectExact(etcWritable, files, roots[1..], list);
    }
  }

  // --- Staging --------------------------------------------------------------

  /** The actuator: what this stage wrote, and the drop-in it displaced. */
  datatype Actuator = Actuator(wrote: Option<Path>, removedSelf: Option<(Path, string)>)
  const FRESH := Actuator(None, None)

  datatype Node = Node(files: Files, act: Actuator)

  /** A secret write is two calls: create the file empty, then fill it. */
  datatype Call =
    | Remove(path: Path) | Mkdir | CreateStaged | FillStaged
    | RemoveStaged | CreatePrior | FillPrior

  datatype Env = Env(works: Call -> bool, list: Listing)

  function WriteSecret(files: Files, p: Path, content: string, create: bool, fill: bool): (Files, bool) {
    if !create then (files, false)
    else if !fill then (files[p := ""], false)
    else (files[p := content], true)
  }

  function RemoveEach(files: Files, ps: seq<Path>, env: Env): Files
    decreases |ps|
  {
    if ps == [] then files
    else RemoveEach(if env.works(Remove(ps[0])) then files - {ps[0]} else files, ps[1..], env)
  }

  function StagedPath(etcWritable: bool, files: Files, env: Env): Path {
    Path(InstallRoot(etcWritable), WinningName(Names(Collect(etcWritable, files, ROOTS, env.list).foreign)))
  }

  function Stage(node: Node, etcWritable: bool, dropin: string, env: Env): (Node, bool) {
    var ours := Collect(etcWritable, node.files, ROOTS, env.list).ours;
    var act := if ours != [] && ours[0] in node.files
               then node.act.(removedSelf := Some((ours[0], node.files[ours[0]]))) else node.act;
    var files := RemoveEach(node.files, ours, env);
    if !env.works(Mkdir) then (Node(files, act), false)
    else
      var path := StagedPath(etcWritable, node.files, env);
      var (written, ok) := WriteSecret(files, path, dropin, env.works(CreateStaged), env.works(FillStaged));
      (Node(written, if ok then act.(wrote := Some(path)) else act), ok)
  }

  function Rollback(node: Node, env: Env): (Node, bool) {
    var w := node.act.wrote;
    if w.Some? && !env.works(RemoveStaged) then (node.(act := node.act.(wrote := None)), false)
    else
      var files := if w.Some? then node.files - {w.value} else node.files;
      match node.act.removedSelf
      case None => (Node(files, FRESH), true)
      case Some((p, c)) =>
        var (written, ok) := WriteSecret(files, p, c, env.works(CreatePrior), env.works(FillPrior));
        (Node(written, FRESH), ok)
  }

  function Commit(node: Node): Node {
    node.(act := node.act.(removedSelf := None))
  }

  /** The files whose removal works; a failing one is ignored. */
  function Removed(ps: seq<Path>, env: Env): set<Path> {
    set p | p in ps && env.works(Remove(p))
  }

  lemma {:induction false} RemoveEachRemoves(files: Files, ps: seq<Path>, env: Env)
    ensures RemoveEach(files, ps, env) == files - Removed(ps, env)
    decreases |ps|
  {
    if ps == [] {
      assert files - Removed(ps, env) == files;
    } else {
      var p, rest := ps[0], ps[1..];
      assert ps == [p] + rest;
      assert Removed(ps, env) == Removed(rest, env) + if env.works(Remove(p)) then {p} else {};
      RemoveEachRemoves(if env.works(Remove(p)) then files - {p} else files, rest, env);
      assert (files - {p}) - Removed(rest, env) == files - (Removed(rest, env) + {p});
      assert Removed(rest, env) + {} == Removed(rest, env);
    }
  }

  /** The roots from which systemd merges a unit's drop-ins. */
  ghost predicate MergedRoot(root: string) {
    root == "/etc/systemd/system" || root == "/run/systemd/system"
    || root == "/usr/lib/systemd/system" || root == "/lib/systemd/system"
  }

  lemma RootsAreMerged(root: string)
    ensures root in ROOTS <==> MergedRoot(root)
  {}

  /** The file at `p` is the last one systemd merges, over every root. */
  ghost predicate WinsMerge(files: Files, p: Path) {
    && p in files && IsConf(p.name)
    && forall q :: q in files && MergedRoot(q.root) && IsConf(q.name) && q != p ==> Less(q.name, p.name)
  }

  lemma StagedNameIsConf(foreign: seq<string>)
    ensures IsConf(WinningName(foreign))
  {
    if foreign != [] && !Less(Greatest(foreign), BASE_NAME) {
      var w := Stem(Greatest(foreign)) + "z-llmtune.conf";
      assert w[|w| - 5..] == ".conf";
    }
  }

  /** A stage that reports success has written its drop-in, and that one wins the
      merge of all roots, whatever foreign ones are there, if and only if every
      own one that could not be removed sorts before it. */
  lemma StagedWins(node: Node, etcWritable: bool, dropin: string, env: Env)
    requires Lists(env.list) && Stage(node, etcWritable, dropin, env).1
    ensures var files := Stage(node, etcWritable, dropin, env).0.files;
      var p := StagedPath(etcWritable, node.files, env);
      && p in files && files[p] == dropin
      && (WinsMerge(files, p) <==>
            Outsorts(p, Collect(etcWritable, node.files, ROOTS, env.list).ours, env))
  {
    hide IsConf, IsOurs, WinningName, Collect;
    CollectExact(etcWritable, node.files, ROOTS, env.list);
    var s := Collect(etcWritable, node.files, ROOTS, env.list);
    RemoveEachRemoves(node.files, s.ours, env);
    var files := Stage(node, etcWritable, dropin, env).0.files;
    StagedNameIsConf(Names(s.foreign));
    var p := StagedPath(etcWritable, node.files, env);
    forall q | q in s.foreign ensures Less(q.name, p.name) {
      var i :| 0 <= i < |s.foreign| && s.foreign[i] == q;
      assert Names(s.foreign)[i] == q.name;
      WinningNameWins(Names(s.foreign), q.name);
    }
    forall root ensures root in ROOTS <==> MergedRoot(root) { RootsAreMerged(root); }
    hide ROOTS, MergedRoot;
    assert forall q :: q in files && q != p <==> q in node.files && q != p && q !in Removed(s.ours, env);
    assert forall q :: q in s.ours ==> q in node.files && q.root in ROOTS && IsConf(q.name);
    assert forall q :: q in node.files && q.root in ROOTS && IsConf(q.name) ==> q in s.ours || q in s.foreign;
  }

  /** Every own drop-in whose removal fails sorts before the staged one. */
  ghost predicate Outsorts(p: Path, ours: seq<Path>, env: Env) {
    forall q :: q in ours && q != p && !env.works(Remove(q)) ==> Less(q.name, p.name)
  }

  /** An own drop-in with a late name and a failing removal: the stage succeeds
      and the old file still wins. */
  lemma KeptOwnWins(env: Env)
    requires Lists(env.list) && forall c :: env.works(c) <==> !c.Remove?
    ensures var files := map[Path(ETC, "zzzzzzzz-llmtune.conf") := MARKER];
      var (node, ok) := Stage(Node(files, FRESH), true, "new", env);
      ok && !WinsMerge(node.files, StagedPath(true, files, env))
  {
    var q := Path(ETC, "zzzzzzzz-llmtune.conf");
    var files := map[q := MARKER];
    LateNameIsConf();
    hide *;
    AllOwn(files, env);
    var s := Collect(true, files, ROOTS, env.list);
    NothingForeign(s.foreign);
    LateOneStays(q, s.ours, env);
    StageSucceeds(files, true, "new", env);
    StagedWins(Node(files, FRESH), true, "new", env);
    NameAtEtc(files, env);
  }

  /** Where every file is a marked drop-in under `/etc`, all are found as own. */
  lemma AllOwn(files: Files, env: Env)
    requires Lists(env.list)
    requires forall p :: p in files ==> p.root == ETC && IsConf(p.name) && files[p] == MARKER
    ensures var s := Collect(true, files, ROOTS, env.list);
      (forall p :: p in files ==> p in s.ours) && (forall p :: p !in s.foreign)
  {
    MarkerIsOurs();
    assert ETC in ROOTS;
    hide IsConf, IsOurs, Collect, ROOTS;
    CollectExact(true, files, ROOTS, env.list);
  }

  lemma LateOneStays(q: Path, ours: seq<Path>, env: Env)
    requires q in ours && q.root == ETC && Less(BASE_NAME, q.name) && !env.works(Remove(q))
    ensures !Outsorts(Path(ETC, BASE_NAME), ours, env)
  {
    LessTotal(q.name, BASE_NAME);
    LessTotal(q.name, q.name);
    hide Less;
  }

  lemma StageSucceeds(files: Files, etcWritable: bool, dropin: string, env: Env)
    requires env.works(Mkdir) && env.works(CreateStaged) && env.works(FillStaged)
    ensures Stage(Node(files, FRESH), etcWritable, dropin, env).1
  {
    hide Collect, StagedPath;
  }

  lemma NameAtEtc(files: Files, env: Env)
    ensures StagedPath(true, files, env)
         == Path(ETC, WinningName(Names(Collect(true, files, ROOTS, env.list).foreign)))
  {
    hide Collect, WinningName;
  }

  lemma NothingForeign(foreign: seq<Path>)
    requires forall x :: x !in foreign
    ensures WinningName(Names(foreign)) == BASE_NAME
  {
    if foreign != [] { assert foreign[0] in foreign; }
  }

  lemma LateNameIsConf()
    ensures IsConf("zzzzzzzz-llmtune.conf") && Less(BASE_NAME, "zzzzzzzz-llmtune.conf")
  {
    EndsInConf("zzzzzzzz-llmtune");
    assert "zzzzzzzz-llmtune" + ".conf" == "zzzzzzzz-llmtune.conf";
    LateNameIsLater();
    hide *;
  }

  lemma EndsInConf(stem: string)
    requires stem != ""
    ensures IsConf(stem + ".conf")
  {
    var name := stem + ".conf";
    assert name[|name| - 5..] == ".conf";
  }

  lemma LateNameIsLater()
    ensures Less(BASE_NAME, "zzzzzzzz-llmtune.conf")
  {
    assert BASE_NAME == "zzzzzz" + "-llmtune.conf" && "zzzzzzzz-llmtune.conf" == "zzzzzz" + "zz-llmtune.conf";
    assert Less("-llmtune.conf", "zz-llmtune.conf");
    hide Less;
    LessAfterPrefix("zzzzzz", "-llmtune.conf", "zz-llmtune.conf");
  }

  /** Staging again on the result picks the same file: names never grow. */
  lemma RestageSameName(node: Node, etcWritable: bool, dropin: string, env: Env, again: Env)
    requires Lists(env.list) && Lists(again.list) && IsOurs(dropin)
    requires Stage(node, etcWritable, dropin, env).1
    ensures StagedPath(etcWritable, Stage(node, etcWritable, dropin, env).0.files, again)
         == StagedPath(etcWritable, node.files, env)
  {
    hide IsConf, IsOurs, WinningName, Collect;
    var files := Stage(node, etcWritable, dropin, env).0.files;
    CollectExact(etcWritable, node.files, ROOTS, env.list);
    CollectExact(etcWritable, files, ROOTS, again.list);
    var a, b := Collect(etcWritable, node.files, ROOTS, env.list), Collect(etcWritable, files, ROOTS, again.list);
    RemoveEachRemoves(node.files, a.ours, env);
    var p := StagedPath(etcWritable, node.files, env);
    StagedNameIsConf(Names(a.foreign));
    assert files[p] == dropin && Writable(etcWritable, p.root);
    assert p !in node.files || p in a.ours by {
      if p in a.foreign { StagedIsNew(etcWritable, node.files, env, p); }
    }
    assert forall q :: q in a.foreign <==> q in b.foreign;
    SameNames(a.foreign, b.foreign);
    WinningNameStable(Names(a.foreign), Names(b.foreign));
  }

  lemma SameNames(a: seq<Path>, b: seq<Path>)
    requires forall q :: q in a <==> q in b
    ensures forall n :: n in Names(a) <==> n in Names(b)
  {
    forall n ensures n in Names(a) <==> n in Names(b) {
      if n in Names(a) {
        var i :| 0 <= i < |a| && Names(a)[i] == n;
        assert a[i] in b;
        var j :| 0 <= j < |b| && b[j] == a[i];
        assert Names(b)[j] == n;
      }
      if n in Names(b) {
        var i :| 0 <= i < |b| && Names(b)[i] == n;
        assert b[i] in a;
        var j :| 0 <= j < |a| && a[j] == b[i];
        assert Names(a)[j] == n;
      }
    }
  }

  /** The staged name is no foreign file's name. */
  lemma StagedIsNew(etcWritable: bool, files: Files, env: Env, q: Path)
    requires q in Collect(etcWritable, files, ROOTS, env.list).foreign
    ensures q.name != StagedPath(etcWritable, files, env).name
  {
    hide Collect, WinningName;
    var foreign := Collect(etcWritable, files, ROOTS, env.list).foreign;
    var i :| 0 <= i < |foreign| && foreign[i] == q;
    assert Names(foreign)[i] == q.name;
    WinningNameWins(Names(foreign), q.name);
    LessTotal(q.name, q.name);
  }

  /** The staging write was cut short after the empty file was created. */
  predicate Torn(env: Env) {
    env.works(Mkdir) && env.works(CreateStaged) && !env.works(FillStaged)
  }

  /** What the scan that precedes a stage says of the files. */
  lemma ScanBeforeStage(files: Files, etcWritable: bool, env: Env)
    requires Lists(env.list)
    ensures var ours := Collect(etcWritable, files, ROOTS, env.list).ours;
      var path := StagedPath(etcWritable, files, env);
      && (forall p :: p in ours ==> p in files && files[p] != "")
      && (path in files ==> path in ours)
  {
    hide IsConf, IsOurs, WinningName, Collect;
    CollectExact(etcWritable, files, ROOTS, env.list);
    var s := Collect(etcWritable, files, ROOTS, env.list);
    var path := StagedPath(etcWritable, files, env);
    StagedNameIsConf(Names(s.foreign));
    EmptyIsForeign();
    if path in s.foreign { StagedIsNew(etcWritable, files, env, path); }
  }

  lemma EmptyIsForeign()
    ensures !IsOurs("")
  {}

  /** The write of a stage went through. */
  predicate Completes(env: Env) {
    env.works(Mkdir) && env.works(CreateStaged) && env.works(FillStaged)
  }

  /** The files and the actuator after a stage. */
  lemma StagedFiles(files: Files, etcWritable: bool, dropin: string, env: Env)
    ensures var ours := Collect(etcWritable, files, ROOTS, env.list).ours;
      var path := StagedPath(etcWritable, files, env);
      var kept := files - Removed(ours, env);
      var (n, ok) := Stage(Node(files, FRESH), etcWritable, dropin, env);
      && ok == Completes(env)
      && n.files == (if ok then kept[path := dropin] else if Torn(env) then kept[path := ""] else kept)
      && n.act.wrote == (if ok then Some(path) else None)
      && n.act.removedSelf == if ours != [] && ours[0] in files then Some((ours[0], files[ours[0]])) else None
  {
    hide Collect, StagedPath, Removed;
    RemoveEachRemoves(files, Collect(etcWritable, files, ROOTS, env.list).ours, env);
  }

  /** An own drop-in that a stage removes or writes over. */
  predicate Lost(ours: seq<Path>, path: Path, env: Env, p: Path) {
    p in ours && (env.works(Remove(p)) || (p == path && (Completes(env) || Torn(env))))
  }

  /** At most the remembered one is lost. */
  ghost predicate OnlyFirstLost(ours: seq<Path>, path: Path, env: Env) {
    forall p :: Lost(ours, path, env, p) ==> p == ours[0]
  }

  /** A rollback that reports success after a stage, finished or not, puts every
      drop-in back byte for byte if and only if the stage lost at most the first
      of llmtune's own, and a cut-short write did not leave a new file. */
  lemma RollbackExact(files: Files, etcWritable: bool, dropin: string, env: Env, undo: Env)
    requires Lists(env.list)
    requires Rollback(Stage(Node(files, FRESH), etcWritable, dropin, env).0, undo).1
    ensures var ours := Collect(etcWritable, files, ROOTS, env.list).ours;
      var path := StagedPath(etcWritable, files, env);
      Rollback(Stage(Node(files, FRESH), etcWritable, dropin, env).0, undo).0.files == files
      <==> OnlyFirstLost(ours, path, env) && (Torn(env) ==> path in ours)
  {
    hide Collect, StagedPath, Stage, Removed;
    ScanBeforeStage(files, etcWritable, env);
    StagedFiles(files, etcWritable, dropin, env);
    var ours, path := Collect(etcWritable, files, ROOTS, env.list).ours, StagedPath(etcWritable, files, env);
    var kept := files - Removed(ours, env);
    assert kept[path := dropin] - {path} == kept - {path};
    assert ours != [] ==> ours[0] in ours;
    hide OnlyFirstLost;
    PutBackExact(files, ours, path, env);
  }

  /** The files after a stage and a successful rollback. */
  function PutBack(files: Files, ours: seq<Path>, path: Path, env: Env): Files
    requires ours != [] ==> ours[0] in files
  {
    var kept := files - Removed(ours, env);
    var left := if Completes(env) then kept - {path} else if Torn(env) then kept[path := ""] else kept;
    if ours == [] then left else left[ours[0] := files[ours[0]]]
  }

  lemma PutBackExact(files: Files, ours: seq<Path>, path: Path, env: Env)
    requires forall p :: p in ours ==> p in files && files[p] != ""
    requires path in files ==> path in ours
    requires ours != [] ==> ours[0] in files
    ensures PutBack(files, ours, path, env) == files
       <==> OnlyFirstLost(ours, path, env) && (Torn(env) ==> path in ours)
  {
    var back := PutBack(files, ours, path, env);
    if OnlyFirstLost(ours, path, env) && (Torn(env) ==> path in ours) {
      forall p | p in files ensures p in back && back[p] == files[p] {
        assert p in Removed(ours, env) ==> Lost(ours, path, env, p);
        assert p == path && (Completes(env) || Torn(env)) ==> Lost(ours, path, env, p);
      }
      assert back == files;
    } else if Torn(env) && path !in ours {
      assert path in back;
    } else {
      var p :| Lost(ours, path, env, p) && p != ours[0];
      assert p !in back || back[p] == "";
    }
  }

  // --- What stays untouched -------------------------------------------------

  /** A `.conf` file under `/run`, or under `/etc` where that can be written, that
      carries the model-select marker. */
  ghost predicate OwnDropin(etcWritable: bool, files: Files, p: Path) {
    && p in files
    && (exists stem :: stem != "" && p.name == stem + ".conf")
    && (p.root == "/run/systemd/system" || (etcWritable && p.root == "/etc/systemd/system"))
    && (exists i :: 0 <= i <= |files[p]| && StartsWith(files[p][i..], "AUTO-GENERATED by llmtune [model-select]"))
  }

  lemma OwnIsRemovable(etcWritable: bool, files: Files, p: Path)
    ensures OwnDropin(etcWritable, files, p) <==> Removable(etcWritable, files, p)
  {
    ConfHasStem(p.name);
    hide IsConf;
  }

  lemma ConfHasStem(name: string)
    ensures IsConf(name) <==> exists stem :: stem != "" && name == stem + ".conf"
  {
    if IsConf(name) { assert name == name[..|name| - 5] + ".conf"; }
    if stem :| stem != "" && name == stem + ".conf" { assert name[|name| - 5..] == ".conf"; }
  }

  /** Whatever calls fail, a stage and a rollback after it change no file but
      llmtune's own marked drop-ins and the staged one, which they write under
      `/etc`, or under `/run` where `/etc` cannot be written. */
  lemma OthersUntouched(files: Files, etcWritable: bool, dropin: string, env: Env, undo: Env, p: Path)
    requires Lists(env.list)
    ensures var path := StagedPath(etcWritable, files, env);
      var (staged, _) := Stage(Node(files, FRESH), etcWritable, dropin, env);
      var (back, _) := Rollback(staged, undo);
      && path.root == (if etcWritable then "/etc/systemd/system" else "/run/systemd/system")
      && (p in files && !OwnDropin(etcWritable, files, p) ==>
            p in staged.files && staged.files[p] == files[p] && p in back.files && back.files[p] == files[p])
      && (p !in files && p != path ==> p !in staged.files && p !in back.files)
  {
    var path, ours := StagedPath(etcWritable, files, env), Collect(etcWritable, files, ROOTS, env.list).ours;
    ScanBeforeStage(files, etcWritable, env);
    StagedFiles(files, etcWritable, dropin, env);
    StagedRoot(etcWritable, files, env);
    OwnIsOurs(files, etcWritable, env, p);
    hide *;
    if p !in ours {
      StageLeaves(files, ours, path, dropin, env, p);
      assert ours != [] ==> ours[0] in ours;
      if p != path { RollbackLeaves(Stage(Node(files, FRESH), etcWritable, dropin, env).0, undo, p); }
    } else {
      assert p in files;
    }
  }

  lemma OwnIsOurs(files: Files, etcWritable: bool, env: Env, p: Path)
    requires Lists(env.list)
    ensures p in Collect(etcWritable, files, ROOTS, env.list).ours <==> OwnDropin(etcWritable, files, p)
    ensures (OwnDropin(etcWritable, files, p)) ==> p in files
  {
    OwnIsRemovable(etcWritable, files, p);
    OwnRoot(etcWritable, files, p);
    CollectExact(etcWritable, files, ROOTS, env.list);
    hide Collect, Removable, Foreign, ROOTS;
  }

  lemma StageLeaves(files: Files, ours: seq<Path>, path: Path, text: string, env: Env, p: Path)
    requires p !in ours && (path in files ==> path in ours)
    ensures var kept := files - Removed(ours, env);
      && (p in files <==> p in kept) && (p in files ==> kept[p] == files[p] && p != path)
      && (p != path ==> (p in files <==> p in kept[path := text]) && (p in files <==> p in kept[path := ""]))
  {}

  /** A rollback changes at most the file that was staged and the remembered one. */
  lemma RollbackLeaves(node: Node, undo: Env, p: Path)
    requires node.act.wrote != Some(p) && (node.act.removedSelf.Some? ==> node.act.removedSelf.value.0 != p)
    ensures var back := Rollback(node, undo).0.files;
      (p in back <==> p in node.files) && (p in back ==> back[p] == node.files[p])
  {}

  lemma StagedRoot(etcWritable: bool, files: Files, env: Env)
    ensures StagedPath(etcWritable, files, env).root
         == if etcWritable then "/etc/systemd/system" else "/run/systemd/system"
  {
    hide Collect, WinningName;
  }

  lemma OwnRoot(etcWritable: bool, files: Files, p: Path)
    ensures Removable(etcWritable, files, p) ==> p.root in ROOTS
  {
    hide IsConf, IsOurs;
  }

  /** What a rollback does it does once: after one that worked, or whose rewrite of the
      earlier drop-in failed, another changes nothing; after one that could not remove
      the staged file, another leaves that file and brings only the earlier one back. */
  lemma RollbackTwice(node: Node, first: Env, second: Env)
    ensures var (once, _) := Rollback(node, first);
      var (twice, ok) := Rollback(once, second);
      if node.act.wrote.None? || first.works(RemoveStaged) then ok && twice == once
      else
        && once.files == node.files
        && match node.act.removedSelf
           case None => ok && twice.files == node.files
           case Some((p, text)) =>
             && (ok <==> second.works(CreatePrior) && second.works(FillPrior))
             && (forall q :: q != p ==> (q in twice.files <==> q in node.files)
                                        && (q in node.files ==> twice.files[q] == node.files[q]))
             && (ok ==> p in twice.files && twice.files[p] == text)
  {}

  /** Once committed, a rollback brings no earlier drop-in back. */
  lemma CommittedStays(node: Node, undo: Env)
    ensures Commit(node).files == node.files
    ensures var (back, ok) := Rollback(Commit(node), undo);
      && (ok ==> back.files == if node.act.wrote.Some? then node.files - {node.act.wrote.value} else node.files)
      && (!ok ==> back.files == node.files)
  {}

  // --- What a stage leaves when it is not undone ----------------------------

  /** The staged drop-in was there byte for byte, and no other own one went. */
  predicate Redundant(files: Files, ours: seq<Path>, path: Path, dropin: string, env: Env) {
    path in files && files[path] == dropin && forall p :: p in ours && env.works(Remove(p)) ==> p == path
  }

  /** A failing stage that removed nothing and left no torn file, or a stage that
      wrote again what was there. */
  predicate Unchanging(files: Files, ours: seq<Path>, path: Path, dropin: string, env: Env) {
    if Completes(env) then Redundant(files, ours, path, dropin, env)
    else !Torn(env) && forall p :: p in ours ==> !env.works(Remove(p))
  }

  /** A stage that nothing undoes leaves the drop-ins as they were if and only if,
      failing, it removed no own one and left no torn file, or, succeeding, it
      wrote again what was there and removed nothing else. */
  lemma StageKeepsExact(files: Files, etcWritable: bool, dropin: string, env: Env)
    requires Lists(env.list)
    ensures var ours := Collect(etcWritable, files, ROOTS, env.list).ours;
      Stage(Node(files, FRESH), etcWritable, dropin, env).0.files == files
      <==> Unchanging(files, ours, StagedPath(etcWritable, files, env), dropin, env)
  {
    hide Collect, StagedPath, Stage;
    StagedFiles(files, etcWritable, dropin, env);
    ScanBeforeStage(files, etcWritable, env);
    var ours, path := Collect(etcWritable, files, ROOTS, env.list).ours, StagedPath(etcWritable, files, env);
    WriteKeepsExact(files, ours, path, if Completes(env) then dropin else "", env);
    RemoveKeepsExact(files, ours, env);
    hide Removed;
  }

  lemma WriteKeepsExact(files: Files, ours: seq<Path>, path: Path, text: string, env: Env)
    requires forall p :: p in ours ==> p in files
    ensures (files - Removed(ours, env))[path := text] == files <==> Redundant(files, ours, path, text, env)
  {
    var after := (files - Removed(ours, env))[path := text];
    assert path in after;
    assert forall p :: p in ours && env.works(Remove(p)) && p != path ==> p !in after;
    if Redundant(files, ours, path, text, env) { assert after == files; }
  }

  lemma RemoveKeepsExact(files: Files, ours: seq<Path>, env: Env)
    requires forall p :: p in ours ==> p in files
    ensures files - Removed(ours, env) == files <==> forall p :: p in ours ==> !env.works(Remove(p))
  {
    var after := files - Removed(ours, env);
    assert forall p :: p in ours && env.works(Remove(p)) ==> p !in after;
    if forall p :: p in ours ==> !env.works(Remove(p)) { assert after == files; }
  }

  /** What a rollback after a completed stage must find to put everything back. */
  ghost predicate Undoes(files: Files, ours: seq<Path>, path: Path, dropin: string, env: Env, undo: Env) {
    if !undo.works(RemoveStaged) then Redundant(files, ours, path, dropin, env)
    else if ours == [] then true
    else if !undo.works(CreatePrior) then forall p :: !Lost(ours, path, env, p)
    else undo.works(FillPrior) && OnlyFirstLost(ours, path, env)
  }

  /** After a completed stage a rollback, successful or not, puts every drop-in
      back if and only if at most the remembered one was lost and could be written
      again, or none was lost and it was not touched, or the staged file could not
      be removed but changed nothing. */
  lemma UndoExact(files: Files, etcWritable: bool, dropin: string, env: Env, undo: Env)
    requires Lists(env.list) && Completes(env)
    ensures var ours := Collect(etcWritable, files, ROOTS, env.list).ours;
      Rollback(Stage(Node(files, FRESH), etcWritable, dropin, env).0, undo).0.files == files
      <==> Undoes(files, ours, StagedPath(etcWritable, files, env), dropin, env, undo)
  {
    var staged := Stage(Node(files, FRESH), etcWritable, dropin, env).0;
    hide Collect, StagedPath, Stage;
    StagedFiles(files, etcWritable, dropin, env);
    ScanBeforeStage(files, etcWritable, env);
    var ours, path := Collect(etcWritable, files, ROOTS, env.list).ours, StagedPath(etcWritable, files, env);
    var kept := files - Removed(ours, env);
    assert ours != [] ==> ours[0] in ours;
    if !undo.works(RemoveStaged) {
      WriteKeepsExact(files, ours, path, dropin, env);
      hide Removed;
    } else if Rollback(staged, undo).1 {
      RollbackExact(files, etcWritable, dropin, env, undo);
    } else {
      assert kept[path := dropin] - {path} == kept - {path};
      LeftAsWas(files, ours, path, env);
      assert files[ours[0]] != "";
      hide Removed, Lost;
    }
  }

  lemma LeftAsWas(files: Files, ours: seq<Path>, path: Path, env: Env)
    requires Completes(env) && (forall p :: p in ours ==> p in files) && (path in files ==> path in ours)
    ensures files - Removed(ours, env) - {path} == files <==> forall p :: !Lost(ours, path, env, p)
  {
    var left := files - Removed(ours, env) - {path};
    assert forall p :: Lost(ours, path, env, p) ==> p in files && p !in left;
    assert forall p :: p in Removed(ours, env) ==> Lost(ours, path, env, p);
    assert path in files ==> Lost(ours, path, env, path);
    if forall p :: !Lost(ours, path, env, p) { assert left == files; }
  }

  /** One own drop-in and a failing `Mkdir`: the stage fails and it is gone. */
  lemma FailedStageLosesOwn(env: Env)
    requires Lists(env.list) && forall c :: env.works(c) <==> !c.Mkdir?
    ensures var files := map[Path(ETC, "a.conf") := MARKER];
      var (node, ok) := Stage(Node(files, FRESH), true, "new", env);
      !ok && node.files != files
  {
    var a := Path(ETC, "a.conf");
    assert "a.conf" == "a" + ".conf" && env.works(Remove(a)) && !env.works(Mkdir);
    hide *;
    EndsInConf("a");
    var files := map[a := MARKER];
    AllOwn(files, env);
    LosesOwn(files, a, "new", env);
  }

  lemma LosesOwn(files: Files, a: Path, dropin: string, env: Env)
    requires Lists(env.list) && env.works(Remove(a)) && !env.works(Mkdir)
    requires a in Collect(true, files, ROOTS, env.list).ours
    ensures var (node, ok) := Stage(Node(files, FRESH), true, dropin, env);
      !ok && node.files != files
  {
    StageKeepsExact(files, true, dropin, env);
    hide Collect, StagedPath, Lists;
  }

  /** Two own drop-ins: a stage and a successful rollback bring only one back. */
  lemma TwoOwnNotRestored(a: Path, b: Path, env: Env)
    requires a != b && a.root == b.root == ETC && IsConf(a.name) && IsConf(b.name)
    requires Lists(env.list) && forall c :: env.works(c)
    ensures var files := map[a := MARKER, b := MARKER];
      var (back, ok) := Rollback(Stage(Node(files, FRESH), true, "new", env).0, env);
      ok && back.files != files
  {
    assert env.works(Remove(a)) && env.works(Remove(b));
    var files := map[a := MARKER, b := MARKER];
    RollbackSucceeds(Stage(Node(files, FRESH), true, "new", env).0, env);
    hide *;
    assert forall p :: p in files ==> p == a || p == b;
    AllOwn(files, env);
    var ours, path := Collect(true, files, ROOTS, env.list).ours, StagedPath(true, files, env);
    BothLost(a, b, ours, path, env);
    RollbackExact(files, true, "new", env, env);
  }

  lemma BothLost(a: Path, b: Path, ours: seq<Path>, path: Path, env: Env)
    requires a != b && a in ours && b in ours && env.works(Remove(a)) && env.works(Remove(b))
    ensures !OnlyFirstLost(ours, path, env)
  {
    assert Lost(ours, path, env, a) && Lost(ours, path, env, b);
  }

  lemma RollbackSucceeds(node: Node, undo: Env)
    requires undo.works(RemoveStaged) && undo.works(CreatePrior) && undo.works(FillPrior)
    ensures Rollback(node, undo).1
  {}

  lemma MarkerIsOurs()
    ensures IsOurs(MARKER)
  {
    assert MARKER[0..] == MARKER;
    assert StartsWith(MARKER[0..], MARKER);
  }
}
