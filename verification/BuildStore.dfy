/** The versioned build store: staging, atomic rename, the `current` link, the
    install ledger, rollback and retention.

    A store is what one build name has on disk. Each filesystem call takes effect
    or fails without effect, as the `Disk` decides; the list of stores a command
    passes through is its trace, so a crash anywhere leaves one of them. */
module BuildStore {
  import opened Text

  type Files = set<string>

  /** `versions` are the non-dot version directories, `stages` the `.stage-*`
      ones, `tmpLink` the target of `.current.tmp`. */
  datatype Store = Store(
    versions: map<string, Files>, stages: map<string, Files>,
    current: Option<string>, tmpLink: Option<string>, ledger: seq<string>)

  datatype Call =
    | MakeNameDir | RemoveTmpLink | MakeTmpLink | RenameLink
    | RemoveStage | MakeStage | DropStage | RemoveLeftover | RenameStage
    | SaveLedger | SavePruned | RemoveVersion(slug: string)

  /** `listing` is the order in which the installed slugs are visited. */
  datatype Disk = Disk(works: Call -> bool, listing: set<string> -> seq<string>)

  ghost predicate Lists(d: Disk) {
    forall names :: (set n | n in d.listing(names)) == names
  }

  ghost predicate AllWork(d: Disk) {
    forall c :: d.works(c)
  }

  ghost predicate RemovesVersions(d: Disk) {
    forall v :: d.works(RemoveVersion(v))
  }

  // --- Slugs ----------------------------------------------------------------

  predicate IsHexChar(c: char) {
    '0' <= c <= '9' || 'a' <= c <= 'f' || 'A' <= c <= 'F'
  }

  predicate IsHex(s: string) {
    s != [] && forall i :: 0 <= i < |s| ==> IsHexChar(s[i])
  }

  function Squash(s: string): string {
    if s == [] then []
    else [if IsAlnum(s[0]) || s[0] in "-_." then s[0] else '-'] + Squash(s[1..])
  }

  function Slug(commit: string): string {
    var c := Trim(commit);
    if IsHex(c) && |c| >= 7 then Lower(if |c| <= 12 then c else c[..12])
    else
      var q := Squash(c);
      if |q| <= 24 then q else q[..24]
  }

  /** A name the store treats as a version directory. */
  predicate PlainName(n: string) {
    n != [] && n[0] != '.' && n != "current" && n != "installs.json"
  }

  ghost predicate HexDigits(s: string) {
    forall i :: 0 <= i < |s| ==> '0' <= s[i] <= '9' || 'a' <= s[i] <= 'f' || 'A' <= s[i] <= 'F'
  }

  /** The slug of a hex commit is its first twelve digits, in lower case; of any
      other ref its first 24 characters, those that are not plain as hyphens. */
  lemma SlugIsPrefix(commit: string)
    ensures var (c, s) := (Trim(commit), Slug(commit));
      if |c| >= 7 && HexDigits(c) then
        |s| == (if |c| < 12 then |c| else 12) && forall i :: 0 <= i < |s| ==> s[i] == LowerChar(c[i])
      else
        |s| == (if |c| < 24 then |c| else 24)
        && forall i :: 0 <= i < |s| ==>
             s[i] == if 'a' <= c[i] <= 'z' || 'A' <= c[i] <= 'Z' || '0' <= c[i] <= '9' || c[i] == '-'
                        || c[i] == '_' || c[i] == '.' then c[i] else '-'
  {
    var c := Trim(commit);
    SlugCases(commit);
    SquashEach(c);
    hide *;
  }

  lemma HexMeans(s: string)
    ensures IsHex(s) <==> s != "" && HexDigits(s)
  {}

  lemma SlugCases(commit: string)
    ensures var c := Trim(commit);
      Slug(commit) == if |c| >= 7 && HexDigits(c) then Lower(if |c| <= 12 then c else c[..12])
                      else if |Squash(c)| <= 24 then Squash(c) else Squash(c)[..24]
  {
    HexMeans(Trim(commit));
    hide Trim, IsHex, HexDigits, Lower, Squash;
  }

  lemma {:induction false} SquashEach(s: string)
    ensures |Squash(s)| == |s|
    ensures forall i :: 0 <= i < |s| ==>
      Squash(s)[i] == if 'a' <= s[i] <= 'z' || 'A' <= s[i] <= 'Z' || '0' <= s[i] <= '9' || s[i] == '-'
                         || s[i] == '_' || s[i] == '.' then s[i] else '-'
  {
    if s != [] {
      SquashEach(s[1..]);
      assert forall i :: 0 < i < |s| ==> s[i] == s[1..][i - 1];
    }
  }

  ghost predicate FullHash(c: string) {
    |c| >= 12 && HexDigits(c)
  }

  /** Two full hashes share a slug exactly when their first twelve digits agree up
      to case. */
  lemma SlugsAgree(a: string, b: string)
    requires FullHash(Trim(a)) && FullHash(Trim(b))
    ensures Slug(a) == Slug(b) <==> forall i :: 0 <= i < 12 ==> LowerChar(Trim(a)[i]) == LowerChar(Trim(b)[i])
  {
    SlugIsPrefix(a);
    SlugIsPrefix(b);
    hide Slug, Trim, LowerChar, HexDigits;
    var s, t := Slug(a), Slug(b);
    assert |s| == 12 == |t|;
    if forall i :: 0 <= i < 12 ==> LowerChar(Trim(a)[i]) == LowerChar(Trim(b)[i]) { assert s == t; }
    if s == t {
      forall i | 0 <= i < 12 ensures LowerChar(Trim(a)[i]) == LowerChar(Trim(b)[i]) { assert s[i] == t[i]; }
    }
  }

  /** What `RealBuilder::resolve_ref` returns, at least seven hex digits, always
      names a version directory of lower-case hex digits. */
  lemma ShaSlugIsPlain(commit: string)
    requires HexDigits(Trim(commit)) && |Trim(commit)| >= 7
    ensures PlainName(Slug(commit)) && HexDigits(Slug(commit)) && 7 <= |Slug(commit)| <= 12
    ensures Lower(Slug(commit)) == Slug(commit)
  {
    var c := Trim(commit);
    var q := if |c| <= 12 then c else c[..12];
    hide *;
    SlugCases(commit);
    HexPrefix(c);
    HexMeans(q);
    LowerHex(q);
    HexMeans(Lower(q));
    HexIsPlain(Lower(q));
  }

  lemma HexPrefix(s: string)
    requires HexDigits(s)
    ensures |s| > 12 ==> HexDigits(s[..12])
  {}

  lemma LowerHex(q: string)
    requires IsHex(q)
    ensures IsHex(Lower(q)) && |Lower(q)| == |q| && Lower(Lower(q)) == Lower(q)
  {
    var s := Lower(q);
    assert forall i :: 0 <= i < |s| ==> s[i] == LowerChar(q[i]);
    assert forall i :: 0 <= i < |s| ==> IsHexChar(s[i]) && LowerChar(s[i]) == s[i];
  }

  lemma HexIsPlain(s: string)
    requires IsHex(s)
    ensures PlainName(s)
  {
    assert !IsHexChar("current"[1]) && !IsHexChar("installs.json"[0]) && !IsHexChar('.');
    hide IsHexChar;
  }

  // --- Steps ----------------------------------------------------------------

  /** The stores a command has passed through, starting with the one it found,
      and whether it is still going. */
  datatype Run = Run(past: seq<Store>, ok: bool)

  type Started = r: Run | r.past != [] witness Run([Store(map[], map[], None, None, [])], true)

  function Now(r: Started): Store {
    r.past[|r.past| - 1]
  }

  function Begin(s: Store): Started {
    Run([s], true)
  }

  function To(r: Started, s: Store): Started {
    Run(r.past + [s], r.ok)
  }

  function Fail(r: Started): Started {
    r.(ok := false)
  }

  function FlipCurrent(r: Started, slug: string, d: Disk): Started {
    if !r.ok then r
    else if !d.works(MakeNameDir) then Fail(r)
    else
      var r := if d.works(RemoveTmpLink) then To(r, Now(r).(tmpLink := None)) else r;
      if Now(r).tmpLink.Some? || !d.works(MakeTmpLink) then Fail(r)
      else
        var r := To(r, Now(r).(tmpLink := Some(slug)));
        if !d.works(RenameLink) then Fail(r)
        else To(r, Now(r).(tmpLink := None, current := Some(slug)))
  }

  function Without(s: seq<string>, x: string): (r: seq<string>)
    ensures forall y :: y in r <==> y in s && y != x
  {
    if s == [] then []
    else if s[0] == x then Without(s[1..], x)
    else [s[0]] + Without(s[1..], x)
  }

  function LedgerTouch(r: Started, slug: string, d: Disk): Started {
    if !r.ok then r
    else if !d.works(SaveLedger) then Fail(r)
    else To(r, Now(r).(ledger := Without(Now(r).ledger, slug) + [slug]))
  }

  /** The `n` newest ledger entries that are installed. */
  function Newest(ledger: seq<string>, installed: set<string>, n: nat): set<string> {
    if ledger == [] || n == 0 then {}
    else
      var last, rest := ledger[|ledger| - 1], ledger[..|ledger| - 1];
      if last in installed then {last} + Newest(rest, installed, n - 1) else Newest(rest, installed, n)
  }

  function AtLeastOne(retain: nat): nat {
    if retain < 1 then 1 else retain
  }

  function KeepSet(s: Store, retain: nat): set<string> {
    Newest(s.ledger, s.versions.Keys, AtLeastOne(retain))
    + if s.current.Some? then {s.current.value} else {}
  }

  function Prune(r: Started, slugs: seq<string>, keep: set<string>, d: Disk): Started
    decreases |slugs|
  {
    if slugs == [] then r
    else if slugs[0] in keep || !d.works(RemoveVersion(slugs[0])) then Prune(r, slugs[1..], keep, d)
    else Prune(To(r, Now(r).(versions := Now(r).versions - {slugs[0]})), slugs[1..], keep, d)
  }

  function Retained(ledger: seq<string>, keep: set<string>): (r: seq<string>)
    ensures forall x :: x in r <==> x in ledger && x in keep
  {
    if ledger == [] then []
    else if ledger[0] in keep then [ledger[0]] + Retained(ledger[1..], keep)
    else Retained(ledger[1..], keep)
  }

  function Gc(r: Started, retain: nat, d: Disk): Started {
    if !r.ok then r
    else
      var s := Now(r);
      var keep := KeepSet(s, retain);
      var r := Prune(r, d.listing(s.versions.Keys), keep, d);
      var pruned := Retained(s.ledger, keep);
      if pruned == s.ledger then r
      else if !d.works(SavePruned) then Fail(r)
      else To(r, Now(r).(ledger := pruned))
  }

  /** What the builder does: resolve the ref, then fill the staging directory,
      possibly failing after a part of it. */
  datatype Build = Build(commit: Option<string>, files: Files, ok: bool)

  predicate HasBins(files: Files, outBins: Files) {
    outBins <= files
  }

  predicate Resolved(b: Build) {
    b.commit.Some? && Trim(b.commit.value) != []
  }

  function ClearStage(r: Started, slug: string, d: Disk): Started {
    if d.works(RemoveStage) then To(r, Now(r).(stages := Now(r).stages - {slug})) else r
  }

  /** Fill the staging directory and check it; drop it if it is not complete. */
  function FillStage(r: Started, slug: string, b: Build, outBins: Files, d: Disk): Started {
    if !d.works(MakeStage) then Fail(r)
    else
      var s := Now(r);
      var stale := if slug in s.stages then s.stages[slug] else {};
      var r := To(r, s.(stages := s.stages[slug := stale + b.files]));
      if b.ok && HasBins(Now(r).stages[slug], outBins) then r
      else Fail(if d.works(DropStage) then To(r, Now(r).(stages := Now(r).stages - {slug})) else r)
  }

  /** `install` up to a complete staging directory. */
  function Stage(r: Started, slug: string, b: Build, outBins: Files, d: Disk): Started {
    FillStage(ClearStage(r, slug, d), slug, b, outBins, d)
  }

  /** Replace any partial leftover, then rename the staging directory into place. */
  function Place(r: Started, slug: string, d: Disk): Started
    requires slug in Now(r).stages
  {
    var r := if d.works(RemoveLeftover) then To(r, Now(r).(versions := Now(r).versions - {slug})) else r;
    var s := Now(r);
    if slug in s.versions || !d.works(RenameStage) then Fail(r)
    else To(r, s.(stages := s.stages - {slug}, versions := s.versions[slug := s.stages[slug]]))
  }

  function Compile(r: Started, slug: string, b: Build, outBins: Files, d: Disk): Started {
    var p := Stage(r, slug, b, outBins, d);
    if p.ok && slug in Now(p).stages then Place(p, slug, d) else p
  }

  function Activate(r: Started, slug: string, retain: nat, d: Disk): Started {
    Gc(LedgerTouch(FlipCurrent(r, slug, d), slug, d), retain, d)
  }

  predicate Built(s: Store, slug: string, outBins: Files) {
    slug in s.versions && HasBins(s.versions[slug], outBins)
  }

  function Install(s: Store, b: Build, outBins: Files, retain: nat, d: Disk): Started {
    if !Resolved(b) || !d.works(MakeNameDir) then Fail(Begin(s))
    else
      var slug := Slug(b.commit.value);
      if Built(s, slug, outBins) then
        if s.current == Some(slug) then Begin(s) else Activate(Begin(s), slug, retain, d)
      else
        Activate(Compile(Begin(s), slug, b, outBins, d), slug, retain, d)
  }

  /** The newest ledger entry that is installed and not `cur`. */
  function NewestOther(ledger: seq<string>, installed: set<string>, cur: Option<string>): (r: Option<string>)
    ensures r.Some? ==> r.value in installed && Some(r.value) != cur
  {
    if ledger == [] then None
    else
      var last := ledger[|ledger| - 1];
      if Some(last) != cur && last in installed then Some(last)
      else NewestOther(ledger[..|ledger| - 1], installed, cur)
  }

  function RollbackTarget(s: Store, d: Disk): Option<string> {
    var t := NewestOther(s.ledger, s.versions.Keys, s.current);
    if t.Some? then t else FirstOther(d.listing(s.versions.Keys), s.current)
  }

  function FirstOther(names: seq<string>, cur: Option<string>): (r: Option<string>)
    ensures r.Some? ==> r.value in names && Some(r.value) != cur
    ensures r.None? ==> forall x :: x in names ==> Some(x) == cur
  {
    if names == [] then None
    else if Some(names[0]) != cur then Some(names[0])
    else FirstOther(names[1..], cur)
  }

  function Rollback(s: Store, d: Disk): Started {
    var t := RollbackTarget(s, d);
    if t.None? then Fail(Begin(s)) else FlipCurrent(Begin(s), t.value, d)
  }

  // --- The invariant of every step ------------------------------------------

  /** `current`, if set, names an installed version, and every version directory
      holds every required binary. */
  ghost predicate Sane(s: Store, outBins: Files) {
    && (s.current.Some? ==> s.current.value in s.versions)
    && (forall v :: v in s.versions ==> PlainName(v) && HasBins(s.versions[v], outBins))
  }

  ghost predicate AllSane(r: Started, outBins: Files) {
    forall i :: 0 <= i < |r.past| ==> Sane(r.past[i], outBins)
  }

  /** In words: `current` names an installed version, and each has every binary. */
  lemma SaneMeans(s: Store, outBins: Files)
    ensures Sane(s, outBins) <==>
      && (s.current.Some? ==> s.current.value in s.versions)
      && (forall v :: v in s.versions ==>
            v != "" && v[0] != '.' && v != "current" && v != "installs.json"
            && forall f :: f in outBins ==> f in s.versions[v])
  {}

  lemma FlipSane(r: Started, slug: string, d: Disk, outBins: Files)
    requires AllSane(r, outBins) && (r.ok ==> slug in Now(r).versions)
    ensures AllSane(FlipCurrent(r, slug, d), outBins)
    ensures Now(FlipCurrent(r, slug, d)).versions == Now(r).versions
    ensures FlipCurrent(r, slug, d).ok ==> r.ok && Now(FlipCurrent(r, slug, d)).current == Some(slug)
  {
    hide PlainName, HasBins;
    assert Sane(Now(r), outBins);
  }

  lemma {:induction false} PruneSane(r: Started, slugs: seq<string>, keep: set<string>, d: Disk, outBins: Files)
    requires AllSane(r, outBins) && (Now(r).current.Some? ==> Now(r).current.value in keep)
    ensures AllSane(Prune(r, slugs, keep, d), outBins)
    decreases |slugs|
  {
    if slugs != [] {
      var x := slugs[0];
      if x in keep || !d.works(RemoveVersion(x)) {
        PruneSane(r, slugs[1..], keep, d, outBins);
      } else {
        PruneSane(To(r, Now(r).(versions := Now(r).versions - {x})), slugs[1..], keep, d, outBins);
      }
    }
  }

  lemma GcSane(r: Started, retain: nat, d: Disk, outBins: Files)
    requires AllSane(r, outBins)
    ensures AllSane(Gc(r, retain, d), outBins)
  {
    if r.ok {
      var s := Now(r);
      PruneSane(r, d.listing(s.versions.Keys), KeepSet(s, retain), d, outBins);
    }
  }

  lemma ActivateSane(r: Started, slug: string, retain: nat, d: Disk, outBins: Files)
    requires AllSane(r, outBins) && (r.ok ==> slug in Now(r).versions)
    ensures AllSane(Activate(r, slug, retain, d), outBins)
  {
    FlipSane(r, slug, d, outBins);
    var touched := LedgerTouch(FlipCurrent(r, slug, d), slug, d);
    GcSane(touched, retain, d, outBins);
  }

  predicate SameVisible(a: Store, b: Store) {
    a.versions == b.versions && a.ledger == b.ledger && a.current == b.current
  }

  /** `q` goes on from `r` without changing anything visible. */
  ghost predicate Invisible(r: Started, q: Started) {
    && |r.past| <= |q.past| && q.past[..|r.past|] == r.past
    && (forall i :: |r.past| <= i < |q.past| ==> SameVisible(q.past[i], Now(r)))
    && SameVisible(Now(q), Now(r))
  }

  lemma ClearInvisible(r: Started, slug: string, d: Disk)
    ensures Invisible(r, ClearStage(r, slug, d))
  {}

  lemma FillInvisible(r: Started, slug: string, b: Build, outBins: Files, d: Disk)
    ensures Invisible(r, FillStage(r, slug, b, outBins, d))
  {
    hide HasBins;
  }

  lemma InvisibleTwice(p: Started, q: Started, r: Started)
    requires Invisible(p, q) && Invisible(q, r)
    ensures Invisible(p, r)
  {
    var n := |p.past|;
    assert r.past[..n] == r.past[..|q.past|][..n];
    forall i | n <= i < |r.past| ensures SameVisible(r.past[i], Now(p)) {
      if i < |q.past| { assert r.past[i] == r.past[..|q.past|][i]; }
    }
  }

  /** Up to the complete staging directory nothing visible changes. */
  lemma StageInvisible(r: Started, slug: string, b: Build, outBins: Files, d: Disk)
    ensures Invisible(r, Stage(r, slug, b, outBins, d))
  {
    hide Invisible, FillStage, ClearStage;
    var c := ClearStage(r, slug, d);
    ClearInvisible(r, slug, d);
    FillInvisible(c, slug, b, outBins, d);
    InvisibleTwice(r, c, FillStage(c, slug, b, outBins, d));
  }

  lemma StageComplete(r: Started, slug: string, b: Build, outBins: Files, d: Disk)
    requires r.ok && Stage(r, slug, b, outBins, d).ok
    ensures var s := Now(Stage(r, slug, b, outBins, d));
      b.ok && slug in s.stages && HasBins(s.stages[slug], outBins)
  {
    hide HasBins;
  }

  lemma SameVisibleSane(a: Store, b: Store, outBins: Files)
    requires SameVisible(a, b) && Sane(b, outBins)
    ensures Sane(a, outBins)
  {
    hide PlainName, HasBins;
  }

  lemma PlaceSane(r: Started, slug: string, d: Disk, outBins: Files)
    requires AllSane(r, outBins) && slug in Now(r).stages && slug !in Now(r).versions
    requires PlainName(slug) && HasBins(Now(r).stages[slug], outBins)
    ensures AllSane(Place(r, slug, d), outBins)
    ensures Place(r, slug, d).ok ==> slug in Now(Place(r, slug, d)).versions
  {
    hide PlainName, HasBins;
    assert Sane(Now(r), outBins);
    assert Now(r).versions - {slug} == Now(r).versions;
  }

  lemma CompileSane(r: Started, slug: string, b: Build, outBins: Files, d: Disk)
    requires AllSane(r, outBins) && r.ok && PlainName(slug) && !Built(Now(r), slug, outBins)
    ensures AllSane(Compile(r, slug, b, outBins, d), outBins)
    ensures Compile(r, slug, b, outBins, d).ok ==> slug in Now(Compile(r, slug, b, outBins, d)).versions
  {
    hide PlainName, HasBins, Place, Stage;
    var p := Stage(r, slug, b, outBins, d);
    StageInvisible(r, slug, b, outBins, d);
    assert Sane(Now(r), outBins);
    forall i | 0 <= i < |p.past| ensures Sane(p.past[i], outBins) {
      if i < |r.past| { assert p.past[i] == p.past[..|r.past|][i]; }
      else { SameVisibleSane(p.past[i], Now(r), outBins); }
    }
    if p.ok {
      StageComplete(r, slug, b, outBins, d);
      PlaceSane(p, slug, d, outBins);
    }
  }

  /** A command a user can give. */
  datatype Op = InstallOp(build: Build, retain: nat) | RollbackOp | GcOp(retain: nat)

  function Do(s: Store, op: Op, outBins: Files, d: Disk): Started {
    match op
    case InstallOp(b, retain) => Install(s, b, outBins, retain, d)
    case RollbackOp => Rollback(s, d)
    case GcOp(retain) => Gc(Begin(s), retain, d)
  }

  predicate PlainOp(op: Op) {
    op.InstallOp? && Resolved(op.build) ==> PlainName(Slug(op.build.commit.value))
  }

  lemma RollbackSane(s: Store, outBins: Files, d: Disk)
    requires Sane(s, outBins) && Lists(d)
    ensures AllSane(Rollback(s, d), outBins)
  {
    hide PlainName, HasBins, NewestOther, FirstOther, FlipCurrent;
    var t := RollbackTarget(s, d);
    if t.Some? {
      TargetInstalled(s, d);
      FlipSane(Begin(s), t.value, d, outBins);
    }
  }

  lemma TargetInstalled(s: Store, d: Disk)
    requires Lists(d) && RollbackTarget(s, d).Some?
    ensures RollbackTarget(s, d).value in s.versions
  {
    var l := d.listing(s.versions.Keys);
    assert forall n :: n in l <==> n in (set m | m in l);
  }

  lemma InstallSane(s: Store, b: Build, outBins: Files, retain: nat, d: Disk)
    requires Sane(s, outBins) && (Resolved(b) ==> PlainName(Slug(b.commit.value)))
    ensures AllSane(Install(s, b, outBins, retain, d), outBins)
  {
    hide Slug, PlainName, HasBins, Sane, Activate, Compile;
    BeginSane(s, outBins);
    hide AllSane;
    if Resolved(b) && d.works(MakeNameDir) {
      var slug := Slug(b.commit.value);
      if Built(s, slug, outBins) {
        ActivateSane(Begin(s), slug, retain, d, outBins);
      } else {
        CompileSane(Begin(s), slug, b, outBins, d);
        ActivateSane(Compile(Begin(s), slug, b, outBins, d), slug, retain, d, outBins);
      }
    }
  }

  lemma BeginSane(s: Store, outBins: Files)
    requires Sane(s, outBins)
    ensures AllSane(Begin(s), outBins) && AllSane(Fail(Begin(s)), outBins)
  {
    hide Sane;
  }

  /** Every store a command passes through is sane, whichever calls fail. */
  lemma EveryStepSane(s: Store, op: Op, outBins: Files, d: Disk)
    requires Sane(s, outBins) && Lists(d) && PlainOp(op)
    ensures AllSane(Do(s, op, outBins, d), outBins)
  {
    hide Slug, PlainName, Sane, Install, Rollback, Gc, Lists;
    match op
    case GcOp(retain) => GcSane(Begin(s), retain, d, outBins);
    case RollbackOp => RollbackSane(s, outBins, d);
    case InstallOp(b, retain) => InstallSane(s, b, outBins, retain, d);
  }

  function History(s: Store, ops: seq<(Op, Disk)>, outBins: Files): Store
    decreases |ops|
  {
    if ops == [] then s
    else History(Now(Do(s, ops[0].0, outBins, ops[0].1)), ops[1..], outBins)
  }

  /** Any sequence of installs, rollbacks and collections, stopped after any
      number of filesystem calls of the last one, leaves a sane store. */
  lemma {:induction false} HistorySane(
    s: Store, ops: seq<(Op, Disk)>, last: Op, d: Disk, stop: nat, outBins: Files)
    requires Sane(s, outBins) && Lists(d) && PlainOp(last)
    requires forall i :: 0 <= i < |ops| ==> PlainOp(ops[i].0) && Lists(ops[i].1)
    requires stop < |Do(History(s, ops, outBins), last, outBins, d).past|
    ensures Sane(Do(History(s, ops, outBins), last, outBins, d).past[stop], outBins)
    decreases |ops|
  {
    hide Sane, PlainOp, Lists, Do;
    if ops == [] {
      EveryStepSane(s, last, outBins, d);
    } else {
      var r := Do(s, ops[0].0, outBins, ops[0].1);
      EveryStepSane(s, ops[0].0, outBins, ops[0].1);
      HistorySane(Now(r), ops[1..], last, d, stop, outBins);
    }
  }

  // --- What a failed build changes ------------------------------------------

  /** What an earlier staging directory that cannot be removed leaves behind. */
  function Stale(s: Store, slug: string, d: Disk): Files {
    if slug in s.stages && !d.works(RemoveStage) then s.stages[slug] else {}
  }

  /** A build that fails, or that lacks a required binary, changes no version,
      ledger entry or link at any step. */
  lemma FailedBuildInvisible(s: Store, b: Build, outBins: Files, retain: nat, d: Disk)
    requires !Resolved(b) || !Built(s, Slug(b.commit.value), outBins)
    requires !Resolved(b) || !b.ok
      || (exists f :: f in outBins && f !in Stale(s, Slug(b.commit.value), d) && f !in b.files)
    ensures !Install(s, b, outBins, retain, d).ok
    ensures forall i :: 0 <= i < |Install(s, b, outBins, retain, d).past|
              ==> SameVisible(Install(s, b, outBins, retain, d).past[i], s)
  {
    hide Slug, HasBins, Compile, Activate, Stale;
    if Resolved(b) && d.works(MakeNameDir) {
      var slug := Slug(b.commit.value);
      LacksBin(Stale(s, slug, d), b.files, outBins);
      CompileInvisible(s, slug, b, outBins, d);
      ActivateStopped(Compile(Begin(s), slug, b, outBins, d), slug, retain, d);
    }
  }

  lemma LacksBin(x: Files, y: Files, outBins: Files)
    ensures (exists f :: f in outBins && f !in x && f !in y) ==> !HasBins(x + y, outBins)
  {}

  lemma CompileInvisible(s: Store, slug: string, b: Build, outBins: Files, d: Disk)
    requires !b.ok || !HasBins(Stale(s, slug, d) + b.files, outBins)
    ensures var r := Compile(Begin(s), slug, b, outBins, d);
      !r.ok && forall i :: 0 <= i < |r.past| ==> SameVisible(r.past[i], s)
  {
    assert {} + b.files == b.files;
    StageInvisible(Begin(s), slug, b, outBins, d);
    var p := Stage(Begin(s), slug, b, outBins, d);
    assert p.past[0] == p.past[..1][0];
    if p.ok { StageComplete(Begin(s), slug, b, outBins, d); }
  }

  // --- Retention ------------------------------------------------------------

  function Doomed(slugs: seq<string>, keep: set<string>, d: Disk): set<string> {
    set x | x in slugs && x !in keep && d.works(RemoveVersion(x))
  }

  lemma {:induction false} PruneVersions(r: Started, slugs: seq<string>, keep: set<string>, d: Disk)
    ensures var q := Prune(r, slugs, keep, d);
      && q.ok == r.ok
      && Now(q) == Now(r).(versions := Now(r).versions - Doomed(slugs, keep, d))
    decreases |slugs|
  {
    if slugs != [] {
      var x := slugs[0];
      assert slugs == [x] + slugs[1..];
      if x in keep || !d.works(RemoveVersion(x)) {
        assert Doomed(slugs, keep, d) == Doomed(slugs[1..], keep, d);
        PruneVersions(r, slugs[1..], keep, d);
      } else {
        assert Doomed(slugs, keep, d) == {x} + Doomed(slugs[1..], keep, d);
        var v := Now(r).versions;
        assert v - ({x} + Doomed(slugs[1..], keep, d)) == (v - {x}) - Doomed(slugs[1..], keep, d);
        PruneVersions(To(r, Now(r).(versions := v - {x})), slugs[1..], keep, d);
      }
    } else {
      assert Doomed(slugs, keep, d) == {};
      assert Now(r).versions - {} == Now(r).versions;
    }
  }

  /** What collection changes, and what it does not. */
  lemma GcShape(r: Started, retain: nat, d: Disk)
    requires r.ok
    ensures var (q, s) := (Gc(r, retain, d), Now(r));
      && Now(q).current == s.current
      && Now(q).versions == s.versions - Doomed(d.listing(s.versions.Keys), KeepSet(s, retain), d)
      && (q.ok <==> Retained(s.ledger, KeepSet(s, retain)) == s.ledger || d.works(SavePruned))
      && Now(q).ledger == if q.ok then Retained(s.ledger, KeepSet(s, retain)) else s.ledger
  {
    hide KeepSet, Retained, Doomed;
    var s := Now(r);
    PruneVersions(r, d.listing(s.versions.Keys), KeepSet(s, retain), d);
  }

  /** What collection leaves installed when its removals work. */
  lemma GcVersions(r: Started, retain: nat, d: Disk)
    requires r.ok && Lists(d) && RemovesVersions(d)
    requires KeepSet(Now(r), retain) <= Now(r).versions.Keys
    ensures Now(Gc(r, retain, d)).versions.Keys == KeepSet(Now(r), retain)
  {
    GcShape(r, retain, d);
    hide KeepSet, Gc;
    var names := d.listing(Now(r).versions.Keys);
    assert forall x :: x in names <==> x in (set n | n in names);
  }

  lemma {:induction false} NewestSize(ledger: seq<string>, installed: set<string>, n: nat)
    ensures Newest(ledger, installed, n) <= installed && |Newest(ledger, installed, n)| <= n
  {
    if ledger != [] && n > 0 {
      var last, rest := ledger[|ledger| - 1], ledger[..|ledger| - 1];
      if last in installed {
        NewestSize(rest, installed, n - 1);
        UnionSize({last}, Newest(rest, installed, n - 1));
      } else {
        NewestSize(rest, installed, n);
      }
    }
  }

  /** Collection never removes `current` and, when its removals work, leaves
      exactly the keep set: at most max(retain, 1) + 1 versions. */
  lemma GcBound(s: Store, outBins: Files, retain: nat, d: Disk)
    requires Sane(s, outBins) && Lists(d)
    ensures var t := Now(Gc(Begin(s), retain, d));
      && t.current == s.current
      && (t.current.Some? ==> t.current.value in t.versions)
      && (RemovesVersions(d) ==>
            t.versions.Keys == KeepSet(s, retain) && |t.versions| <= AtLeastOne(retain) + 1)
  {
    hide PlainName, HasBins, Newest, Gc;
    GcShape(Begin(s), retain, d);
    if RemovesVersions(d) {
      KeepSize(s, retain);
      GcVersions(Begin(s), retain, d);
      var t := Now(Gc(Begin(s), retain, d));
      assert |t.versions| == |t.versions.Keys|;
    }
  }

  /** The entries of a ledger that name an installed version, repeats counted. */
  function Installed(ledger: seq<string>, installed: set<string>): nat {
    if ledger == [] then 0 else (if ledger[0] in installed then 1 else 0) + Installed(ledger[1..], installed)
  }

  lemma {:induction false} InstalledSnoc(ledger: seq<string>, x: string, installed: set<string>)
    ensures Installed(ledger + [x], installed) == Installed(ledger, installed) + if x in installed then 1 else 0
  {
    if ledger == [] {
      assert ledger + [x] == [x] && [x][1..] == [];
    } else {
      assert (ledger + [x])[1..] == ledger[1..] + [x];
      InstalledSnoc(ledger[1..], x, installed);
    }
  }

  predicate NewAt(ledger: seq<string>, installed: set<string>, n: nat, x: string, i: nat) {
    i < |ledger| && ledger[i] == x && x in installed && Installed(ledger[i + 1..], installed) < n
  }

  ghost predicate AmongNewest(ledger: seq<string>, installed: set<string>, n: nat, x: string) {
    exists i: nat :: NewAt(ledger, installed, n, x, i)
  }

  lemma NewAtSnoc(rest: seq<string>, last: string, installed: set<string>, n: nat, x: string, i: nat)
    requires n > 0
    ensures var (ledger, m) := (rest + [last], if last in installed then n - 1 else n);
      if i < |rest| then NewAt(ledger, installed, n, x, i) <==> NewAt(rest, installed, m, x, i)
      else NewAt(ledger, installed, n, x, i) <==> i == |rest| && x == last && last in installed
  {
    var ledger := rest + [last];
    if i < |rest| {
      assert ledger[i + 1..] == rest[i + 1..] + [last];
      InstalledSnoc(rest[i + 1..], last, installed);
    } else if i == |rest| {
      assert ledger[i + 1..] == [];
    }
  }

  /** Kept as new are exactly the installed versions with an entry in the ledger
      that fewer than `n` entries of installed versions follow. */
  lemma {:induction false} NewestExact(ledger: seq<string>, installed: set<string>, n: nat, x: string)
    ensures x in Newest(ledger, installed, n) <==> AmongNewest(ledger, installed, n, x)
    decreases |ledger|
  {
    if ledger != [] && n > 0 {
      var last, rest := ledger[|ledger| - 1], ledger[..|ledger| - 1];
      var m := if last in installed then n - 1 else n;
      assert ledger == rest + [last];
      assert x in Newest(ledger, installed, n)
        <==> x in Newest(rest, installed, m) || (x == last && last in installed);
      hide Newest, NewAt;
      NewestExact(rest, installed, m, x);
      forall i: nat ensures if i < |rest| then NewAt(ledger, installed, n, x, i) <==> NewAt(rest, installed, m, x, i)
        else NewAt(ledger, installed, n, x, i) <==> i == |rest| && x == last && last in installed
      {
        NewAtSnoc(rest, last, installed, n, x, i);
      }
      assert NewAt(ledger, installed, n, x, |rest|) <==> x == last && last in installed;
      forall i: nat ensures NewAt(rest, installed, m, x, i) ==> i < |rest| { InRange(rest, installed, m, x, i); }
    }
  }

  lemma InRange(ledger: seq<string>, installed: set<string>, n: nat, x: string, i: nat)
    ensures NewAt(ledger, installed, n, x, i) ==> i < |ledger|
  {}

  /** Collection, whichever calls fail: a version goes exactly when it is neither
      current nor among the newest and its own removal works, and the ledger loses
      exactly the entries of what is not kept, if it can be rewritten. */
  lemma GcExact(r: Started, retain: nat, d: Disk)
    requires r.ok && Lists(d)
    ensures var (s, t) := (Now(r), Now(Gc(r, retain, d)));
      var keeps := (v: string) =>
        s.current == Some(v) || AmongNewest(s.ledger, s.versions.Keys, if retain < 1 then 1 else retain, v);
      && t.current == s.current
      && (forall v :: v in t.versions <==> v in s.versions && (keeps(v) || !d.works(RemoveVersion(v))))
      && (forall v :: v in t.versions ==> t.versions[v] == s.versions[v])
      && (forall v :: v in t.ledger <==> v in s.ledger && (keeps(v) || !d.works(SavePruned)))
  {
    var s := Now(r);
    var keep, names := KeepSet(s, retain), d.listing(s.versions.Keys);
    forall v ensures v in keep <==>
      (s.current == Some(v) || AmongNewest(s.ledger, s.versions.Keys, if retain < 1 then 1 else retain, v))
    {
      NewestExact(s.ledger, s.versions.Keys, AtLeastOne(retain), v);
    }
    assert forall v :: v in names <==> v in (set n | n in names);
    hide KeepSet, AmongNewest, Gc, Newest;
    GcShape(r, retain, d);
  }

  lemma KeepSize(s: Store, retain: nat)
    requires s.current.Some? ==> s.current.value in s.versions
    ensures KeepSet(s, retain) <= s.versions.Keys && |KeepSet(s, retain)| <= AtLeastOne(retain) + 1
  {
    NewestSize(s.ledger, s.versions.Keys, AtLeastOne(retain));
    hide Newest;
    UnionSize(Newest(s.ledger, s.versions.Keys, AtLeastOne(retain)),
              if s.current.Some? then {s.current.value} else {});
  }

  lemma UnionSize(a: set<string>, b: set<string>)
    ensures |a + b| <= |a| + |b|
  {
    assert a + b == a + (b - a);
    assert |b - a| <= |b| by { assert b == (b - a) + (b * a); }
  }

  // --- The store as a recency list ------------------------------------------

  ghost predicate NoDup(s: seq<string>) {
    forall i, j :: 0 <= i < j < |s| ==> s[i] != s[j]
  }

  function Elems(s: seq<string>): set<string> {
    set x | x in s
  }

  function Last(s: seq<string>, n: nat): seq<string> {
    if |s| <= n then s else s[|s| - n..]
  }

  /** The bounded list: a requested slug moves to the end, the oldest drops out. */
  function Touch(list: seq<string>, slug: string, retain: nat): seq<string> {
    Last(Without(list, slug) + [slug], AtLeastOne(retain))
  }

  /** The store shows exactly this list: as installed versions, as the ledger,
      and with its last entry current. */
  ghost predicate Shows(s: Store, list: seq<string>) {
    && s.ledger == list && NoDup(list)
    && s.versions.Keys == Elems(list)
    && s.current == if list == [] then None else Some(list[|list| - 1])
  }

  lemma {:induction false} WithoutParts(a: seq<string>, b: seq<string>, x: string)
    ensures Without(a + b, x) == Without(a, x) + Without(b, x)
  {
    if a == [] {
      assert a + b == b;
    } else {
      assert (a + b)[1..] == a[1..] + b;
      WithoutParts(a[1..], b, x);
    }
  }

  lemma {:induction false} WithoutDistinct(s: seq<string>, x: string)
    requires NoDup(s)
    ensures NoDup(Without(s, x)) && |Without(s, x)| == if x in s then |s| - 1 else |s|
    ensures x !in s ==> Without(s, x) == s
  {
    if s != [] {
      TailDistinct(s);
      WithoutDistinct(s[1..], x);
      assert s == [s[0]] + s[1..];
      hide NoDup;
      if s[0] != x { ConsDistinct(s[0], Without(s[1..], x)); }
    }
  }

  lemma TailDistinct(s: seq<string>)
    requires s != [] && NoDup(s)
    ensures NoDup(s[1..]) && s[0] !in s[1..]
  {
    assert forall i :: 0 <= i < |s| - 1 ==> s[1..][i] == s[i + 1];
  }

  lemma ConsDistinct(x: string, s: seq<string>)
    requires NoDup(s) && x !in s
    ensures NoDup([x] + s)
  {}

  lemma TouchedDistinct(list: seq<string>, slug: string)
    requires NoDup(list)
    ensures NoDup(Without(list, slug) + [slug])
    ensures |Without(list, slug) + [slug]| <= |list| + 1
  {
    WithoutDistinct(list, slug);
    var w := Without(list, slug);
    assert forall i :: 0 <= i < |w| ==> w[i] in w;
  }

  lemma LastDistinct(s: seq<string>, n: nat)
    requires NoDup(s)
    ensures NoDup(Last(s, n)) && |Last(s, n)| <= n
  {}

  lemma {:induction false} NewestOfAll(ledger: seq<string>, installed: set<string>, n: nat)
    requires forall x :: x in ledger ==> x in installed
    ensures Newest(ledger, installed, n) == Elems(Last(ledger, n))
  {
    hide *;
    if n == 0 || ledger == [] {
      NewestOfNone(ledger, installed, n);
    } else {
      var last, rest := ledger[|ledger| - 1], ledger[..|ledger| - 1];
      assert ledger == rest + [last];
      NewestSnoc(rest, last, installed, n);
      NewestOfAll(rest, installed, n - 1);
      LastSnoc(rest, last, n);
      ElemsSnoc(Last(rest, n - 1), last);
    }
  }

  lemma NewestOfNone(ledger: seq<string>, installed: set<string>, n: nat)
    requires n == 0 || ledger == []
    ensures Newest(ledger, installed, n) == {} == Elems(Last(ledger, n))
  {
    assert Last(ledger, n) == [];
  }

  lemma NewestSnoc(rest: seq<string>, last: string, installed: set<string>, n: nat)
    requires n > 0 && last in installed
    ensures Newest(rest + [last], installed, n) == Newest(rest, installed, n - 1) + {last}
  {
    assert (rest + [last])[..|rest|] == rest;
  }

  lemma LastSnoc(s: seq<string>, x: string, n: nat)
    requires n > 0
    ensures Last(s + [x], n) == Last(s, n - 1) + [x]
  {}

  lemma ElemsSnoc(s: seq<string>, x: string)
    ensures Elems(s + [x]) == Elems(s) + {x}
  {}

  lemma {:induction false} RetainedAll(ledger: seq<string>, keep: set<string>)
    requires forall x :: x in ledger ==> x in keep
    ensures Retained(ledger, keep) == ledger
  {
    if ledger != [] { RetainedAll(ledger[1..], keep); }
  }

  lemma {:induction false} RetainedLast(ledger: seq<string>, n: nat)
    requires NoDup(ledger)
    ensures Retained(ledger, Elems(Last(ledger, n))) == Last(ledger, n)
    decreases |ledger|
  {
    var keep := Elems(Last(ledger, n));
    if |ledger| <= n {
      RetainedAll(ledger, keep);
    } else {
      assert forall i :: 0 <= i < |ledger| - 1 ==> ledger[1..][i] == ledger[i + 1];
      assert Last(ledger[1..], n) == Last(ledger, n);
      assert ledger[0] !in keep by {
        assert forall i :: 0 <= i < n ==> Last(ledger, n)[i] == ledger[|ledger| - n + i];
      }
      RetainedLast(ledger[1..], n);
    }
  }

  /** Once the new slug is last in the ledger and current, collection leaves
      exactly the newest entries if it can rewrite a ledger that is too long; if it
      cannot, the ledger keeps entries of versions that are gone. */
  lemma GcKeepsNewest(r: Started, list: seq<string>, retain: nat, d: Disk)
    requires r.ok && RemovesVersions(d) && Lists(d) && Shows(Now(r), list) && list != []
    ensures var t := Now(Gc(r, retain, d));
      if |list| <= AtLeastOne(retain) || d.works(SavePruned) then Shows(t, Last(list, AtLeastOne(retain)))
      else !ShowsAny(t)
  {
    hide Newest, Retained, KeepSet, Gc, Elems;
    var s, n := Now(r), AtLeastOne(retain);
    KeepIsNewest(s, list, retain);
    RetainedLast(list, n);
    LastDistinct(list, n);
    GcVersions(r, retain, d);
    GcShape(r, retain, d);
    hide RemovesVersions, Lists, NoDup;
    if |list| > n && !d.works(SavePruned) { OldestGone(list, n); }
  }

  lemma KeepIsNewest(s: Store, list: seq<string>, retain: nat)
    requires Shows(s, list) && list != []
    ensures var last := Last(list, AtLeastOne(retain));
      && KeepSet(s, retain) == Elems(last) <= s.versions.Keys
      && last != [] && last[|last| - 1] == list[|list| - 1]
  {
    var n := AtLeastOne(retain);
    var last := Last(list, n);
    NewestOfAll(list, s.versions.Keys, n);
    hide Newest, NoDup;
    assert last[|last| - 1] == list[|list| - 1] && list[|list| - 1] in last;
    assert forall i :: 0 <= i < |last| ==> last[i] in list;
  }

  lemma OldestGone(list: seq<string>, n: nat)
    requires NoDup(list) && |list| > n
    ensures Elems(Last(list, n)) != Elems(list)
  {
    var last := Last(list, n);
    assert list[0] in Elems(list);
    assert forall i :: 0 <= i < n ==> last[i] == list[|list| - n + i];
  }

  // --- One install, whichever calls fail ------------------------------------

  ghost predicate ShowsAny(s: Store) {
    exists list :: Shows(s, list)
  }

  predicate FlipWorks(s: Store, d: Disk) {
    && d.works(MakeNameDir) && (d.works(RemoveTmpLink) || s.tmpLink.None?)
    && d.works(MakeTmpLink) && d.works(RenameLink)
  }

  /** A new version is built, complete, and renamed into place. */
  predicate Placed(s: Store, slug: string, b: Build, outBins: Files, d: Disk) {
    && slug !in s.versions && d.works(MakeStage) && b.ok && HasBins(Stale(s, slug, d) + b.files, outBins)
    && d.works(RenameStage)
  }

  /** The request gets as far as switching to a slug that is not current. */
  predicate Activates(s: Store, b: Build, outBins: Files, d: Disk) {
    && Resolved(b) && d.works(MakeNameDir)
    && var slug := Slug(b.commit.value);
       s.current != Some(slug) && (slug in s.versions || Placed(s, slug, b, outBins, d))
  }

  /** The request does not stop between the parts of a change: after placing a new
      version, after the flip, or before a ledger that is too long is rewritten. */
  predicate Whole(s: Store, b: Build, outBins: Files, retain: nat, d: Disk) {
    Activates(s, b, outBins, d) ==>
      var slug := Slug(b.commit.value);
      if FlipWorks(s, d) then
        d.works(SaveLedger) && (|Without(s.ledger, slug)| < AtLeastOne(retain) || d.works(SavePruned))
      else slug in s.versions
  }

  /** The request ends with its slug current. */
  predicate Delivers(s: Store, b: Build, outBins: Files, d: Disk) {
    && Resolved(b) && d.works(MakeNameDir)
    && (s.current == Some(Slug(b.commit.value)) || (Activates(s, b, outBins, d) && FlipWorks(s, d)))
  }

  function Staged(s: Store, slug: string): Files {
    if slug in s.stages then s.stages[slug] else {}
  }

  lemma ClearExact(s: Store, slug: string, d: Disk)
    ensures var q := ClearStage(Begin(s), slug, d);
      && q.ok && Now(q) == s.(stages := Now(q).stages)
      && Staged(Now(q), slug) == Stale(s, slug, d)
  {}

  lemma FillExact(r: Started, slug: string, b: Build, outBins: Files, d: Disk)
    requires r.ok
    ensures var q := FillStage(r, slug, b, outBins, d);
      && (q.ok <==> d.works(MakeStage) && b.ok && HasBins(Staged(Now(r), slug) + b.files, outBins))
      && (q.ok ==> slug in Now(q).stages && Now(q).stages[slug] == Staged(Now(r), slug) + b.files)
      && Now(q) == Now(r).(stages := Now(q).stages)
  {
    hide HasBins;
  }

  lemma StageExact(s: Store, slug: string, b: Build, outBins: Files, d: Disk)
    ensures var q := Stage(Begin(s), slug, b, outBins, d);
      && (q.ok <==> d.works(MakeStage) && b.ok && HasBins(Stale(s, slug, d) + b.files, outBins))
      && (q.ok ==> slug in Now(q).stages && Now(q).stages[slug] == Stale(s, slug, d) + b.files)
      && SameVisible(Now(q), s) && Now(q).tmpLink == s.tmpLink
  {
    hide HasBins, ClearStage, FillStage, Staged, Stale;
    ClearExact(s, slug, d);
    FillExact(ClearStage(Begin(s), slug, d), slug, b, outBins, d);
  }

  lemma CompileExact(s: Store, slug: string, b: Build, outBins: Files, d: Disk)
    requires slug !in s.versions
    ensures var r := Compile(Begin(s), slug, b, outBins, d);
      && (r.ok <==> Placed(s, slug, b, outBins, d))
      && Now(r).ledger == s.ledger && Now(r).current == s.current && Now(r).tmpLink == s.tmpLink
      && Now(r).versions.Keys == s.versions.Keys + (if r.ok then {slug} else {})
      && (r.ok ==> Now(r).versions == s.versions[slug := Stale(s, slug, d) + b.files])
  {
    StageExact(s, slug, b, outBins, d);
    hide HasBins, Stage, Stale;
    assert s.versions - {slug} == s.versions;
    assert s.versions.Keys + {} == s.versions.Keys;
  }

  lemma FlipExact(r: Started, slug: string, d: Disk)
    requires r.ok
    ensures var q := FlipCurrent(r, slug, d);
      && (q.ok <==> FlipWorks(Now(r), d))
      && Now(q).versions == Now(r).versions && Now(q).ledger == Now(r).ledger
      && Now(q).current == if q.ok then Some(slug) else Now(r).current
  {}

  /** `current` is switched in one step, by renaming a finished link over it; what a
      flip that fails can leave behind is that link. */
  lemma FlipPasses(r: Started, slug: string, d: Disk)
    requires r.ok
    ensures var (q, s) := (FlipCurrent(r, slug, d), Now(r));
      && r.past <= q.past
      && (q.ok ==> |q.past| >= |r.past| + 2
                   && q.past[|q.past| - 2] == s.(tmpLink := Some(slug))
                   && Now(q) == s.(tmpLink := None, current := Some(slug)))
      && (forall i :: |r.past| <= i < |q.past| - (if q.ok then 1 else 0) ==>
            q.past[i] == s.(tmpLink := q.past[i].tmpLink) && q.past[i].tmpLink in {None, Some(slug)})
    ensures var (q, s) := (FlipCurrent(r, slug, d), Now(r));
      var blocked := !d.works(MakeNameDir) || (s.tmpLink.Some? && !d.works(RemoveTmpLink));
      q.ok || Now(q).tmpLink == if blocked then s.tmpLink else if d.works(MakeTmpLink) then Some(slug) else None
  {}

  /** A build is filled into a staging directory and nowhere else; one that fails
      leaves it only if it cannot be dropped. */
  lemma FillPasses(r: Started, slug: string, b: Build, outBins: Files, d: Disk)
    requires r.ok
    ensures var (q, s) := (FillStage(r, slug, b, outBins, d), Now(r));
      var filled := s.stages[slug := (if slug in s.stages then s.stages[slug] else {}) + b.files];
      if !d.works(MakeStage) then q == Fail(r)
      else |q.past| > |r.past| && q.past[..|r.past| + 1] == r.past + [s.(stages := filled)]
           && Now(q).stages == if q.ok || !d.works(DropStage) then filled else s.stages - {slug}
  {
    hide HasBins;
  }

  /** A staged build replaces whatever is left under its name, or else only takes the
      leftover away. */
  lemma PlaceExact(r: Started, slug: string, d: Disk)
    requires r.ok && slug in Now(r).stages
    ensures var (q, s) := (Place(r, slug, d), Now(r));
      && (q.ok <==> d.works(RenameStage) && (slug !in s.versions || d.works(RemoveLeftover)))
      && Now(q).current == s.current && Now(q).ledger == s.ledger
      && Now(q).versions == (if q.ok then s.versions[slug := s.stages[slug]]
                             else if d.works(RemoveLeftover) then s.versions - {slug} else s.versions)
      && Now(q).stages == (if q.ok then s.stages - {slug} else s.stages)
      && (q.ok && d.works(RemoveLeftover) ==> s.(versions := s.versions - {slug}) in q.past)
  {
    var q, s := Place(r, slug, d), Now(r);
    if d.works(RemoveLeftover) {
      assert s.versions[slug := s.stages[slug]] == (s.versions - {slug})[slug := s.stages[slug]];
      assert q.past[|r.past|] == s.(versions := s.versions - {slug});
    }
  }

  /** Activation ends in a store that shows a list if and only if it does not stop
      half way; it then shows the slug moved to the end, or the old list. */
  lemma ActivateShows(r: Started, list: seq<string>, slug: string, retain: nat, d: Disk)
    requires r.ok && RemovesVersions(d) && Lists(d) && NoDup(list)
    requires Now(r).ledger == list && Now(r).versions.Keys == Elems(list) + {slug}
    requires Now(r).current == (if list == [] then None else Some(list[|list| - 1])) && Now(r).current != Some(slug)
    ensures var t := Now(Activate(r, slug, retain, d));
      if FlipWorks(Now(r), d) then
        if d.works(SaveLedger) && (|Without(list, slug)| < AtLeastOne(retain) || d.works(SavePruned))
        then Shows(t, Touch(list, slug, retain)) else !ShowsAny(t)
      else if slug in list then Shows(t, list) else !ShowsAny(t)
  {
    hide Gc, FlipWorks;
    FlipExact(r, slug, d);
    var f := FlipCurrent(r, slug, d);
    hide FlipCurrent;
    if !f.ok {
      ActivateStopped(f, slug, retain, d);
      assert slug in list ==> Elems(list) + {slug} == Elems(list);
      assert slug !in list ==> slug in Elems(list) + {slug} && slug !in Elems(list);
    } else if d.works(SaveLedger) {
      var w := Without(list, slug);
      TouchedDistinct(list, slug);
      ElemsSnoc(w, slug);
      assert Elems(w) + {slug} == Elems(list) + {slug};
      assert |w + [slug]| == |w| + 1;
      var t := LedgerTouch(f, slug, d);
      GcKeepsNewest(t, w + [slug], retain, d);
    } else {
      StoppedStays(slug, retain, d);
    }
  }

  /** Which way an install goes: nothing, a switch, or a build and a switch. */
  lemma InstallRoute(s: Store, b: Build, outBins: Files, retain: nat, d: Disk)
    requires Resolved(b) && Slug(b.commit.value) in s.versions ==> HasBins(s.versions[Slug(b.commit.value)], outBins)
    ensures !Resolved(b) || !d.works(MakeNameDir) ==> Install(s, b, outBins, retain, d) == Fail(Begin(s))
    ensures Resolved(b) && d.works(MakeNameDir) ==>
      var slug := Slug(b.commit.value);
      Install(s, b, outBins, retain, d)
      == if slug in s.versions then
           if s.current == Some(slug) then Begin(s) else Activate(Begin(s), slug, retain, d)
         else Activate(Compile(Begin(s), slug, b, outBins, d), slug, retain, d)
  {
    hide Slug, HasBins, Activate, Compile;
  }

  /** From a store that shows a list, one install, whichever of its calls fail as
      long as version removals work, ends in a store that shows a list if and only
      if it does not stop half way. It then shows its slug moved to the end if it
      switched to it, and the same list if not. */
  lemma InstallShowsExact(s: Store, list: seq<string>, b: Build, outBins: Files, retain: nat, d: Disk)
    requires Shows(s, list) && Sane(s, outBins) && Lists(d) && RemovesVersions(d)
    ensures var t := Now(Install(s, b, outBins, retain, d));
      && (ShowsAny(t) <==> Whole(s, b, outBins, retain, d))
      && (Whole(s, b, outBins, retain, d) ==>
            Shows(t, if Activates(s, b, outBins, d) && FlipWorks(s, d)
                     then Touch(list, Slug(b.commit.value), retain) else list))
  {
    SaneRoute(s, b, outBins);
    SameLedger(s, list);
    hide *;
    InstallRoute(s, b, outBins, retain, d);
    if !Resolved(b) || !d.works(MakeNameDir) || s.current == Some(Slug(b.commit.value)) {
      NothingToDo(s, b, outBins, retain, d);
      NowOfBegin(s);
    } else {
      var slug := Slug(b.commit.value);
      WholeRoute(s, slug, b, outBins, retain, d);
      if slug in s.versions {
        SwitchShows(s, list, slug, retain, d);
      } else {
        BuildShows(s, list, slug, b, outBins, retain, d);
      }
    }
  }

  lemma SaneRoute(s: Store, b: Build, outBins: Files)
    requires Sane(s, outBins)
    ensures s.current.Some? ==> s.current.value in s.versions
    ensures Resolved(b) && Slug(b.commit.value) in s.versions ==> HasBins(s.versions[Slug(b.commit.value)], outBins)
  {
    hide Slug, HasBins, PlainName;
  }

  lemma SameLedger(s: Store, list: seq<string>)
    requires Shows(s, list)
    ensures s.ledger == list && ShowsAny(s)
  {}

  lemma NowOfBegin(s: Store)
    ensures Now(Begin(s)) == s && Now(Fail(Begin(s))) == s
  {}

  lemma NothingToDo(s: Store, b: Build, outBins: Files, retain: nat, d: Disk)
    requires !Resolved(b) || !d.works(MakeNameDir) || s.current == Some(Slug(b.commit.value))
    ensures !Activates(s, b, outBins, d) && Whole(s, b, outBins, retain, d)
  {
    hide Slug, Placed, FlipWorks;
  }

  lemma WholeRoute(s: Store, slug: string, b: Build, outBins: Files, retain: nat, d: Disk)
    requires Resolved(b) && d.works(MakeNameDir) && slug == Slug(b.commit.value) && s.current != Some(slug)
    ensures Activates(s, b, outBins, d) <==> slug in s.versions || Placed(s, slug, b, outBins, d)
    ensures Whole(s, b, outBins, retain, d) <==>
      (Activates(s, b, outBins, d) ==>
         if FlipWorks(s, d) then
           d.works(SaveLedger) && (|Without(s.ledger, slug)| < AtLeastOne(retain) || d.works(SavePruned))
         else slug in s.versions)
  {
    hide Slug, Placed, FlipWorks, Without;
  }

  lemma SwitchShows(s: Store, list: seq<string>, slug: string, retain: nat, d: Disk)
    requires Shows(s, list) && Lists(d) && RemovesVersions(d) && slug in s.versions && s.current != Some(slug)
    ensures var t := Now(Activate(Begin(s), slug, retain, d));
      if FlipWorks(s, d) then
        if d.works(SaveLedger) && (|Without(s.ledger, slug)| < AtLeastOne(retain) || d.works(SavePruned))
        then Shows(t, Touch(list, slug, retain)) && ShowsAny(t) else !ShowsAny(t)
      else Shows(t, list) && ShowsAny(t)
  {
    hide FlipWorks, Activate, Touch, Lists, RemovesVersions;
    assert slug in Elems(list) && Elems(list) + {slug} == Elems(list);
    ActivateShows(Begin(s), list, slug, retain, d);
  }

  lemma BuildShows(s: Store, list: seq<string>, slug: string, b: Build, outBins: Files, retain: nat, d: Disk)
    requires Shows(s, list) && Lists(d) && RemovesVersions(d) && slug !in s.versions && s.current != Some(slug)
    ensures var t := Now(Activate(Compile(Begin(s), slug, b, outBins, d), slug, retain, d));
      if !Placed(s, slug, b, outBins, d) then Shows(t, list) && ShowsAny(t)
      else if FlipWorks(s, d) then
        if d.works(SaveLedger) && (|Without(s.ledger, slug)| < AtLeastOne(retain) || d.works(SavePruned))
        then Shows(t, Touch(list, slug, retain)) && ShowsAny(t) else !ShowsAny(t)
      else !ShowsAny(t)
  {
    hide FlipWorks, Activate, Compile, Touch, Placed, Lists, RemovesVersions;
    var r := Compile(Begin(s), slug, b, outBins, d);
    CompileExact(s, slug, b, outBins, d);
    SameFlip(s, Now(r), d);
    assert slug !in list by { assert slug !in Elems(list); }
    if r.ok {
      ActivateShows(r, list, slug, retain, d);
    } else {
      ActivateStopped(r, slug, retain, d);
      assert Elems(list) + {} == Elems(list);
      assert Shows(Now(r), list);
    }
  }

  lemma SameFlip(s: Store, t: Store, d: Disk)
    requires s.tmpLink == t.tmpLink
    ensures FlipWorks(s, d) == FlipWorks(t, d)
  {}

  /** With retention three and only `x` installed, the ledger save of `y` fails;
      installing `z` then removes `y`, although only two versions were there. */
  lemma LostLedgerSaveDropsVersion(s: Store, x: string, y: Build, z: Build, bins: Files, bad: Disk, good: Disk)
    requires s.versions.Keys == {x} && s.ledger == [x] && s.current == Some(x)
    requires Resolved(y) && Resolved(z) && y.ok && z.ok && y.files == bins && z.files == bins
    requires x != Slug(y.commit.value) && x != Slug(z.commit.value) && Slug(y.commit.value) != Slug(z.commit.value)
    requires Lists(bad) && Lists(good) && AllWork(good) && forall c :: bad.works(c) <==> c != SaveLedger
    ensures var t := Now(Install(s, y, bins, 3, bad));
      var u := Now(Install(t, z, bins, 3, good));
      && t.versions.Keys == {x, Slug(y.commit.value)} && t.ledger == [x] && t.current == Some(Slug(y.commit.value))
      && u.versions.Keys == {x, Slug(z.commit.value)}
  {
    DisksPlace(bad, good);
    hide *;
    OneThenTwo(s, x, Slug(y.commit.value));
    SaveLost(s, y, bins, bad);
    SaveWorks(Now(Install(s, y, bins, 3, bad)), x, Slug(y.commit.value), z, bins, good);
  }

  lemma DisksPlace(bad: Disk, good: Disk)
    requires AllWork(good) && forall c :: bad.works(c) <==> c != SaveLedger
    ensures PlacingWorks(bad) && !bad.works(SaveLedger)
    ensures PlacingWorks(good) && good.works(SaveLedger) && RemovesVersions(good)
  {}

  lemma OneThenTwo(s: Store, x: string, y: string)
    requires s.versions.Keys == {x} && x != y
    ensures s.versions.Keys + {y} == {x, y} && y !in s.versions
  {}

  lemma TwoThenThree(x: string, y: string, z: string)
    ensures {x, y} + {z} == {x, y, z}
  {}

  lemma SaveLost(s: Store, y: Build, bins: Files, d: Disk)
    requires Resolved(y) && y.ok && y.files == bins && Slug(y.commit.value) !in s.versions
    requires PlacingWorks(d) && !d.works(SaveLedger)
    ensures var t := Now(Install(s, y, bins, 3, d));
      && t.versions.Keys == s.versions.Keys + {Slug(y.commit.value)}
      && t.ledger == s.ledger && t.current == Some(Slug(y.commit.value))
  {
    var slug := Slug(y.commit.value);
    hide *;
    var f := NewBuildFlips(s, y, bins, 3, d);
    NotSaved(f, slug, 3, d);
  }

  lemma NotSaved(f: Started, slug: string, retain: nat, d: Disk)
    requires f.ok && !d.works(SaveLedger)
    ensures Now(Gc(LedgerTouch(f, slug, d), retain, d)) == Now(f)
  {}

  lemma SaveWorks(t: Store, x: string, y: string, z: Build, bins: Files, d: Disk)
    requires Resolved(z) && z.ok && z.files == bins && x != y && x != Slug(z.commit.value) && y != Slug(z.commit.value)
    requires t.versions.Keys == {x, y} && t.ledger == [x]
    requires PlacingWorks(d) && d.works(SaveLedger) && RemovesVersions(d) && Lists(d)
    ensures Now(Install(t, z, bins, 3, d)).versions.Keys == {x, Slug(z.commit.value)}
  {
    var slug := Slug(z.commit.value);
    hide *;
    NotAmong(t, x, y, slug);
    var f := NewBuildFlips(t, z, bins, 3, d);
    TwoThenThree(x, y, slug);
    CollectsUnlisted(f, x, y, slug, d);
  }

  lemma NotAmong(t: Store, x: string, y: string, z: string)
    requires t.versions.Keys == {x, y} && x != z && y != z
    ensures z !in t.versions
  {}

  /** The calls from the staging directory to the flip. */
  predicate PlacingWorks(d: Disk) {
    && d.works(MakeNameDir) && d.works(MakeStage) && d.works(RenameStage)
    && d.works(RemoveTmpLink) && d.works(MakeTmpLink) && d.works(RenameLink)
  }

  lemma NewBuildFlips(s: Store, b: Build, bins: Files, retain: nat, d: Disk) returns (f: Started)
    requires Resolved(b) && b.ok && bins <= b.files && Slug(b.commit.value) !in s.versions
    requires PlacingWorks(d)
    ensures var slug := Slug(b.commit.value);
      && f.ok && Now(f).versions.Keys == s.versions.Keys + {slug}
      && slug in Now(f).versions && Now(f).versions[slug] == Stale(s, slug, d) + b.files
      && Now(f).ledger == s.ledger && Now(f).current == Some(slug)
      && Install(s, b, bins, retain, d) == Gc(LedgerTouch(f, slug, d), retain, d)
  {
    var slug := Slug(b.commit.value);
    var r := Compile(Begin(s), slug, b, bins, d);
    f := FlipCurrent(r, slug, d);
    CompileExact(s, slug, b, bins, d);
    InstallRoute(s, b, bins, retain, d);
    assert Placed(s, slug, b, bins, d) && FlipWorks(Now(r), d);
    FlipExact(r, slug, d);
    hide Slug, Compile, FlipCurrent, Gc, LedgerTouch, Placed, FlipWorks, Install, HasBins;
  }

  /** A version missing from the ledger goes at the next collection. */
  lemma CollectsUnlisted(f: Started, x: string, y: string, z: string, d: Disk)
    requires f.ok && d.works(SaveLedger) && RemovesVersions(d) && Lists(d) && x != y && x != z && y != z
    requires Now(f).versions.Keys == {x, y, z} && Now(f).ledger == [x] && Now(f).current == Some(z)
    ensures Now(Gc(LedgerTouch(f, z, d), 3, d)).versions.Keys == {x, z}
  {
    var t := LedgerTouch(f, z, d);
    assert [x][1..] == [] && Without([x], z) == [x] && [x] + [z] == [x, z];
    assert [x, z][..1] == [x] && [x][..0] == [];
    assert Newest([x, z], {x, y, z}, 3) == {z} + Newest([x], {x, y, z}, 2);
    assert Newest([x], {x, y, z}, 2) == {x} + Newest([], {x, y, z}, 1);
    hide Gc, Newest;
    assert KeepSet(Now(t), 3) == {x, z};
    GcVersions(t, 3, d);
  }

  lemma LastAlreadyThere(list: seq<string>, slug: string)
    requires NoDup(list) && list != [] && list[|list| - 1] == slug
    ensures Without(list, slug) + [slug] == list
  {
    var init := list[..|list| - 1];
    assert list == init + [slug] && slug !in init && NoDup(init);
    assert [slug][1..] == [] && Without([slug], slug) == [];
    hide Without, NoDup;
    WithoutParts(init, [slug], slug);
    WithoutDistinct(init, slug);
    assert init + [] == init;
  }

  // --- Requests and the list ------------------------------------------------

  /** The distinct slugs of a request sequence, in order of last request. */
  function Recency(reqs: seq<string>): (r: seq<string>)
    ensures forall x :: x in r <==> x in reqs
  {
    if reqs == [] then []
    else if reqs[0] in reqs[1..] then Recency(reqs[1..])
    else [reqs[0]] + Recency(reqs[1..])
  }

  lemma {:induction false} RecencyDistinct(reqs: seq<string>)
    ensures NoDup(Recency(reqs))
  {
    if reqs != [] {
      RecencyDistinct(reqs[1..]);
      var r := Recency(reqs[1..]);
      assert forall i :: 0 <= i < |r| ==> r[i] in r;
    }
  }

  lemma {:induction false} RecencyAppend(reqs: seq<string>, x: string)
    ensures Recency(reqs + [x]) == Without(Recency(reqs), x) + [x]
  {
    if reqs == [] {
      assert reqs + [x] == [x] && Recency([x]) == [x];
    } else {
      var all := reqs + [x];
      assert all[1..] == reqs[1..] + [x] && all[0] == reqs[0];
      RecencyAppend(reqs[1..], x);
    }
  }

  /** Forgetting all but the last `n` before a touch makes no difference. */
  lemma TouchOfLast(list: seq<string>, x: string, retain: nat)
    requires NoDup(list)
    ensures Touch(Last(list, AtLeastOne(retain)), x, retain)
         == Last(Without(list, x) + [x], AtLeastOne(retain))
  {
    var n := AtLeastOne(retain);
    if |list| > n {
      WithoutLast(list[..|list| - n], list[|list| - n..], list, x);
      LastOfLonger(Without(list[..|list| - n], x), Without(list[|list| - n..], x), x, n);
    }
  }

  lemma WithoutLast(a: seq<string>, b: seq<string>, list: seq<string>, x: string)
    requires NoDup(list) && list == a + b
    ensures Without(list, x) == Without(a, x) + Without(b, x) && |Without(b, x)| >= |b| - 1
  {
    WithoutParts(a, b, x);
    SplitDistinct(a, b, x);
    WithoutDistinct(b, x);
  }

  lemma SplitDistinct(a: seq<string>, b: seq<string>, x: string)
    requires NoDup(a + b)
    ensures NoDup(a) && NoDup(b) && (x in b ==> x !in a)
  {
    var s := a + b;
    assert forall i :: 0 <= i < |a| ==> s[i] == a[i];
    assert forall i :: 0 <= i < |b| ==> s[|a| + i] == b[i];
  }

  lemma LastOfLonger(front: seq<string>, back: seq<string>, x: string, n: nat)
    requires |back| + 1 >= n
    ensures Last(front + back + [x], n) == Last(back + [x], n)
  {}

  const EMPTY := Store(map[], map[], None, None, [])

  /** A request, and what the disk does while it runs. */
  datatype Request = Request(build: Build, disk: Disk)

  ghost predicate Proper(q: Request, retain: nat) {
    Lists(q.disk) && RemovesVersions(q.disk) && PlainOp(InstallOp(q.build, retain))
  }

  function Installs(reqs: seq<Request>, outBins: Files, retain: nat): Store
    decreases |reqs|
  {
    if reqs == [] then EMPTY
    else
      var q := reqs[|reqs| - 1];
      Now(Install(Installs(reqs[..|reqs| - 1], outBins, retain), q.build, outBins, retain, q.disk))
  }

  /** The slugs of the delivered requests, in order. */
  function Delivered(reqs: seq<Request>, outBins: Files, retain: nat): seq<string> {
    if reqs == [] then []
    else
      var init, q := reqs[..|reqs| - 1], reqs[|reqs| - 1];
      Delivered(init, outBins, retain) + Gain(Installs(init, outBins, retain), q, outBins)
  }

  predicate AllWhole(reqs: seq<Request>, outBins: Files, retain: nat) {
    reqs == []
    || (AllWhole(reqs[..|reqs| - 1], outBins, retain)
        && var q := reqs[|reqs| - 1];
           Whole(Installs(reqs[..|reqs| - 1], outBins, retain), q.build, outBins, retain, q.disk))
  }

  ghost predicate AlwaysShows(reqs: seq<Request>, outBins: Files, retain: nat) {
    ShowsAny(Installs(reqs, outBins, retain))
    && (reqs == [] || AlwaysShows(reqs[..|reqs| - 1], outBins, retain))
  }

  /** Over any run of requests, of which any may not resolve, fail or lack a binary,
      and any of whose calls but version removals may fail: after every request the
      store shows a list if and only if none stopped half way. The list is then
      exactly the last max(r, 1) distinct slugs among the delivered ones:
      installed, in the ledger, the newest current. */
  lemma {:induction false} InstallsAreLru(reqs: seq<Request>, outBins: Files, retain: nat)
    requires forall i :: 0 <= i < |reqs| ==> Proper(reqs[i], retain)
    ensures AlwaysShows(reqs, outBins, retain) <==> AllWhole(reqs, outBins, retain)
    ensures Sane(Installs(reqs, outBins, retain), outBins)
    ensures AllWhole(reqs, outBins, retain) ==>
      Shows(Installs(reqs, outBins, retain), Last(Recency(Delivered(reqs, outBins, retain)), AtLeastOne(retain)))
    decreases |reqs|
  {
    hide Proper, Install, Gain, Whole, Sane, Recency, Shows;
    if reqs == [] {
      EmptyShowsNothing(outBins, retain);
    } else {
      var init, q := reqs[..|reqs| - 1], reqs[|reqs| - 1];
      InstallsAreLru(init, outBins, retain);
      StaysSane(Installs(init, outBins, retain), q, outBins, retain);
      if AllWhole(init, outBins, retain) {
        var done := Delivered(init, outBins, retain);
        OneMoreRequest(Installs(init, outBins, retain), done, q, outBins, retain);
      }
    }
  }

  lemma EmptyShowsNothing(outBins: Files, retain: nat)
    ensures Sane(EMPTY, outBins) && Shows(EMPTY, Last(Recency([]), AtLeastOne(retain)))
  {}

  lemma StaysSane(s: Store, q: Request, outBins: Files, retain: nat)
    requires Sane(s, outBins) && Proper(q, retain)
    ensures Sane(Now(Install(s, q.build, outBins, retain, q.disk)), outBins)
  {
    hide Sane, Install, PlainOp;
    EveryStepSane(s, InstallOp(q.build, retain), outBins, q.disk);
  }

  lemma OneMoreRequest(s: Store, slugs: seq<string>, q: Request, outBins: Files, retain: nat)
    requires Proper(q, retain) && Sane(s, outBins)
    requires Shows(s, Last(Recency(slugs), AtLeastOne(retain)))
    ensures var t := Now(Install(s, q.build, outBins, retain, q.disk));
      && (ShowsAny(t) <==> Whole(s, q.build, outBins, retain, q.disk))
      && (Whole(s, q.build, outBins, retain, q.disk) ==>
            Shows(t, Last(Recency(slugs + Gain(s, q, outBins)), AtLeastOne(retain))))
  {
    assert Lists(q.disk) && RemovesVersions(q.disk);
    hide *;
    var list := Last(Recency(slugs), AtLeastOne(retain));
    InstallShowsExact(s, list, q.build, outBins, retain, q.disk);
    GainTouches(s, slugs, q, outBins, retain);
  }

  /** What a request adds to the delivered slugs. */
  function Gain(s: Store, q: Request, outBins: Files): seq<string> {
    if Delivers(s, q.build, outBins, q.disk) then [Slug(q.build.commit.value)] else []
  }

  /** In the list, a gain is the touch that a switch makes, or none where the slug
      was current already. */
  lemma GainTouches(s: Store, slugs: seq<string>, q: Request, outBins: Files, retain: nat)
    requires Shows(s, Last(Recency(slugs), AtLeastOne(retain)))
    ensures var list := Last(Recency(slugs), AtLeastOne(retain));
      Last(Recency(slugs + Gain(s, q, outBins)), AtLeastOne(retain))
      == if Activates(s, q.build, outBins, q.disk) && FlipWorks(s, q.disk)
         then Touch(list, Slug(q.build.commit.value), retain) else list
  {
    DeliversExact(s, q.build, outBins, q.disk);
    hide Delivers, Activates, FlipWorks, Recency, Touch, Last, Slug, Shows;
    if Delivers(s, q.build, outBins, q.disk) {
      var slug := Slug(q.build.commit.value);
      TouchRecent(slugs, slug, retain);
      CurrentIsLast(s, Last(Recency(slugs), AtLeastOne(retain)), slug);
      if s.current == Some(slug) { TouchLast(slugs, slug, retain); }
    } else {
      assert slugs + [] == slugs;
    }
  }

  lemma DeliversExact(s: Store, b: Build, outBins: Files, d: Disk)
    ensures Delivers(s, b, outBins, d) ==> Resolved(b)
    ensures Activates(s, b, outBins, d) && FlipWorks(s, d)
       <==> Delivers(s, b, outBins, d) && s.current != Some(Slug(b.commit.value))
  {
    hide Slug, FlipWorks, Placed;
  }

  lemma CurrentIsLast(s: Store, list: seq<string>, slug: string)
    requires Shows(s, list)
    ensures s.current == Some(slug) ==> list != [] && list[|list| - 1] == slug
  {}

  lemma TouchRecent(slugs: seq<string>, slug: string, retain: nat)
    ensures var n := AtLeastOne(retain);
      Touch(Last(Recency(slugs), n), slug, retain) == Last(Recency(slugs + [slug]), n)
  {
    hide Recency;
    RecencyDistinct(slugs);
    TouchOfLast(Recency(slugs), slug, retain);
    RecencyAppend(slugs, slug);
  }

  /** Touching what is last already changes nothing. */
  lemma TouchLast(slugs: seq<string>, slug: string, retain: nat)
    requires var list := Last(Recency(slugs), AtLeastOne(retain)); list != [] && list[|list| - 1] == slug
    ensures var list := Last(Recency(slugs), AtLeastOne(retain)); Touch(list, slug, retain) == list
  {
    hide Recency;
    var n := AtLeastOne(retain);
    RecencyDistinct(slugs);
    LastDistinct(Recency(slugs), n);
    LastAlreadyThere(Last(Recency(slugs), n), slug);
  }

  /** On a disk where every call works no request stops half way, and those that
      resolve are delivered if they are installed or their build is complete. */
  lemma WorkingDiskIsWhole(s: Store, b: Build, outBins: Files, retain: nat, d: Disk)
    requires AllWork(d) && Sane(s, outBins)
    ensures Whole(s, b, outBins, retain, d)
    ensures Delivers(s, b, outBins, d) <==>
      Resolved(b) && (Slug(b.commit.value) in s.versions || (b.ok && HasBins(b.files, outBins)))
  {
    hide Slug, PlainName, HasBins, Without;
    assert {} + b.files == b.files;
    assert FlipWorks(s, d);
    hide FlipWorks;
    if Resolved(b) {
      var slug := Slug(b.commit.value);
      assert Stale(s, slug, d) == {};
      assert s.current == Some(slug) ==> slug in s.versions;
    }
  }

  /** On a working disk a request whose version is not there yet and whose build is
      complete adds exactly that build as a version and makes it current. */
  lemma NewCommitIsBuilt(s: Store, b: Build, outBins: Files, retain: nat, d: Disk)
    requires AllWork(d) && Lists(d) && Resolved(b) && b.ok && outBins <= b.files
    requires Slug(b.commit.value) !in s.versions
    ensures var (r, slug) := (Install(s, b, outBins, retain, d), Slug(b.commit.value));
      && r.ok && Now(r).current == Some(slug)
      && slug in Now(r).versions && Now(r).versions[slug] == b.files
  {
    var slug := Slug(b.commit.value);
    WorksThrough(s, slug, d);
    hide *;
    var f := NewBuildFlips(s, b, outBins, retain, d);
    SavedAndCollected(f, slug, retain, d);
    NothingStale(b.files);
  }

  lemma NothingStale(files: Files)
    ensures {} + files == files
  {}

  lemma WorksThrough(s: Store, slug: string, d: Disk)
    requires AllWork(d)
    ensures PlacingWorks(d) && d.works(SaveLedger) && d.works(SavePruned) && Stale(s, slug, d) == {}
  {}

  /** Saving and collecting keep the version that is current, as it is. */
  lemma SavedAndCollected(f: Started, slug: string, retain: nat, d: Disk)
    requires f.ok && Now(f).current == Some(slug) && slug in Now(f).versions
    requires Lists(d) && d.works(SaveLedger) && d.works(SavePruned)
    ensures var r := Gc(LedgerTouch(f, slug, d), retain, d);
      && r.ok && Now(r).current == Some(slug)
      && slug in Now(r).versions && Now(r).versions[slug] == Now(f).versions[slug]
  {
    var t := LedgerTouch(f, slug, d);
    hide Gc, Lists, KeepSet, AmongNewest, Retained;
    GcShape(t, retain, d);
    GcExact(t, retain, d);
  }

  // --- Rolling back twice ---------------------------------------------------

  lemma {:induction false} NewestOtherAt(ledger: seq<string>, installed: set<string>, cur: Option<string>, k: nat)
    requires k < |ledger| && ledger[k] in installed && Some(ledger[k]) != cur
    requires forall i :: k < i < |ledger| ==> Some(ledger[i]) == cur
    ensures NewestOther(ledger, installed, cur) == Some(ledger[k])
    decreases |ledger|
  {
    if k < |ledger| - 1 { NewestOtherAt(ledger[..|ledger| - 1], installed, cur, k); }
  }

  predicate Other(s: Store, v: string) {
    v in s.versions && s.current != Some(v)
  }

  ghost predicate LastOtherAt(ledger: seq<string>, s: Store, v: string, i: nat) {
    i < |ledger| && ledger[i] == v && Other(s, v) && forall j :: i < j < |ledger| ==> !Other(s, ledger[j])
  }

  /** The newest entry of the ledger that is installed and not current. */
  ghost predicate LastOther(ledger: seq<string>, s: Store, v: string) {
    exists i: nat :: LastOtherAt(ledger, s, v, i)
  }

  lemma {:induction false} NewestOtherExact(ledger: seq<string>, s: Store)
    ensures match NewestOther(ledger, s.versions.Keys, s.current)
      case None => forall i :: 0 <= i < |ledger| ==> !Other(s, ledger[i])
      case Some(v) => LastOther(ledger, s, v)
    decreases |ledger|
  {
    if ledger != [] {
      var k := |ledger| - 1;
      if Other(s, ledger[k]) {
        assert LastOtherAt(ledger, s, ledger[k], k);
      } else {
        var rest := ledger[..k];
        NewestOtherExact(rest, s);
        var t := NewestOther(rest, s.versions.Keys, s.current);
        assert NewestOther(ledger, s.versions.Keys, s.current) == t;
        hide NewestOther, Other;
        if t.Some? {
          var i: nat :| LastOtherAt(rest, s, t.value, i);
          assert forall j :: i < j < k ==> ledger[j] == rest[j];
          assert LastOtherAt(ledger, s, t.value, i);
        } else {
          assert forall j :: 0 <= j < k ==> ledger[j] == rest[j];
        }
      }
    }
  }

  lemma TargetExact(s: Store, d: Disk)
    requires Lists(d)
    ensures match RollbackTarget(s, d)
      case None => forall v :: !Other(s, v)
      case Some(v) =>
        Other(s, v) && ((exists i :: 0 <= i < |s.ledger| && Other(s, s.ledger[i])) ==> LastOther(s.ledger, s, v))
  {
    NewestOtherExact(s.ledger, s);
    var names := d.listing(s.versions.Keys);
    assert forall n :: n in names <==> n in (set m | m in names);
    hide NewestOther, FirstOther, LastOther;
  }

  /** Rolling back goes to the newest ledger entry that is installed and not current,
      or to any other installed version where the ledger has none; it refuses only
      when no other version is installed, and else does what its flip does. */
  lemma RollbackPicks(s: Store, d: Disk)
    requires Lists(d)
    ensures match RollbackTarget(s, d)
      case None => (forall v :: !Other(s, v)) && Rollback(s, d) == Fail(Begin(s))
      case Some(v) =>
        && Other(s, v)
        && ((exists i :: 0 <= i < |s.ledger| && Other(s, s.ledger[i])) ==> LastOther(s.ledger, s, v))
        && var r := Rollback(s, d);
           && (r.ok <==> FlipWorks(s, d))
           && Now(r).versions == s.versions && Now(r).ledger == s.ledger
           && Now(r).current == if r.ok then Some(v) else s.current
  {
    TargetExact(s, d);
    var target := RollbackTarget(s, d);
    if target.Some? { FlipExact(Begin(s), target.value, d); }
    hide FlipCurrent, RollbackTarget, FlipWorks, LastOther, Other;
  }

  /** Right after an install, rolling back goes to the entry before the newest,
      and rolling back again returns to the newest. */
  lemma RollbackTwiceReturns(s: Store, list: seq<string>, d: Disk, d': Disk)
    requires Shows(s, list) && list != [] && FlipWorks(s, d) && Lists(d)
    ensures var r := Rollback(s, d);
      && (|list| >= 2 ==>
            r.ok && Now(r).current == Some(list[|list| - 2])
            && (FlipWorks(Now(r), d') ==>
                  Rollback(Now(r), d').ok && Now(Rollback(Now(r), d')).current == s.current))
      && (|list| == 1 ==> !r.ok && Now(r) == s)
  {
    var n := |list|;
    if n >= 2 {
      RollbackTo(s, n - 2, d);
      var t := Now(Rollback(s, d));
      hide Rollback, FlipWorks;
      if FlipWorks(t, d') { RollbackTo(t, n - 1, d'); }
    } else {
      NothingOther(s, d);
    }
  }

  /** Rolling back takes the newest entry that is not current. */
  lemma RollbackTo(s: Store, k: nat, d: Disk)
    requires FlipWorks(s, d) && k < |s.ledger| && s.ledger[k] in s.versions && Some(s.ledger[k]) != s.current
    requires forall i :: k < i < |s.ledger| ==> Some(s.ledger[i]) == s.current
    ensures var t := Now(Rollback(s, d));
      && Rollback(s, d).ok && t.current == Some(s.ledger[k]) && t.ledger == s.ledger && t.versions == s.versions
  {
    NewestOtherAt(s.ledger, s.versions.Keys, s.current, k);
    FlipExact(Begin(s), s.ledger[k], d);
    hide NewestOther, FlipCurrent, FlipWorks, FirstOther;
  }

  lemma NothingOther(s: Store, d: Disk)
    requires Lists(d) && |s.ledger| == 1 && s.versions.Keys == {s.ledger[0]} && s.current == Some(s.ledger[0])
    ensures Rollback(s, d) == Fail(Begin(s))
  {
    var names := d.listing(s.versions.Keys);
    assert forall x :: x in names <==> x in (set m | m in names);
    assert forall x :: x in names ==> x in s.versions.Keys;
    assert NewestOther(s.ledger[..0], s.versions.Keys, s.current) == None;
    assert FirstOther(names, s.current).None?;
    hide FlipCurrent;
  }

  // --- The commands themselves ----------------------------------------------

  /** The directory of one build name, with the stores this command has passed
      through so far. */
  class Depot {
    var store: Store
    ghost var past: seq<Store>

    ghost predicate Valid()
      reads this
    {
      past != [] && store == past[|past| - 1]
    }

    constructor (s: Store)
      ensures Valid() && store == s && past == [s]
    {
      store, past := s, [s];
    }

    /** One filesystem call that took effect. */
    method Commit(s: Store)
      requires Valid()
      modifies this
      ensures Valid() && store == s && past == old(past) + [s]
    {
      store, past := s, past + [s];
    }

    method PointCurrent(slug: string, d: Disk) returns (ok: bool)
      requires Valid()
      modifies this
      ensures Valid() && Run(past, ok) == FlipCurrent(Run(old(past), true), slug, d)
    {
      if !d.works(MakeNameDir) { return false; }
      if d.works(RemoveTmpLink) { Commit(store.(tmpLink := None)); }
      if store.tmpLink.Some? || !d.works(MakeTmpLink) { return false; }
      Commit(store.(tmpLink := Some(slug)));
      if !d.works(RenameLink) { return false; }
      Commit(store.(tmpLink := None, current := Some(slug)));
      return true;
    }

    method TouchLedger(slug: string, d: Disk) returns (ok: bool)
      requires Valid()
      modifies this
      ensures Valid() && Run(past, ok) == LedgerTouch(Run(old(past), true), slug, d)
    {
      if !d.works(SaveLedger) { return false; }
      Commit(store.(ledger := Without(store.ledger, slug) + [slug]));
      return true;
    }

    method Collect(retain: nat, d: Disk) returns (ok: bool)
      requires Valid()
      modifies this
      ensures Valid() && Run(past, ok) == Gc(Run(old(past), true), retain, d)
    {
      hide KeepSet, Retained;
      var names, keep, order := d.listing(store.versions.Keys), KeepSet(store, retain), store.ledger;
      var i := 0;
      ghost var before := Run(past, true);
      while i < |names|
        invariant 0 <= i <= |names| && Valid()
        invariant Prune(before, names, keep, d) == Prune(Run(past, true), names[i..], keep, d)
        invariant store.ledger == order
      {
        assert names[i..][0] == names[i] && names[i..][1..] == names[i + 1..];
        if names[i] !in keep && d.works(RemoveVersion(names[i])) {
          Commit(store.(versions := store.versions - {names[i]}));
        }
        i := i + 1;
      }
      var pruned := Retained(order, keep);
      if pruned != order {
        if !d.works(SavePruned) { return false; }
        Commit(store.(ledger := pruned));
      }
      return true;
    }

    method MakeCurrent(slug: string, retain: nat, d: Disk) returns (ok: bool)
      requires Valid()
      modifies this
      ensures Valid() && Run(past, ok) == Activate(Run(old(past), true), slug, retain, d)
    {
      hide FlipCurrent, LedgerTouch, Gc;
      StoppedStays(slug, retain, d);
      ok := PointCurrent(slug, d);
      if !ok { return; }
      ok := TouchLedger(slug, d);
      if !ok { return; }
      ok := Collect(retain, d);
    }

    method FillStaging(b: Build, slug: string, outBins: Files, d: Disk) returns (ok: bool)
      requires Valid()
      modifies this
      ensures Valid() && Run(past, ok) == Stage(Run(old(past), true), slug, b, outBins, d)
    {
      hide HasBins;
      if d.works(RemoveStage) { Commit(store.(stages := store.stages - {slug})); }
      assert Run(past, true) == ClearStage(Run(old(past), true), slug, d);
      if !d.works(MakeStage) { return false; }
      var stale := if slug in store.stages then store.stages[slug] else {};
      Commit(store.(stages := store.stages[slug := stale + b.files]));
      if !b.ok || !HasBins(store.stages[slug], outBins) {
        if d.works(DropStage) { Commit(store.(stages := store.stages - {slug})); }
        return false;
      }
      return true;
    }

    method Build(b: Build, slug: string, outBins: Files, d: Disk) returns (ok: bool)
      requires Valid()
      modifies this
      ensures Valid() && Run(past, ok) == Compile(Run(old(past), true), slug, b, outBins, d)
    {
      hide HasBins, Stage;
      ok := FillStaging(b, slug, outBins, d);
      if !ok { return; }
      StageComplete(Run(old(past), true), slug, b, outBins, d);
      if d.works(RemoveLeftover) { Commit(store.(versions := store.versions - {slug})); }
      if slug in store.versions || !d.works(RenameStage) { return false; }
      Commit(store.(stages := store.stages - {slug}, versions := store.versions[slug := store.stages[slug]]));
      return true;
    }

    method InstallBuild(b: Build, outBins: Files, retain: nat, d: Disk) returns (ok: bool)
      requires Valid() && past == [store]
      modifies this
      ensures Valid() && Run(past, ok) == Install(old(store), b, outBins, retain, d)
    {
      hide Slug, Compile, Activate;
      if !Resolved(b) || !d.works(MakeNameDir) { return false; }
      var slug := Slug(b.commit.value);
      if Built(store, slug, outBins) {
        if store.current == Some(slug) { return true; }
        ok := MakeCurrent(slug, retain, d);
        return;
      }
      ok := Build(b, slug, outBins, d);
      if ok {
        ok := MakeCurrent(slug, retain, d);
      } else {
        ActivateStopped(Run(past, ok), slug, retain, d);
      }
    }

    method RollBack(d: Disk) returns (ok: bool)
      requires Valid() && past == [store]
      modifies this
      ensures Valid() && Run(past, ok) == Rollback(old(store), d)
    {
      var i := |store.ledger|;
      var t: Option<string> := None;
      assert store.ledger[..i] == store.ledger;
      while i > 0 && t.None?
        invariant 0 <= i <= |store.ledger| && Valid() && past == old(past) && store == old(store)
        invariant NewestOther(store.ledger, store.versions.Keys, store.current)
               == if t.Some? then t else NewestOther(store.ledger[..i], store.versions.Keys, store.current)
      {
        i := i - 1;
        var slug := store.ledger[i];
        assert store.ledger[..i + 1][..i] == store.ledger[..i];
        if Some(slug) != store.current && slug in store.versions { t := Some(slug); }
      }
      if t.None? { t := FirstOther(d.listing(store.versions.Keys), store.current); }
      if t.None? { return false; }
      ok := PointCurrent(t.value, d);
    }
  }

  lemma StoppedStays(slug: string, retain: nat, d: Disk)
    ensures forall r: Started :: !r.ok ==> LedgerTouch(r, slug, d) == r && Gc(r, retain, d) == r
  {}

  lemma ActivateStopped(r: Started, slug: string, retain: nat, d: Disk)
    requires !r.ok
    ensures Activate(r, slug, retain, d) == r
  {}
}
