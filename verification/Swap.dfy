/** The model swap: stage, restart, wait for health, check what is served, then
    commit; or roll back and restart. It is stated over an arbitrary actuator and
    health probe, so its guarantees hold however they behave. */
module Swap {
  import opened Text
  import DropIns

  /** An actuator and a health probe over a world of type `S`. Every operation
      may change the world and, where it reports, may report anything. */
  datatype Ops<!S> = Ops(
    stage: S -> (S, bool), rollback: S -> (S, bool), commit: S -> (S, bool), restart: S -> (S, bool),
    healthy: S -> (S, bool), served: S -> (S, Option<string>), warm: S -> S)

  datatype Event =
    | Staged(ok: bool) | Restarted(ok: bool) | RolledBack(ok: bool) | Committed(ok: bool)
    | Probed(ok: bool) | Served(name: Option<string>) | Warmed

  /** The world, and what was done to it so far. */
  datatype World<S> = World(state: S, log: seq<Event>)

  datatype Opts = Opts(attempts: nat, prewarm: bool)

  /** `Err` is an error return; `Outcome` a `SwapOutcome`. */
  datatype Result = Err | Outcome(ok: bool, reverted: bool)

  function Log<S>(w: World<S>, s: S, e: Event): World<S> {
    World(s, w.log + [e])
  }

  function Stage<S>(ops: Ops<S>, w: World<S>): (World<S>, bool) {
    var (s, ok) := ops.stage(w.state);
    (Log(w, s, Staged(ok)), ok)
  }

  function Restart<S>(ops: Ops<S>, w: World<S>): (World<S>, bool) {
    var (s, ok) := ops.restart(w.state);
    (Log(w, s, Restarted(ok)), ok)
  }

  function Rollback<S>(ops: Ops<S>, w: World<S>): (World<S>, bool) {
    var (s, ok) := ops.rollback(w.state);
    (Log(w, s, RolledBack(ok)), ok)
  }

  function Commit<S>(ops: Ops<S>, w: World<S>): (World<S>, bool) {
    var (s, ok) := ops.commit(w.state);
    (Log(w, s, Committed(ok)), ok)
  }

  function Probe<S>(ops: Ops<S>, w: World<S>): (World<S>, bool) {
    var (s, ok) := ops.healthy(w.state);
    (Log(w, s, Probed(ok)), ok)
  }

  function Ask<S>(ops: Ops<S>, w: World<S>): (World<S>, Option<string>) {
    var (s, name) := ops.served(w.state);
    (Log(w, s, Served(name)), name)
  }

  function Warm<S>(ops: Ops<S>, w: World<S>, prewarm: bool): World<S> {
    if prewarm then Log(w, ops.warm(w.state), Warmed) else w
  }

  function PollHealth<S>(ops: Ops<S>, w: World<S>, attempts: nat): (World<S>, bool)
    decreases attempts
  {
    if attempts == 0 then (w, false)
    else
      var (w, ok) := Probe(ops, w);
      if ok then (w, true) else PollHealth(ops, w, attempts - 1)
  }

  function StageAndRestart<S>(ops: Ops<S>, w: World<S>): (World<S>, bool) {
    var (w, ok) := Stage(ops, w);
    if ok then Restart(ops, w) else (w, false)
  }

  function Revert<S>(ops: Ops<S>, w: World<S>): (World<S>, bool) {
    var (w, ok) := Rollback(ops, w);
    if ok then Restart(ops, w) else (w, false)
  }

  /** Roll back, restart, and wait for the previous model. */
  function RevertAndWait<S>(ops: Ops<S>, w: World<S>, attempts: nat): (World<S>, Result) {
    var (w, reverted) := Revert(ops, w);
    (PollHealth(ops, w, attempts).0, Outcome(false, reverted))
  }

  /** `swap`, from asking what is served to the outcome. */
  function SwapTo<S>(ops: Ops<S>, w: World<S>, model: string, bin: string, opts: Opts): (World<S>, Result) {
    var (w, from) := Ask(ops, w);
    if from == Some(model) then (w, Outcome(true, false))
    else if '/' !in bin then (w, Err)
    else
      var (w, up) := StageAndRestart(ops, w);
      if !up then RevertAndWait(ops, w, opts.attempts)
      else
        var (w, healthy) := PollHealth(ops, w, opts.attempts);
        if !healthy then
          var (w, r) := RevertAndWait(ops, w, opts.attempts);
          (if r.reverted then Ask(ops, w).0 else w, r)
        else
          var (w, name) := Ask(ops, w);
          if name.Some? && name.value != model then RevertAndWait(ops, w, opts.attempts)
          else
            var (w, kept) := Commit(ops, Warm(ops, w, opts.prewarm));
            (w, if kept then Outcome(true, false) else Err)
  }

  // --- What the log of a swap looks like ------------------------------------

  function Misses(k: nat): (r: seq<Event>)
    ensures |r| == k && forall i :: 0 <= i < k ==> r[i] == Probed(false)
  {
    if k == 0 then [] else [Probed(false)] + Misses(k - 1)
  }

  /** Polling only probes, and stops at the first healthy answer. */
  lemma {:induction false} PollLog<S>(ops: Ops<S>, w: World<S>, attempts: nat) returns (k: nat)
    ensures var (v, ok) := PollHealth(ops, w, attempts);
      && v.log == w.log + Misses(k) + (if ok then [Probed(true)] else [])
      && (if ok then k < attempts else k == attempts)
    decreases attempts
  {
    if attempts == 0 {
      k := 0;
      assert w.log == w.log + Misses(0) + [];
    } else {
      var (v, ok) := Probe(ops, w);
      if ok {
        k := 0;
        assert v.log == w.log + Misses(0) + [Probed(true)];
      } else {
        var j := PollLog(ops, v, attempts - 1);
        k := j + 1;
        var tail := if PollHealth(ops, v, attempts - 1).1 then [Probed(true)] else [];
        assert v.log + Misses(j) + tail == w.log + Misses(k) + tail;
      }
    }
  }

  function RevertEvents(a: bool, b: bool): seq<Event> {
    [RolledBack(a)] + if a then [Restarted(b)] else []
  }

  /** Health was probed until the first yes, or as often as it may be. */
  ghost predicate Waited(rest: seq<Event>, attempts: nat) {
    rest == Misses(attempts) || exists k: nat :: k < attempts && rest == Misses(k) + [Probed(true)]
  }

  ghost predicate RevertShape(
    before: seq<Event>, log: seq<Event>, attempts: nat, gaveUp: bool, a: bool, b: bool,
    rest: seq<Event>, name: Option<string>)
  {
    && Waited(rest, attempts)
    && log == before + RevertEvents(a, b) + rest + if gaveUp && a && b then [Served(name)] else []
  }

  /** What a rollback leaves in the log: one attempt to take the stage back, a
      restart if that worked, the wait for the previous model, and, where the wait for
      the new one was given up and it is taken back, the question which one it is. */
  ghost predicate RevertedFrom(before: seq<Event>, log: seq<Event>, attempts: nat, gaveUp: bool, reverted: bool) {
    exists a, b, rest, name ::
      RevertShape(before, log, attempts, gaveUp, a, b, rest, name) && reverted == (a && b)
  }

  /** How a swap comes to a rollback: the stage or the restart failed, no probe was
      answered, or the server then named another model. */
  ghost predicate FailedAt(
    before: seq<Event>, from: Option<string>, model: string, attempts: nat, gaveUp: bool)
  {
    var up := [Served(from), Staged(true), Restarted(true)];
    if gaveUp then before == up + Misses(attempts)
    else (before == [Served(from), Staged(false)] || before == [Served(from), Staged(true), Restarted(false)]
          || exists k: nat, name :: MisnamedAt(before, up, k, attempts, name) && name != model)
  }

  ghost predicate MisnamedAt(before: seq<Event>, up: seq<Event>, k: nat, attempts: nat, name: string) {
    k < attempts && before == up + Misses(k) + [Probed(true), Served(Some(name))]
  }

  /** Neither committed nor rolled back yet. */
  ghost predicate Undecided(log: seq<Event>) {
    forall e :: e in log ==> !e.RolledBack? && !e.Committed?
  }

  lemma RevertLog<S>(ops: Ops<S>, w: World<S>, attempts: nat)
    ensures var (v, r) := RevertAndWait(ops, w, attempts);
      && r.Outcome? && !r.ok && RevertedFrom(w.log, v.log, attempts, false, r.reverted)
      && RevertedFrom(w.log, if r.reverted then Ask(ops, v).0.log else v.log, attempts, true, r.reverted)
  {
    var (x, a) := Rollback(ops, w);
    var (y, b) := if a then Restart(ops, x) else (x, false);
    var (v, r) := RevertAndWait(ops, w, attempts);
    var k := PollLog(ops, y, attempts);
    var back := PollHealth(ops, y, attempts).1;
    var rest := Misses(k) + if back then [Probed(true)] else [];
    assert !back ==> Misses(k) + [] == Misses(k);
    assert Waited(rest, attempts);
    hide PollHealth, Waited;
    var name := ops.served(v.state).1;
    assert y.log == w.log + RevertEvents(a, b);
    assert v.log == w.log + RevertEvents(a, b) + rest;
    assert v.log == w.log + RevertEvents(a, b) + rest + [];
    assert Ask(ops, v).0.log == w.log + RevertEvents(a, b) + rest + [Served(name)];
    assert RevertShape(w.log, v.log, attempts, false, a, b, rest, name);
    var last := if r.reverted then Ask(ops, v).0.log else v.log;
    assert RevertShape(w.log, last, attempts, true, a, b, rest, name);
  }

  /** The log of a swap that worked: staged and restarted, healthy at some probe,
      nothing else served, committed last. */
  ghost predicate Took(log: seq<Event>, from: Option<string>, model: string, opts: Opts) {
    exists k: nat, name :: TookAt(log, from, opts, k, name) && (name == None || name == Some(model))
  }

  ghost predicate TookAt(log: seq<Event>, from: Option<string>, opts: Opts, k: nat, name: Option<string>) {
    && k < opts.attempts
    && log == [Served(from), Staged(true), Restarted(true)] + Misses(k) + [Probed(true), Served(name)]
              + (if opts.prewarm then [Warmed] else []) + [Committed(true)]
  }

  /** A swap that reports success after staging saw health, saw no other model,
      committed, and never rolled back. */
  lemma SuccessIsTruthful<S>(ops: Ops<S>, s: S, model: string, bin: string, opts: Opts)
    requires SwapTo(ops, World(s, []), model, bin, opts).1 == Outcome(true, false)
    ensures var log := SwapTo(ops, World(s, []), model, bin, opts).0.log;
      log == [Served(Some(model))] || Took(log, ops.served(s).1, model, opts)
  {
    var (w, from) := Ask(ops, World(s, []));
    if from != Some(model) {
      var (x, up) := StageAndRestart(ops, w);
      assert up;
      assert x.log == [Served(from), Staged(true), Restarted(true)];
      var k := PollLog(ops, x, opts.attempts);
      var (y, healthy) := PollHealth(ops, x, opts.attempts);
      hide PollHealth;
      assert healthy;
      var (z, name) := Ask(ops, y);
      var v := Commit(ops, Warm(ops, z, opts.prewarm)).0;
      assert TookAt(v.log, from, opts, k, name);
    }
  }

  /** A swap that reports failure came to it in one of four ways, tried to take its
      stage back exactly once, and says it reverted exactly when both the rollback and
      the restart worked. */
  lemma FailureIsTruthful<S>(ops: Ops<S>, s: S, model: string, bin: string, opts: Opts)
    requires SwapTo(ops, World(s, []), model, bin, opts).1.Outcome?
    requires !SwapTo(ops, World(s, []), model, bin, opts).1.ok
    ensures var (v, r) := SwapTo(ops, World(s, []), model, bin, opts);
      exists before, gaveUp ::
        && FailedAt(before, ops.served(s).1, model, opts.attempts, gaveUp)
        && RevertedFrom(before, v.log, opts.attempts, gaveUp, r.reverted)
  {
    var (w, from) := Ask(ops, World(s, []));
    var (x, up) := StageAndRestart(ops, w);
    if !up {
      assert FailedAt(x.log, from, model, opts.attempts, false);
      RevertLog(ops, x, opts.attempts);
    } else {
      var k := PollLog(ops, x, opts.attempts);
      var (y, healthy) := PollHealth(ops, x, opts.attempts);
      var (z, name) := Ask(ops, y);
      var begun := [Served(from), Staged(true), Restarted(true)];
      assert x.log == begun;
      hide PollHealth, RevertedFrom, RevertAndWait;
      if healthy {
        assert name.Some? && MisnamedAt(z.log, begun, k, opts.attempts, name.value);
        RevertLog(ops, z, opts.attempts);
      } else {
        assert y.log == begun + Misses(opts.attempts);
        RevertLog(ops, y, opts.attempts);
      }
    }
  }

  /** No swap both commits and rolls back. */
  lemma NeverBoth<S>(ops: Ops<S>, s: S, model: string, bin: string, opts: Opts)
    ensures var log := SwapTo(ops, World(s, []), model, bin, opts).0.log;
      !((exists ok :: Committed(ok) in log) && (exists ok :: RolledBack(ok) in log))
  {
    var (v, r) := SwapTo(ops, World(s, []), model, bin, opts);
    if r.Outcome? && !r.ok {
      FailureIsTruthful(ops, s, model, bin, opts);
      var before, gaveUp :|
        && FailedAt(before, ops.served(s).1, model, opts.attempts, gaveUp)
        && RevertedFrom(before, v.log, opts.attempts, gaveUp, r.reverted);
      FailsUndecided(before, ops.served(s).1, model, opts.attempts, gaveUp);
      RevertedNeverCommitted(before, v.log, opts.attempts, gaveUp, r.reverted);
    } else {
      NoRollback(ops, s, model, bin, opts);
    }
  }

  lemma FailsUndecided(before: seq<Event>, from: Option<string>, model: string, attempts: nat, gaveUp: bool)
    requires FailedAt(before, from, model, attempts, gaveUp)
    ensures Undecided(before)
  {}

  lemma RevertedNeverCommitted(before: seq<Event>, log: seq<Event>, attempts: nat, gaveUp: bool, reverted: bool)
    requires Undecided(before) && RevertedFrom(before, log, attempts, gaveUp, reverted)
    ensures forall ok :: Committed(ok) !in log
  {
    var a, b, rest, name :| RevertShape(before, log, attempts, gaveUp, a, b, rest, name);
    assert forall e: Event :: e in rest ==> e.Probed?;
  }

  lemma NoRollback<S>(ops: Ops<S>, s: S, model: string, bin: string, opts: Opts)
    requires var r := SwapTo(ops, World(s, []), model, bin, opts).1; r.Err? || r.ok
    ensures forall ok :: RolledBack(ok) !in SwapTo(ops, World(s, []), model, bin, opts).0.log
  {
    var (w, from) := Ask(ops, World(s, []));
    var (x, up) := StageAndRestart(ops, w);
    var k := PollLog(ops, x, opts.attempts);
    hide PollHealth;
  }

  // --- What a swap does to the world ----------------------------------------

  /** Restarting, probing, asking and warming keep `rel` to the starting world. */
  ghost predicate Inert<S(!new)>(ops: Ops<S>, start: S, rel: (S, S) -> bool) {
    forall s :: rel(start, s) ==>
      && rel(start, ops.restart(s).0) && rel(start, ops.healthy(s).0)
      && rel(start, ops.served(s).0) && rel(start, ops.warm(s))
  }

  lemma {:induction false} PollInert<S(!new)>(
    ops: Ops<S>, start: S, rel: (S, S) -> bool, w: World<S>, attempts: nat)
    requires Inert(ops, start, rel) && rel(start, w.state)
    ensures rel(start, PollHealth(ops, w, attempts).0.state)
    decreases attempts
  {
    if attempts > 0 {
      var (v, ok) := Probe(ops, w);
      if !ok { PollInert(ops, start, rel, v, attempts - 1); }
    }
  }

  lemma RevertRestores<S(!new)>(
    ops: Ops<S>, start: S, staged: (S, S) -> bool, restored: (S, S) -> bool, w: World<S>, attempts: nat)
    requires Inert(ops, start, restored) && staged(start, w.state)
    requires forall t :: staged(start, t) && ops.rollback(t).1 ==> restored(start, ops.rollback(t).0)
    ensures var (v, r) := RevertAndWait(ops, w, attempts);
      r.reverted ==> restored(start, v.state)
  {
    var (x, reverted) := Revert(ops, w);
    if reverted { PollInert(ops, start, restored, x, attempts); }
    hide PollHealth;
  }

  /** If an actuator's rollback, when it reports success, undoes its stage, then a
      swap that reports `reverted` leaves the world restored. */
  lemma RevertedMeansRestored<S(!new)>(
    ops: Ops<S>, s: S, model: string, bin: string, opts: Opts,
    staged: (S, S) -> bool, restored: (S, S) -> bool)
    requires Inert(ops, s, staged) && Inert(ops, s, restored)
    requires staged(s, ops.stage(ops.served(s).0).0)
    requires forall t :: staged(s, t) && ops.rollback(t).1 ==> restored(s, ops.rollback(t).0)
    ensures var (v, r) := SwapTo(ops, World(s, []), model, bin, opts);
      r == Outcome(false, true) ==> restored(s, v.state)
  {
    var w := Ask(ops, World(s, [])).0;
    var (x, up) := StageAndRestart(ops, w);
    RevertRestores(ops, s, staged, restored, x, opts.attempts);
    PollInert(ops, s, staged, x, opts.attempts);
    var y := PollHealth(ops, x, opts.attempts).0;
    RevertRestores(ops, s, staged, restored, y, opts.attempts);
    RevertRestores(ops, s, staged, restored, Ask(ops, y).0, opts.attempts);
    hide PollHealth, RevertAndWait;
  }

  /** A swap that succeeds after staging leaves what its stage established. */
  lemma SuccessKeepsStaged<S(!new)>(
    ops: Ops<S>, s: S, model: string, bin: string, opts: Opts, staged: (S, S) -> bool)
    requires Inert(ops, s, staged) && ops.served(s).1 != Some(model)
    requires ops.stage(ops.served(s).0).1 ==> staged(s, ops.stage(ops.served(s).0).0)
    requires forall t :: staged(s, t) ==> staged(s, ops.commit(t).0)
    ensures var (v, r) := SwapTo(ops, World(s, []), model, bin, opts);
      r == Outcome(true, false) ==> ops.stage(ops.served(s).0).1 && staged(s, v.state)
  {
    var w := Ask(ops, World(s, [])).0;
    var (x, up) := StageAndRestart(ops, w);
    if up { PollInert(ops, s, staged, x, opts.attempts); }
    hide PollHealth, RevertAndWait;
  }

  // --- The systemd actuator -------------------------------------------------

  /** What the environment does at one operation: which calls of a stage or
      rollback work, whether a restart or probe succeeds, what is served. */
  datatype Answer = Answer(env: DropIns.Env, ok: bool, name: Option<string>)

  /** The unit's drop-ins and actuator, and the answers still to come. */
  datatype Unit = Unit(node: DropIns.Node, tape: nat -> Answer, tick: nat)

  function Next(u: Unit): Answer {
    u.tape(u.tick)
  }

  function Turn(u: Unit, node: DropIns.Node): Unit {
    Unit(node, u.tape, u.tick + 1)
  }

  function Systemd(etcWritable: bool, dropin: string): Ops<Unit> {
    Ops(
      (u: Unit) => var (n, ok) := DropIns.Stage(u.node, etcWritable, dropin, Next(u).env); (Turn(u, n), ok),
      (u: Unit) => var (n, ok) := DropIns.Rollback(u.node, Next(u).env); (Turn(u, n), ok),
      (u: Unit) => (Turn(u, DropIns.Commit(u.node)), true),
      (u: Unit) => (Turn(u, u.node), Next(u).ok),
      (u: Unit) => (Turn(u, u.node), Next(u).ok),
      (u: Unit) => (Turn(u, u.node), Next(u).name),
      (u: Unit) => Turn(u, u.node))
  }

  /** The first of the `attempts` answers from `from` on that is yes is the one at `at`. */
  ghost predicate FirstYes(tape: nat -> Answer, from: nat, attempts: nat, at: nat) {
    from <= at < from + attempts && tape(at).ok && forall j: nat :: from <= j < at ==> !tape(j).ok
  }

  ghost predicate YesWithin(tape: nat -> Answer, from: nat, attempts: nat) {
    exists at: nat :: FirstYes(tape, from, attempts, at)
  }

  lemma FirstOrLater(tape: nat -> Answer, from: nat, attempts: nat, at: nat)
    requires attempts > 0
    ensures FirstYes(tape, from, attempts, at)
       <==> if tape(from).ok then at == from else FirstYes(tape, from + 1, attempts - 1, at)
  {}

  lemma NowOrLater(tape: nat -> Answer, from: nat, attempts: nat)
    requires attempts > 0
    ensures YesWithin(tape, from, attempts) <==> tape(from).ok || YesWithin(tape, from + 1, attempts - 1)
  {
    FirstOrLater(tape, from, attempts, from);
    if YesWithin(tape, from, attempts) {
      var at: nat :| FirstYes(tape, from, attempts, at);
      FirstOrLater(tape, from, attempts, at);
    }
    if !tape(from).ok && YesWithin(tape, from + 1, attempts - 1) {
      var at: nat :| FirstYes(tape, from + 1, attempts - 1, at);
      FirstOrLater(tape, from, attempts, at);
    }
  }

  /** Polling asks again until the first yes, and as often as it may. */
  lemma {:induction false} PollAnswers(etcWritable: bool, dropin: string, w: World<Unit>, attempts: nat, at: nat)
    ensures var (v, ok) := PollHealth(Systemd(etcWritable, dropin), w, attempts);
      && (ok <==> YesWithin(w.state.tape, w.state.tick, attempts))
      && (FirstYes(w.state.tape, w.state.tick, attempts, at) ==> v.state == w.state.(tick := at + 1))
    decreases attempts
  {
    var ops, u := Systemd(etcWritable, dropin), w.state;
    if attempts > 0 {
      var (x, yes) := Probe(ops, w);
      assert x.state == u.(tick := u.tick + 1) && yes == u.tape(u.tick).ok;
      NowOrLater(u.tape, u.tick, attempts);
      FirstOrLater(u.tape, u.tick, attempts, at);
      hide FirstYes, YesWithin, Systemd;
      if !yes { PollAnswers(etcWritable, dropin, x, attempts - 1, at); }
    }
  }

  /** The server answers health within the attempts and then names no other model. */
  ghost predicate ComesUp(tape: nat -> Answer, from: nat, attempts: nat, model: string) {
    exists at: nat :: FirstYes(tape, from, attempts, at)
      && (tape(at + 1).name == None || tape(at + 1).name == Some(model))
  }

  /** For the systemd actuator a swap succeeds if and only if the model is served
      already, or the binary is a path, the stage's calls and the restart work, some
      health probe is answered, and the server then names no other model. It is an
      error only where the binary is no path. */
  lemma SystemdSwapExact(
    files: DropIns.Files, tape: nat -> Answer, etcWritable: bool, dropin: string,
    model: string, bin: string, opts: Opts)
    ensures var r := SwapTo(Systemd(etcWritable, dropin), Fresh(files, tape), model, bin, opts).1;
      && (r == Outcome(true, false) <==>
           (tape(0).name == Some(model)
            || ('/' in bin && DropIns.Completes(tape(1).env) && tape(2).ok
                && ComesUp(tape, 3, opts.attempts, model))))
      && (r == Err <==> tape(0).name != Some(model) && '/' !in bin)
  {
    var ops := Systemd(etcWritable, dropin);
    var w1 := Ask(ops, Fresh(files, tape)).0;
    StartsUp(files, tape, etcWritable, dropin);
    hide Systemd, FirstYes, StageAndRestart, RevertAndWait, PollHealth;
    var (w2, up) := StageAndRestart(ops, w1);
    RevertFails(ops, w2, opts.attempts);
    if up {
      var first: nat := if YesWithin(tape, 3, opts.attempts) then FirstAt(tape, 3, opts.attempts) else 0;
      PollAnswers(etcWritable, dropin, w2, opts.attempts, first);
      var (w3, healthy) := PollHealth(ops, w2, opts.attempts);
      RevertFails(ops, w3, opts.attempts);
      RevertFails(ops, Ask(ops, w3).0, opts.attempts);
      AsksAndKeeps(etcWritable, dropin, w3, opts.prewarm);
      if healthy { OneFirst(tape, 3, opts.attempts, first); }
    }
  }

  ghost function FirstAt(tape: nat -> Answer, from: nat, attempts: nat): (at: nat)
    requires YesWithin(tape, from, attempts)
    ensures FirstYes(tape, from, attempts, at)
  {
    var at: nat :| FirstYes(tape, from, attempts, at);
    at
  }

  lemma OneFirst(tape: nat -> Answer, from: nat, attempts: nat, at: nat)
    requires FirstYes(tape, from, attempts, at)
    ensures forall k: nat :: FirstYes(tape, from, attempts, k) ==> k == at
  {}

  lemma StartsUp(files: DropIns.Files, tape: nat -> Answer, etcWritable: bool, dropin: string)
    ensures var ops := Systemd(etcWritable, dropin);
      var (w1, from) := Ask(ops, Fresh(files, tape));
      var (w2, up) := StageAndRestart(ops, w1);
      && from == tape(0).name
      && (up <==> DropIns.Completes(tape(1).env) && tape(2).ok)
      && (up ==> w2.state.tape == tape && w2.state.tick == 3)
  {
    DropIns.StagedFiles(files, etcWritable, dropin, tape(1).env);
    hide DropIns.Stage, DropIns.Completes, DropIns.StagedPath, DropIns.Collect;
  }

  lemma AsksAndKeeps(etcWritable: bool, dropin: string, w: World<Unit>, prewarm: bool)
    ensures var ops := Systemd(etcWritable, dropin);
      var (v, name) := Ask(ops, w);
      name == w.state.tape(w.state.tick).name && Commit(ops, Warm(ops, v, prewarm)).1
  {}

  lemma RevertFails<S>(ops: Ops<S>, w: World<S>, attempts: nat)
    ensures RevertAndWait(ops, w, attempts).1.Outcome? && !RevertAndWait(ops, w, attempts).1.ok
  {}

  /** For any actuator a swap is an error if and only if it is asked for another
      model and the binary is no path, or its commit is refused. */
  lemma ErrExactly<S>(ops: Ops<S>, s: S, model: string, bin: string, opts: Opts)
    ensures var (v, r) := SwapTo(ops, World(s, []), model, bin, opts);
      r == Err <==> ops.served(s).1 != Some(model) && ('/' !in bin || Committed(false) in v.log)
  {
    var (v, r) := SwapTo(ops, World(s, []), model, bin, opts);
    if r.Outcome? && !r.ok {
      FailureIsTruthful(ops, s, model, bin, opts);
      var before, gaveUp :|
        && FailedAt(before, ops.served(s).1, model, opts.attempts, gaveUp)
        && RevertedFrom(before, v.log, opts.attempts, gaveUp, r.reverted);
      FailsUndecided(before, ops.served(s).1, model, opts.attempts, gaveUp);
      RevertedNeverCommitted(before, v.log, opts.attempts, gaveUp, r.reverted);
    } else if r.Outcome? {
      SuccessIsTruthful(ops, s, model, bin, opts);
      if Committed(false) in v.log { NotRefused(v.log, ops.served(s).1, model, opts); }
    } else if '/' in bin {
      var (x, up) := StageAndRestart(ops, Ask(ops, World(s, [])).0);
      hide PollHealth, RevertAndWait;
      RevertFails(ops, x, opts.attempts);
      var y := PollHealth(ops, x, opts.attempts).0;
      RevertFails(ops, y, opts.attempts);
      RevertFails(ops, Ask(ops, y).0, opts.attempts);
      assert v.log[|v.log| - 1] == Committed(false);
    }
  }

  lemma NotRefused(log: seq<Event>, from: Option<string>, model: string, opts: Opts)
    requires log == [Served(Some(model))] || Took(log, from, model, opts)
    ensures Committed(false) !in log
  {}

  function Fresh(files: DropIns.Files, tape: nat -> Answer): World<Unit> {
    World(Unit(DropIns.Node(files, DropIns.FRESH), tape, 0), [])
  }

  /** For the systemd actuator, `reverted` means every drop-in is back byte for
      byte, exactly when the stage lost at most the first of llmtune's own and its
      write was not cut short into a new file. */
  lemma SystemdRevertExact(
    files: DropIns.Files, tape: nat -> Answer, etcWritable: bool, dropin: string,
    model: string, bin: string, opts: Opts)
    requires DropIns.Lists(tape(1).env.list)
    requires SwapTo(Systemd(etcWritable, dropin), Fresh(files, tape), model, bin, opts).1 == Outcome(false, true)
    ensures var env := tape(1).env;
      var ours := DropIns.Collect(etcWritable, files, DropIns.ROOTS, env.list).ours;
      var path := DropIns.StagedPath(etcWritable, files, env);
      SwapTo(Systemd(etcWritable, dropin), Fresh(files, tape), model, bin, opts).0.state.node.files == files
      <==> DropIns.OnlyFirstLost(ours, path, env) && (DropIns.Torn(env) ==> path in ours)
  {
    hide SwapTo, DropIns.Collect, DropIns.StagedPath, DropIns.Stage, DropIns.Rollback, DropIns.OnlyFirstLost;
    var start := Unit(DropIns.Node(files, DropIns.FRESH), tape, 0);
    var env := tape(1).env;
    var after := DropIns.Stage(start.node, etcWritable, dropin, env).0;
    var staged := (s: Unit, t: Unit) => t.node == after;
    var restored := (s: Unit, t: Unit) =>
      exists undo :: DropIns.Rollback(after, undo) == (t.node, true);
    var ops := Systemd(etcWritable, dropin);
    assert ops.served(start).0 == Unit(start.node, tape, 1);
    RevertedMeansRestored(ops, start, model, bin, opts, staged, restored);
    var v := SwapTo(ops, World(start, []), model, bin, opts).0;
    var undo :| DropIns.Rollback(after, undo) == (v.state.node, true);
    DropIns.RollbackExact(files, etcWritable, dropin, env, undo);
  }

  /** For the systemd actuator, success after staging leaves the new drop-in in
      place with exactly the rendered contents, and last in the merge of all roots
      if and only if it outsorts every own one whose removal failed. */
  lemma SystemdSuccessWins(
    files: DropIns.Files, tape: nat -> Answer, etcWritable: bool, dropin: string,
    model: string, bin: string, opts: Opts)
    requires DropIns.Lists(tape(1).env.list) && tape(0).name != Some(model)
    requires SwapTo(Systemd(etcWritable, dropin), Fresh(files, tape), model, bin, opts).1 == Outcome(true, false)
    ensures var now := SwapTo(Systemd(etcWritable, dropin), Fresh(files, tape), model, bin, opts).0.state.node.files;
      var env := tape(1).env;
      var p := DropIns.StagedPath(etcWritable, files, env);
      && p in now && now[p] == dropin
      && (DropIns.WinsMerge(now, p) <==>
            DropIns.Outsorts(p, DropIns.Collect(etcWritable, files, DropIns.ROOTS, env.list).ours, env))
  {
    hide SwapTo, DropIns.Stage, DropIns.StagedPath, DropIns.Collect, DropIns.WinsMerge, DropIns.Outsorts;
    var start := Unit(DropIns.Node(files, DropIns.FRESH), tape, 0);
    var after := DropIns.Stage(start.node, etcWritable, dropin, tape(1).env).0;
    var staged := (s: Unit, t: Unit) => t.node.files == after.files;
    var ops := Systemd(etcWritable, dropin);
    assert ops.served(start).0 == Unit(start.node, tape, 1);
    SuccessKeepsStaged(ops, start, model, bin, opts, staged);
    DropIns.StagedWins(start.node, etcWritable, dropin, tape(1).env);
  }

  /** A swap that reports success although an old drop-in governs: it could not be
      removed, sorts late, and the server does not say which model it serves. */
  lemma SuccessUnderOldDropin(tape: nat -> Answer)
    requires forall i :: tape(i).ok && tape(i).name == None && DropIns.Lists(tape(i).env.list)
    requires forall i, c :: tape(i).env.works(c) <==> !c.Remove?
    ensures var files := map[DropIns.Path(DropIns.ETC, "zzzzzzzz-llmtune.conf") := DropIns.MARKER];
      var (w, r) := SwapTo(Systemd(true, "new"), Fresh(files, tape), "m", "/bin/server", Opts(1, false));
      r == Outcome(true, false)
      && !DropIns.WinsMerge(w.state.node.files, DropIns.StagedPath(true, files, tape(1).env))
  {
    var files := map[DropIns.Path(DropIns.ETC, "zzzzzzzz-llmtune.conf") := DropIns.MARKER];
    var env := tape(1).env;
    assert '/' in "/bin/server" by { assert "/bin/server"[0] == '/'; }
    hide DropIns.Stage, DropIns.WinsMerge, DropIns.StagedPath;
    DropIns.KeptOwnWins(env);
    AllWell(files, tape, "m", "/bin/server");
  }

  lemma AllWell(files: DropIns.Files, tape: nat -> Answer, model: string, bin: string)
    requires (forall i :: tape(i).ok && tape(i).name == None) && '/' in bin
    requires DropIns.Stage(DropIns.Node(files, DropIns.FRESH), true, "new", tape(1).env).1
    ensures var (w, r) := SwapTo(Systemd(true, "new"), Fresh(files, tape), model, bin, Opts(1, false));
      && r == Outcome(true, false)
      && w.state.node.files == DropIns.Stage(DropIns.Node(files, DropIns.FRESH), true, "new", tape(1).env).0.files
  {
    hide DropIns.Stage, DropIns.Rollback;
    var ops, opts := Systemd(true, "new"), Opts(1, false);
    var w1 := Ask(ops, Fresh(files, tape)).0;
    var (w2, up) := StageAndRestart(ops, w1);
    assert up;
    assert PollHealth(ops, w2, 1) == Probe(ops, w2);
  }

  // --- The swap itself ------------------------------------------------------

  class Service<S> {
    const ops: Ops<S>
    var world: World<S>

    constructor (o: Ops<S>, s: S)
      ensures ops == o && world == World(s, [])
    {
      ops, world := o, World(s, []);
    }

    method Poll(attempts: nat) returns (ok: bool)
      modifies this
      ensures (world, ok) == PollHealth(ops, old(world), attempts)
    {
      var i := 0;
      while i < attempts
        invariant 0 <= i <= attempts
        invariant PollHealth(ops, old(world), attempts) == PollHealth(ops, world, attempts - i)
      {
        var (w, healthy) := Probe(ops, world);
        world := w;
        if healthy { return true; }
        i := i + 1;
      }
      return false;
    }

    method UndoStage(attempts: nat) returns (r: Result)
      modifies this
      ensures (world, r) == RevertAndWait(ops, old(world), attempts) && r.Outcome?
    {
      hide PollHealth;
      var (w, reverted) := Revert(ops, world);
      world := w;
      var _ := Poll(attempts);
      return Outcome(false, reverted);
    }

    method SwapModel(model: string, bin: string, opts: Opts) returns (r: Result)
      modifies this
      ensures (world, r) == SwapTo(ops, old(world), model, bin, opts)
    {
      hide PollHealth, RevertAndWait;
      var (w0, from) := Ask(ops, world);
      world := w0;
      if from == Some(model) { return Outcome(true, false); }
      if '/' !in bin { return Err; }
      var (w1, up) := StageAndRestart(ops, world);
      world := w1;
      if !up {
        r := UndoStage(opts.attempts);
        return;
      }
      var healthy := Poll(opts.attempts);
      if healthy {
        var (w2, name) := Ask(ops, world);
        world := w2;
        if name.Some? && name.value != model {
          r := UndoStage(opts.attempts);
          return;
        }
        var (w3, kept) := Commit(ops, Warm(ops, world, opts.prewarm));
        world := w3;
        return if kept then Outcome(true, false) else Err;
      }
      r := UndoStage(opts.attempts);
      if r.reverted { world := Ask(ops, world).0; }
    }
  }
}
