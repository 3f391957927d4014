/** Bringing a cluster up: start every worker, wait for each to accept, launch the
    head with the workers' endpoints, and on any failure stop what was started. */
module Cluster {
  import opened Text
  import DropIns
  import Swap

  datatype Node = Node(name: string, host: Option<string>)

  function Endpoint(n: Node, port: nat): string {
    (if n.host.Some? then n.host.value else n.name) + ":" + Decimal(port)
  }

  function Endpoints(ws: seq<Node>, port: nat): (r: seq<string>)
    ensures |r| == |ws| && forall i :: 0 <= i < |ws| ==> r[i] == Endpoint(ws[i], port)
  {
    if ws == [] then [] else [Endpoint(ws[0], port)] + Endpoints(ws[1..], port)
  }

  function InjectRpc(flags: string, endpoints: seq<string>): string {
    if endpoints == [] then flags else flags + " --rpc " + Join(endpoints, ",")
  }

  /** Worker control over a world of type `S`; every call may do anything. */
  datatype WorkerCtl<!S> = WorkerCtl(
    start: (S, Node) -> (S, bool), stop: (S, Node) -> (S, bool), accepting: (S, Node) -> (S, bool))

  datatype Event =
    | Started(worker: Node, ok: bool) | Stopped(worker: Node, ok: bool) | Accepted(worker: Node, ok: bool)
    | Launch(flags: string) | Head(event: Swap.Event)

  datatype World<S> = World(state: S, log: seq<Event>)

  datatype Result = Err | Outcome(ok: bool)

  // --- Workers --------------------------------------------------------------

  function Start<S>(ctl: WorkerCtl<S>, w: World<S>, n: Node): (World<S>, bool) {
    var (s, ok) := ctl.start(w.state, n);
    (World(s, w.log + [Started(n, ok)]), ok)
  }

  /** Start workers in order; the count is how many started before one failed. */
  function StartAll<S>(ctl: WorkerCtl<S>, w: World<S>, ws: seq<Node>): (World<S>, nat)
    decreases |ws|
  {
    if ws == [] then (w, 0)
    else
      var (v, ok) := Start(ctl, w, ws[0]);
      if !ok then (v, 0)
      else
        var (u, k) := StartAll(ctl, v, ws[1..]);
        (u, k + 1)
  }

  function StopOne<S>(ctl: WorkerCtl<S>, w: World<S>, n: Node): World<S> {
    var (s, ok) := ctl.stop(w.state, n);
    World(s, w.log + [Stopped(n, ok)])
  }

  /** Stop every worker; a failing stop does not end the teardown. */
  function Teardown<S>(ctl: WorkerCtl<S>, w: World<S>, ws: seq<Node>): World<S>
    decreases |ws|
  {
    if ws == [] then w else Teardown(ctl, StopOne(ctl, w, ws[0]), ws[1..])
  }

  function Ping<S>(ctl: WorkerCtl<S>, w: World<S>, n: Node): (World<S>, bool) {
    var (s, ok) := ctl.accepting(w.state, n);
    (World(s, w.log + [Accepted(n, ok)]), ok)
  }

  function PollAccept<S>(ctl: WorkerCtl<S>, w: World<S>, n: Node, attempts: nat): (World<S>, bool)
    decreases attempts
  {
    if attempts == 0 then (w, false)
    else
      var (v, ok) := Ping(ctl, w, n);
      if ok then (v, true) else PollAccept(ctl, v, n, attempts - 1)
  }

  function AcceptAll<S>(ctl: WorkerCtl<S>, w: World<S>, ws: seq<Node>, attempts: nat): (World<S>, bool)
    decreases |ws|
  {
    if ws == [] then (w, true)
    else
      var (v, ok) := PollAccept(ctl, w, ws[0], attempts);
      if ok then AcceptAll(ctl, v, ws[1..], attempts) else (v, false)
  }

  // --- The head -------------------------------------------------------------

  function Heads(log: seq<Swap.Event>): (r: seq<Event>)
    ensures |r| == |log| && forall i :: 0 <= i < |log| ==> r[i] == Head(log[i])
  {
    if log == [] then [] else [Head(log[0])] + Heads(log[1..])
  }

  /** `up`: `head(flags)` is the head's actuator and probe, staging the drop-in
      rendered for those flags. */
  function Up<S>(
    ctl: WorkerCtl<S>, head: string -> Swap.Ops<S>, w0: World<S>, ws: seq<Node>, port: nat,
    flags: string, opts: Swap.Opts): (World<S>, Result)
  {
    var (w1, k) := StartAll(ctl, w0, ws);
    if k < |ws| then (Teardown(ctl, w1, ws[..k]), Outcome(false))
    else
      var (w2, accepted) := AcceptAll(ctl, w1, ws, opts.attempts);
      if !accepted then (Teardown(ctl, w2, ws), Outcome(false))
      else
        var rpc := InjectRpc(flags, Endpoints(ws, port));
        LaunchHead(ctl, head(rpc), w2.(log := w2.log + [Launch(rpc)]), ws, opts)
  }

  /** The head's part of a launch; the flag says whether it got to the commit. */
  function RunHead<S>(ops: Swap.Ops<S>, h: Swap.World<S>, opts: Swap.Opts): (Swap.World<S>, Result, bool) {
    var (h, up) := Swap.StageAndRestart(ops, h);
    if !up then (h, Err, false)
    else
      var (h, healthy) := Swap.PollHealth(ops, h, opts.attempts);
      if healthy then
        var (h, kept) := Swap.Commit(ops, Swap.Warm(ops, h, opts.prewarm));
        (h, if kept then Outcome(true) else Err, true)
      else
        var (h, reverted) := Swap.Revert(ops, h);
        (h, if reverted then Outcome(false) else Err, false)
  }

  function LaunchHead<S>(ctl: WorkerCtl<S>, ops: Swap.Ops<S>, w: World<S>, ws: seq<Node>, opts: Swap.Opts)
    : (World<S>, Result)
  {
    var (h, r, committed) := RunHead(ops, Swap.World(w.state, []), opts);
    var v := World(h.state, w.log + Heads(h.log));
    (if committed then v else Teardown(ctl, v, ws), r)
  }

  // --- What the log says ----------------------------------------------------

  /** The workers whose start succeeded, in order. */
  function Starts(log: seq<Event>): seq<Node> {
    if log == [] then []
    else
      var e := log[|log| - 1];
      Starts(log[..|log| - 1]) + if e.Started? && e.ok then [e.worker] else []
  }

  /** The workers a stop was called on, in order. */
  function Stops(log: seq<Event>): seq<Node> {
    if log == [] then []
    else
      var e := log[|log| - 1];
      Stops(log[..|log| - 1]) + if e.Stopped? then [e.worker] else []
  }

  ghost predicate Headless(log: seq<Event>) {
    forall i :: 0 <= i < |log| ==> !log[i].Head?
  }

  lemma Tally(log: seq<Event>, e: Event)
    ensures Starts(log + [e]) == Starts(log) + if e.Started? && e.ok then [e.worker] else []
    ensures Stops(log + [e]) == Stops(log) + if e.Stopped? then [e.worker] else []
  {
    assert (log + [e])[..|log|] == log;
  }

  lemma {:induction false} TallyHead(log: seq<Event>, more: seq<Swap.Event>)
    ensures Starts(log + Heads(more)) == Starts(log) && Stops(log + Heads(more)) == Stops(log)
    decreases |more|
  {
    if more == [] {
      assert log + Heads(more) == log;
    } else {
      assert log + Heads(more) == (log + [Head(more[0])]) + Heads(more[1..]);
      Tally(log, Head(more[0]));
      TallyHead(log + [Head(more[0])], more[1..]);
    }
  }

  lemma {:induction false} StartAllTally<S>(ctl: WorkerCtl<S>, w: World<S>, ws: seq<Node>)
    ensures var (v, k) := StartAll(ctl, w, ws);
      && k <= |ws|
      && Starts(v.log) == Starts(w.log) + ws[..k] && Stops(v.log) == Stops(w.log)
      && (Headless(w.log) ==> Headless(v.log))
    decreases |ws|
  {
    hide Starts, Stops;
    if ws != [] {
      var (v, ok) := Start(ctl, w, ws[0]);
      Tally(w.log, Started(ws[0], ok));
      if ok {
        StartAllTally(ctl, v, ws[1..]);
        var k := StartAll(ctl, v, ws[1..]).1;
        assert ws[..k + 1] == [ws[0]] + ws[1..][..k];
        assert Starts(v.log) + ws[1..][..k] == Starts(w.log) + ws[..k + 1];
      }
    }
  }

  lemma {:induction false} TeardownTally<S>(ctl: WorkerCtl<S>, w: World<S>, ws: seq<Node>)
    ensures var v := Teardown(ctl, w, ws);
      && Starts(v.log) == Starts(w.log) && Stops(v.log) == Stops(w.log) + ws
      && (forall e: Swap.Event :: Head(e) in v.log <==> Head(e) in w.log)
    decreases |ws|
  {
    hide Starts, Stops;
    if ws != [] {
      var v := StopOne(ctl, w, ws[0]);
      Tally(w.log, Stopped(ws[0], ctl.stop(w.state, ws[0]).1));
      TeardownTally(ctl, v, ws[1..]);
      assert Stops(v.log) + ws[1..] == Stops(w.log) + ws;
    } else {
      assert Stops(w.log) + ws == Stops(w.log);
    }
  }

  lemma {:induction false} PollAcceptTally<S>(ctl: WorkerCtl<S>, w: World<S>, n: Node, attempts: nat)
    ensures var (v, ok) := PollAccept(ctl, w, n, attempts);
      && Starts(v.log) == Starts(w.log) && Stops(v.log) == Stops(w.log)
      && (Headless(w.log) ==> Headless(v.log)) && (forall e :: e in w.log ==> e in v.log)
      && (ok ==> Accepted(n, true) in v.log)
    decreases attempts
  {
    hide Starts, Stops;
    if attempts > 0 {
      var (v, ok) := Ping(ctl, w, n);
      Tally(w.log, Accepted(n, ok));
      if ok { assert v.log[|w.log|] == Accepted(n, true); }
      else { PollAcceptTally(ctl, v, n, attempts - 1); }
    }
  }

  lemma {:induction false} AcceptAllTally<S>(ctl: WorkerCtl<S>, w: World<S>, ws: seq<Node>, attempts: nat)
    ensures var (v, ok) := AcceptAll(ctl, w, ws, attempts);
      && Starts(v.log) == Starts(w.log) && Stops(v.log) == Stops(w.log)
      && (Headless(w.log) ==> Headless(v.log)) && (forall e :: e in w.log ==> e in v.log)
      && (ok ==> forall n :: n in ws ==> Accepted(n, true) in v.log)
    decreases |ws|
  {
    hide Starts, Stops, PollAccept;
    if ws != [] {
      PollAcceptTally(ctl, w, ws[0], attempts);
      var (v, ok) := PollAccept(ctl, w, ws[0], attempts);
      if ok {
        AcceptAllTally(ctl, v, ws[1..], attempts);
        assert ws == [ws[0]] + ws[1..];
      }
    }
  }

  /** The head events of one launch: staged and restarted or not, some missed
      probes, then committed, or rolled back. */
  ghost predicate LaunchShape(events: seq<Swap.Event>, opts: Swap.Opts, r: Result) {
    || (events == [Swap.Staged(false)] && r == Err)
    || (events == [Swap.Staged(true), Swap.Restarted(false)] && r == Err)
    || (exists k: nat, kept :: CommitShape(events, opts, k, kept) && r == if kept then Outcome(true) else Err)
    || (exists a, b :: RevertShape(events, opts, a, b) && r == if a && b then Outcome(false) else Err)
  }

  const UP := [Swap.Staged(true), Swap.Restarted(true)]

  ghost predicate CommitShape(events: seq<Swap.Event>, opts: Swap.Opts, k: nat, kept: bool) {
    && k < opts.attempts
    && events == UP + Swap.Misses(k) + [Swap.Probed(true)]
                 + (if opts.prewarm then [Swap.Warmed] else []) + [Swap.Committed(kept)]
  }

  ghost predicate RevertShape(events: seq<Swap.Event>, opts: Swap.Opts, a: bool, b: bool) {
    events == UP + Swap.Misses(opts.attempts) + Swap.RevertEvents(a, b)
  }

  lemma RunHeadShape<S>(ops: Swap.Ops<S>, s: S, opts: Swap.Opts)
    ensures var (h, r, committed) := RunHead(ops, Swap.World(s, []), opts);
      && LaunchShape(h.log, opts, r)
      && (committed <==> exists ok :: Swap.Committed(ok) in h.log)
  {
    var (h1, up) := Swap.StageAndRestart(ops, Swap.World(s, []));
    if up {
      assert h1.log == UP;
      var k := Swap.PollLog(ops, h1, opts.attempts);
      var (h2, healthy) := Swap.PollHealth(ops, h1, opts.attempts);
      hide Swap.PollHealth;
      if healthy {
        var (h3, kept) := Swap.Commit(ops, Swap.Warm(ops, h2, opts.prewarm));
        assert CommitShape(h3.log, opts, k, kept);
        assert h3.log[|h3.log| - 1] == Swap.Committed(kept);
      } else {
        var (t, a) := ops.rollback(h2.state);
        assert RevertShape(Swap.Revert(ops, h2).0.log, opts, a, ops.restart(t).1);
      }
    }
  }

  /** A launch adds its head events, then stops every worker unless it got as far
      as committing. */
  lemma LaunchLog<S>(ctl: WorkerCtl<S>, ops: Swap.Ops<S>, w: World<S>, ws: seq<Node>, opts: Swap.Opts)
    requires Headless(w.log)
    ensures var (v, r) := LaunchHead(ctl, ops, w, ws, opts);
      var (h, _, committed) := RunHead(ops, Swap.World(w.state, []), opts);
      && Starts(v.log) == Starts(w.log)
      && (if committed then v.log == w.log + Heads(h.log) && Stops(v.log) == Stops(w.log)
          else Stops(v.log) == Stops(w.log) + ws)
      && (forall e :: Head(e) in v.log <==> e in h.log)
  {
    hide RunHead, Teardown, Starts, Stops;
    var (h, _, committed) := RunHead(ops, Swap.World(w.state, []), opts);
    var v := World(h.state, w.log + Heads(h.log));
    TallyHead(w.log, h.log);
    TeardownTally(ctl, v, ws);
    assert forall e :: e in h.log <==> Head(e) in Heads(h.log);
  }

  /** The state after asking a worker `k` times. */
  function Pinged<S>(ctl: WorkerCtl<S>, s: S, n: Node, k: nat): S {
    if k == 0 then s else Pinged(ctl, ctl.accepting(s, n).0, n, k - 1)
  }

  ghost predicate SaysYes<S>(ctl: WorkerCtl<S>, s: S, n: Node, attempts: nat, k: nat) {
    k < attempts && ctl.accepting(Pinged(ctl, s, n, k), n).1
  }

  ghost predicate AcceptsWithin<S>(ctl: WorkerCtl<S>, s: S, n: Node, attempts: nat) {
    exists k: nat :: SaysYes(ctl, s, n, attempts, k)
  }

  /** A worker is waited for until it accepts, as often as it may be asked. */
  lemma {:induction false} PollAcceptExact<S>(ctl: WorkerCtl<S>, w: World<S>, n: Node, attempts: nat)
    ensures PollAccept(ctl, w, n, attempts).1 <==> AcceptsWithin(ctl, w.state, n, attempts)
    decreases attempts
  {
    if attempts > 0 {
      var (v, ok) := Ping(ctl, w, n);
      if ok {
        assert SaysYes(ctl, w.state, n, attempts, 0);
      } else {
        PollAcceptExact(ctl, v, n, attempts - 1);
        if PollAccept(ctl, v, n, attempts - 1).1 {
          var k: nat :| SaysYes(ctl, v.state, n, attempts - 1, k);
          assert SaysYes(ctl, w.state, n, attempts, k + 1);
        }
        if AcceptsWithin(ctl, w.state, n, attempts) {
          var k: nat :| SaysYes(ctl, w.state, n, attempts, k);
          assert k > 0 && SaysYes(ctl, v.state, n, attempts - 1, k - 1);
        }
      }
    }
  }

  /** Workers that start whenever they are asked to, and that accept within the
      attempts from any state on, bring the bring-up to its head. */
  lemma WillingRackReachesHead<S(!new)>(ctl: WorkerCtl<S>, w: World<S>, ws: seq<Node>, opts: Swap.Opts)
    requires forall s, n :: n in ws ==> ctl.start(s, n).1
    requires forall s, n :: n in ws ==> AcceptsWithin(ctl, s, n, opts.attempts)
    ensures ReachesHead(ctl, w, ws, opts)
  {
    AllStart(ctl, w, ws);
    AllAccept(ctl, StartAll(ctl, w, ws).0, ws, opts.attempts);
    hide StartAll, AcceptAll, AcceptsWithin;
  }

  lemma {:induction false} AllStart<S(!new)>(ctl: WorkerCtl<S>, w: World<S>, ws: seq<Node>)
    requires forall s, n :: n in ws ==> ctl.start(s, n).1
    ensures StartAll(ctl, w, ws).1 == |ws|
    decreases |ws|
  {
    if ws != [] {
      assert ws[0] in ws && forall n :: n in ws[1..] ==> n in ws;
      AllStart(ctl, Start(ctl, w, ws[0]).0, ws[1..]);
    }
  }

  lemma {:induction false} AllAccept<S(!new)>(ctl: WorkerCtl<S>, w: World<S>, ws: seq<Node>, attempts: nat)
    requires forall s, n :: n in ws ==> AcceptsWithin(ctl, s, n, attempts)
    ensures AcceptAll(ctl, w, ws, attempts).1
    decreases |ws|
  {
    hide AcceptsWithin, PollAccept;
    if ws != [] {
      assert ws[0] in ws && forall n :: n in ws[1..] ==> n in ws;
      PollAcceptExact(ctl, w, ws[0], attempts);
      AllAccept(ctl, PollAccept(ctl, w, ws[0], attempts).0, ws[1..], attempts);
    }
  }

  /** Every worker starts and is seen accepting. */
  predicate ReachesHead<S>(ctl: WorkerCtl<S>, w: World<S>, ws: seq<Node>, opts: Swap.Opts) {
    var (w1, k) := StartAll(ctl, w, ws);
    k >= |ws| && AcceptAll(ctl, w1, ws, opts.attempts).1
  }

  /** The world in which the head is launched. */
  function AtHead<S>(ctl: WorkerCtl<S>, w: World<S>, ws: seq<Node>, opts: Swap.Opts): S {
    AcceptAll(ctl, StartAll(ctl, w, ws).0, ws, opts.attempts).0.state
  }

  /** The head stages, restarts and answers healthy, and its commit is refused. */
  predicate CommitRefused<S>(ops: Swap.Ops<S>, s: S, opts: Swap.Opts) {
    var (h1, up) := Swap.StageAndRestart(ops, Swap.World(s, []));
    var (h2, healthy) := Swap.PollHealth(ops, h1, opts.attempts);
    up && healthy && !ops.commit(Swap.Warm(ops, h2, opts.prewarm).state).1
  }

  lemma CommitAnswer<S>(ops: Swap.Ops<S>, s: S, opts: Swap.Opts)
    ensures var (_, r, committed) := RunHead(ops, Swap.World(s, []), opts);
      (committed && r != Outcome(true)) <==> CommitRefused(ops, s, opts)
    ensures var (_, r, committed) := RunHead(ops, Swap.World(s, []), opts);
      r == Outcome(true) ==> committed
  {
    hide Swap.PollHealth;
  }

  /** Whatever fails, a return other than success has called stop on exactly the
      workers whose start succeeded, each once and in order, unless it is the
      commit that fails: then no worker is stopped. */
  lemma NeverHalfForms<S>(
    ctl: WorkerCtl<S>, head: string -> Swap.Ops<S>, s: S, ws: seq<Node>, port: nat,
    flags: string, opts: Swap.Opts)
    requires Up(ctl, head, World(s, []), ws, port, flags, opts).1 != Outcome(true)
    ensures var log := Up(ctl, head, World(s, []), ws, port, flags, opts).0.log;
      var rpc := InjectRpc(flags, Endpoints(ws, port));
      Stops(log) == Starts(log)
      <==> ws == []
           || !ReachesHead(ctl, World(s, []), ws, opts)
           || !CommitRefused(head(rpc), AtHead(ctl, World(s, []), ws, opts), opts)
  {
    hide StartAll, AcceptAll, Teardown, InjectRpc, Endpoints, RunHead, CommitRefused;
    var w0 := World(s, []);
    StartAllTally(ctl, w0, ws);
    var (w1, k) := StartAll(ctl, w0, ws);
    if k < |ws| {
      TeardownTally(ctl, w1, ws[..k]);
      assert Starts(w0.log) + ws[..k] == ws[..k];
    } else {
      AcceptAllTally(ctl, w1, ws, opts.attempts);
      var (w2, accepted) := AcceptAll(ctl, w1, ws, opts.attempts);
      assert ws[..k] == ws;
      TeardownTally(ctl, w2, ws);
      var rpc := InjectRpc(flags, Endpoints(ws, port));
      Tally(w2.log, Launch(rpc));
      var w3 := w2.(log := w2.log + [Launch(rpc)]);
      LaunchLog(ctl, head(rpc), w3, ws, opts);
      CommitAnswer(head(rpc), w3.state, opts);
      hide Starts, Stops, Headless;
    }
  }

  /** One worker, a head on which only the commit fails: the worker is left running. */
  lemma FailedCommitLeaksWorker(n: Node)
    ensures var (w, r) := Up(WILLING, UNSAVING_HEAD, World((), []), [n], 50052, "", Swap.Opts(1, false));
      r == Err && Starts(w.log) == [n] && Stops(w.log) == []
  {
    var w0, opts := World((), []), Swap.Opts(1, false);
    var rpc := InjectRpc("", Endpoints([n], 50052));
    hide *;
    UpToLaunch(WILLING, UNSAVING_HEAD, w0, [n], 50052, "", opts);
    var w2 := WorkerComesUp(n);
    Tally(w2.log, Launch(rpc));
    CommitLeaves(w2.(log := w2.log + [Launch(rpc)]), rpc, [n], opts);
  }

  lemma NothingYet()
    ensures Starts([]) == [] && Stops([]) == []
  {}

  /** A bring-up whose workers all start and accept is its launch. */
  lemma UpToLaunch<S>(
    ctl: WorkerCtl<S>, head: string -> Swap.Ops<S>, w0: World<S>, ws: seq<Node>, port: nat,
    flags: string, opts: Swap.Opts)
    ensures var rpc := InjectRpc(flags, Endpoints(ws, port));
      var (w1, k) := StartAll(ctl, w0, ws);
      var (w2, accepted) := AcceptAll(ctl, w1, ws, opts.attempts);
      k >= |ws| && accepted ==>
        Up(ctl, head, w0, ws, port, flags, opts)
        == LaunchHead(ctl, head(rpc), w2.(log := w2.log + [Launch(rpc)]), ws, opts)
  {
    hide StartAll, AcceptAll, InjectRpc, Endpoints, LaunchHead, Teardown;
  }

  /** Workers that always do as told. */
  const WILLING := WorkerCtl(
    (s: (), m: Node) => (s, true), (s: (), m: Node) => (s, true), (s: (), m: Node) => (s, true))

  /** A head on which everything but the commit works. */
  const UNSAVING := Swap.Ops(
    (s: ()) => (s, true), (s: ()) => (s, true), (s: ()) => (s, false), (s: ()) => (s, true), (s: ()) => (s, true),
    (s: ()) => (s, None), (s: ()) => s)

  const UNSAVING_HEAD: string -> Swap.Ops<()> := flags => UNSAVING

  lemma WorkerComesUp(n: Node) returns (w2: World<()>)
    ensures var (w1, k) := StartAll(WILLING, World((), []), [n]);
      k == 1 && AcceptAll(WILLING, w1, [n], 1) == (w2, true)
    ensures Starts(w2.log) == [n] && Stops(w2.log) == [] && Headless(w2.log)
  {
    var w0 := World((), []);
    NothingYet();
    StartAllTally(WILLING, w0, [n]);
    var w1 := Start(WILLING, w0, n).0;
    assert StartAll(WILLING, w1, [n][1..]) == (w1, 0);
    AcceptAllTally(WILLING, w1, [n], 1);
    w2 := Ping(WILLING, w1, n).0;
    assert PollAccept(WILLING, w1, n, 1) == (w2, true);
    assert AcceptAll(WILLING, w2, [n][1..], 1) == (w2, true);
    hide Starts, Stops;
    assert [n][..1] == [n] && [] + [n] == [n];
  }

  lemma CommitLeaves(w: World<()>, rpc: string, ws: seq<Node>, opts: Swap.Opts)
    requires Headless(w.log) && opts == Swap.Opts(1, false)
    ensures var (v, r) := LaunchHead(WILLING, UNSAVING_HEAD(rpc), w, ws, opts);
      r == Err && Starts(v.log) == Starts(w.log) && Stops(v.log) == Stops(w.log)
  {
    hide Starts, Stops, Teardown, Heads;
    LaunchLog(WILLING, UNSAVING, w, ws, opts);
    assert Swap.PollHealth(UNSAVING, Swap.StageAndRestart(UNSAVING, Swap.World((), [])).0, 1).1;
  }

  /** In a failed launch a commit appears only as the failing one. */
  lemma FailedCommit(events: seq<Swap.Event>, opts: Swap.Opts, r: Result)
    requires LaunchShape(events, opts, r)
    ensures r != Outcome(true) ==> Swap.Committed(true) !in events
    ensures r == Outcome(true) ==> exists k: nat :: CommitShape(events, opts, k, true)
  {}

  /** Success means every worker was seen accepting, none was stopped, and the
      head was launched with the workers' endpoints, healthy, and committed. */
  lemma SuccessMeansServing<S>(
    ctl: WorkerCtl<S>, head: string -> Swap.Ops<S>, s: S, ws: seq<Node>, port: nat,
    flags: string, opts: Swap.Opts)
    requires Up(ctl, head, World(s, []), ws, port, flags, opts).1 == Outcome(true)
    ensures var log := Up(ctl, head, World(s, []), ws, port, flags, opts).0.log;
      && Starts(log) == ws && Stops(log) == []
      && (forall n :: n in ws ==> Accepted(n, true) in log)
      && Launched(log, InjectRpc(flags, Endpoints(ws, port)), opts)
  {
    hide StartAll, AcceptAll, Teardown, InjectRpc, Endpoints, RunHead, Starts, Stops, LaunchedAt;
    NothingYet();
    var w0 := World(s, []);
    StartAllTally(ctl, w0, ws);
    var (w1, k) := StartAll(ctl, w0, ws);
    assert ws[..k] == ws && [] + ws == ws;
    AcceptAllTally(ctl, w1, ws, opts.attempts);
    var (w2, accepted) := AcceptAll(ctl, w1, ws, opts.attempts);
    var rpc := InjectRpc(flags, Endpoints(ws, port));
    Tally(w2.log, Launch(rpc));
    UpToLaunch(ctl, head, w0, ws, port, flags, opts);
    hide Up, Headless;
    LaunchSucceeds(ctl, head(rpc), w2, rpc, ws, opts);
  }

  lemma LaunchSucceeds<S>(
    ctl: WorkerCtl<S>, ops: Swap.Ops<S>, w: World<S>, rpc: string, ws: seq<Node>, opts: Swap.Opts)
    requires Headless(w.log) && LaunchHead(ctl, ops, w.(log := w.log + [Launch(rpc)]), ws, opts).1 == Outcome(true)
    ensures var log := w.log + [Launch(rpc)];
      var v := LaunchHead(ctl, ops, w.(log := log), ws, opts).0;
      && Starts(v.log) == Starts(log) && Stops(v.log) == Stops(log)
      && (forall e :: e in w.log ==> e in v.log)
      && Launched(v.log, rpc, opts)
  {
    hide RunHead, Teardown, Starts, Stops;
    var w3 := w.(log := w.log + [Launch(rpc)]);
    LaunchLog(ctl, ops, w3, ws, opts);
    RunHeadShape(ops, w3.state, opts);
    var (h, r, committed) := RunHead(ops, Swap.World(w3.state, []), opts);
    FailedCommit(h.log, opts, r);
    var j: nat :| CommitShape(h.log, opts, j, true);
    assert h.log[|h.log| - 1] == Swap.Committed(true);
    hide LaunchShape, Headless;
    assert LaunchedAt(LaunchHead(ctl, ops, w3, ws, opts).0.log, rpc, opts, w.log, h.log, j);
  }

  ghost predicate Launched(log: seq<Event>, flags: string, opts: Swap.Opts) {
    exists before, events, k: nat :: LaunchedAt(log, flags, opts, before, events, k)
  }

  ghost predicate LaunchedAt(
    log: seq<Event>, flags: string, opts: Swap.Opts, before: seq<Event>, events: seq<Swap.Event>, k: nat)
  {
    log == before + [Launch(flags)] + Heads(events) && CommitShape(events, opts, k, true)
  }

  /** The head is rolled back exactly when it restarted but never became healthy:
      a stage or restart that fails is followed by no rollback. */
  lemma HeadRolledBackExactly<S>(
    ctl: WorkerCtl<S>, ops: Swap.Ops<S>, w: World<S>, ws: seq<Node>, opts: Swap.Opts)
    requires Headless(w.log)
    ensures var log := LaunchHead(ctl, ops, w, ws, opts).0.log;
      (exists ok :: Head(Swap.RolledBack(ok)) in log)
      <==> Head(Swap.Restarted(true)) in log && Head(Swap.Probed(true)) !in log
  {
    hide RunHead, LaunchHead;
    LaunchLog(ctl, ops, w, ws, opts);
    RunHeadShape(ops, w.state, opts);
    var (h, r, _) := RunHead(ops, Swap.World(w.state, []), opts);
    RolledBackShape(h.log, opts, r);
    hide LaunchShape;
  }

  /** What a launch answers: up when the commit worked; taken back when the rollback
      and the restart after it worked; an error in every other case. */
  lemma LaunchVerdict<S>(
    ctl: WorkerCtl<S>, ops: Swap.Ops<S>, w: World<S>, ws: seq<Node>, opts: Swap.Opts)
    requires Headless(w.log)
    ensures var (v, r) := LaunchHead(ctl, ops, w, ws, opts);
      && (r == Outcome(true) <==> Head(Swap.Committed(true)) in v.log)
      && (r == Outcome(false) <==> Head(Swap.RolledBack(true)) in v.log && Head(Swap.Restarted(false)) !in v.log)
  {
    LaunchLog(ctl, ops, w, ws, opts);
    RunHeadShape(ops, w.state, opts);
    var (h, r, _) := RunHead(ops, Swap.World(w.state, []), opts);
    assert LaunchHead(ctl, ops, w, ws, opts).1 == r;
    hide RunHead, LaunchHead, LaunchShape;
    VerdictShape(h.log, opts, r);
  }

  lemma VerdictShape(events: seq<Swap.Event>, opts: Swap.Opts, r: Result)
    requires LaunchShape(events, opts, r)
    ensures r == Outcome(true) <==> Swap.Committed(true) in events
    ensures r == Outcome(false) <==> Swap.RolledBack(true) in events && Swap.Restarted(false) !in events
  {
    if k: nat, kept :| CommitShape(events, opts, k, kept) && r == if kept then Outcome(true) else Err {
      CommitVerdict(events, opts, k, kept);
    } else if a, b :| RevertShape(events, opts, a, b) && r == if a && b then Outcome(false) else Err {
      RevertVerdict(events, opts, a, b);
    }
    hide CommitShape, RevertShape;
  }

  lemma CommitVerdict(events: seq<Swap.Event>, opts: Swap.Opts, k: nat, kept: bool)
    requires CommitShape(events, opts, k, kept)
    ensures (Swap.Committed(true) in events <==> kept) && Swap.RolledBack(true) !in events
  {
    assert events[|events| - 1] == Swap.Committed(kept);
  }

  lemma RevertVerdict(events: seq<Swap.Event>, opts: Swap.Opts, a: bool, b: bool)
    requires RevertShape(events, opts, a, b)
    ensures Swap.Committed(true) !in events
    ensures Swap.RolledBack(true) in events && Swap.Restarted(false) !in events <==> a && b
  {
    assert events[2 + opts.attempts] == Swap.RolledBack(a);
    if a { assert events[3 + opts.attempts] == Swap.Restarted(b); }
  }

  lemma RolledBackShape(events: seq<Swap.Event>, opts: Swap.Opts, r: Result)
    requires LaunchShape(events, opts, r)
    ensures (exists ok :: Swap.RolledBack(ok) in events)
      <==> Swap.Restarted(true) in events && Swap.Probed(true) !in events
  {
    if exists k: nat, kept :: CommitShape(events, opts, k, kept) {
      var k: nat, kept :| CommitShape(events, opts, k, kept);
      CommittedShape(events, opts, k, kept);
    } else if exists a, b :: RevertShape(events, opts, a, b) {
      var a, b :| RevertShape(events, opts, a, b);
      RevertedShape(events, opts, a, b);
    }
  }

  lemma CommittedShape(events: seq<Swap.Event>, opts: Swap.Opts, k: nat, kept: bool)
    requires CommitShape(events, opts, k, kept)
    ensures Swap.Probed(true) in events && forall ok :: Swap.RolledBack(ok) !in events
  {
    assert events[2 + k] == Swap.Probed(true);
  }

  lemma RevertedShape(events: seq<Swap.Event>, opts: Swap.Opts, a: bool, b: bool)
    requires RevertShape(events, opts, a, b)
    ensures Swap.RolledBack(a) in events && Swap.Restarted(true) in events && Swap.Probed(true) !in events
  {
    assert events[1] == Swap.Restarted(true);
    assert events[2 + opts.attempts] == Swap.RolledBack(a);
  }

  // --- The head's drop-ins --------------------------------------------------

  /** A head's actuator and probe beside whatever state the workers have. */
  function OnHead<R>(ops: Swap.Ops<Swap.Unit>): Swap.Ops<(R, Swap.Unit)> {
    Swap.Ops(
      (s: (R, Swap.Unit)) => var (u, ok) := ops.stage(s.1); ((s.0, u), ok),
      (s: (R, Swap.Unit)) => var (u, ok) := ops.rollback(s.1); ((s.0, u), ok),
      (s: (R, Swap.Unit)) => var (u, ok) := ops.commit(s.1); ((s.0, u), ok),
      (s: (R, Swap.Unit)) => var (u, ok) := ops.restart(s.1); ((s.0, u), ok),
      (s: (R, Swap.Unit)) => var (u, ok) := ops.healthy(s.1); ((s.0, u), ok),
      (s: (R, Swap.Unit)) => var (u, name) := ops.served(s.1); ((s.0, u), name),
      (s: (R, Swap.Unit)) => (s.0, ops.warm(s.1)))
  }

  /** Worker control does not reach the head's unit. */
  ghost predicate Remote<R(!new)>(ctl: WorkerCtl<(R, Swap.Unit)>) {
    forall s: (R, Swap.Unit), n: Node ::
      ctl.start(s, n).0.1 == s.1 && ctl.stop(s, n).0.1 == s.1 && ctl.accepting(s, n).0.1 == s.1
  }

  lemma {:induction false} StartAllRemote<R(!new)>(
    ctl: WorkerCtl<(R, Swap.Unit)>, w: World<(R, Swap.Unit)>, ws: seq<Node>)
    requires Remote(ctl)
    ensures StartAll(ctl, w, ws).0.state.1 == w.state.1
    decreases |ws|
  {
    if ws != [] { StartAllRemote(ctl, Start(ctl, w, ws[0]).0, ws[1..]); }
  }

  lemma {:induction false} TeardownRemote<R(!new)>(
    ctl: WorkerCtl<(R, Swap.Unit)>, w: World<(R, Swap.Unit)>, ws: seq<Node>)
    requires Remote(ctl)
    ensures Teardown(ctl, w, ws).state.1 == w.state.1
    decreases |ws|
  {
    if ws != [] { TeardownRemote(ctl, StopOne(ctl, w, ws[0]), ws[1..]); }
  }

  lemma {:induction false} PollAcceptRemote<R(!new)>(
    ctl: WorkerCtl<(R, Swap.Unit)>, w: World<(R, Swap.Unit)>, n: Node, attempts: nat)
    requires Remote(ctl)
    ensures PollAccept(ctl, w, n, attempts).0.state.1 == w.state.1
    decreases attempts
  {
    if attempts > 0 { PollAcceptRemote(ctl, Ping(ctl, w, n).0, n, attempts - 1); }
  }

  lemma {:induction false} AcceptAllRemote<R(!new)>(
    ctl: WorkerCtl<(R, Swap.Unit)>, w: World<(R, Swap.Unit)>, ws: seq<Node>, attempts: nat)
    requires Remote(ctl)
    ensures AcceptAll(ctl, w, ws, attempts).0.state.1 == w.state.1
    decreases |ws|
  {
    if ws != [] {
      PollAcceptRemote(ctl, w, ws[0], attempts);
      AcceptAllRemote(ctl, PollAccept(ctl, w, ws[0], attempts).0, ws[1..], attempts);
    }
  }

  /** Probing asks until the first yes; in vain it takes one answer for each attempt
      and changes nothing else. */
  lemma {:induction false} PollTurns<R>(
    etcWritable: bool, dropin: string, h: Swap.World<(R, Swap.Unit)>, attempts: nat)
    ensures var (v, ok) := Swap.PollHealth(OnHead(Swap.Systemd(etcWritable, dropin)), h, attempts);
      && (ok <==> Swap.YesWithin(h.state.1.tape, h.state.1.tick, attempts))
      && (!ok ==> v.state.1 == h.state.1.(tick := h.state.1.tick + attempts))
    decreases attempts
  {
    hide Swap.YesWithin, Swap.Systemd, OnHead, Swap.Probe;
    var ops, u := OnHead(Swap.Systemd(etcWritable, dropin)), h.state.1;
    if attempts > 0 {
      var (v, ok) := Swap.Probe(ops, h);
      ProbeTurn(etcWritable, dropin, h);
      Swap.NowOrLater(u.tape, u.tick, attempts);
      if !ok { PollTurns(etcWritable, dropin, v, attempts - 1); }
    } else {
      NotWithinNone(u.tape, u.tick);
    }
  }

  lemma ProbeTurn<R>(etcWritable: bool, dropin: string, h: Swap.World<(R, Swap.Unit)>)
    ensures var ((v, ok), u) := (Swap.Probe(OnHead(Swap.Systemd(etcWritable, dropin)), h), h.state.1);
      v.state.1 == u.(tick := u.tick + 1) && ok == u.tape(u.tick).ok
  {}

  lemma NotWithinNone(tape: nat -> Swap.Answer, from: nat)
    ensures !Swap.YesWithin(tape, from, 0)
  {}

  /** When a launch that fails leaves the head's drop-ins as they were: by the
      answers its stage, its restart and its rollback are given. */
  ghost predicate HeadKept(
    files: DropIns.Files, etcWritable: bool, dropin: string, tape: nat -> Swap.Answer, attempts: nat)
  {
    var env := tape(0).env;
    var ours := DropIns.Collect(etcWritable, files, DropIns.ROOTS, env.list).ours;
    var path := DropIns.StagedPath(etcWritable, files, env);
    if !DropIns.Completes(env) || !tape(1).ok then DropIns.Unchanging(files, ours, path, dropin, env)
    else DropIns.Undoes(files, ours, path, dropin, env, tape(2 + attempts).env)
  }

  function Fresh(files: DropIns.Files, tape: nat -> Swap.Answer): Swap.Unit {
    Swap.Unit(DropIns.Node(files, DropIns.FRESH), tape, 0)
  }

  lemma HeadCommits<R>(
    r: R, files: DropIns.Files, tape: nat -> Swap.Answer, etcWritable: bool, dropin: string, opts: Swap.Opts)
    ensures var (h, out, committed) :=
        RunHead(OnHead(Swap.Systemd(etcWritable, dropin)), Swap.World((r, Fresh(files, tape)), []), opts);
      && committed == (out == Outcome(true))
      && (committed <==> DropIns.Completes(tape(0).env) && tape(1).ok && Swap.YesWithin(tape, 2, opts.attempts))
  {
    hide DropIns.Stage, DropIns.Rollback, DropIns.Completes, Swap.YesWithin;
    var ops := OnHead<R>(Swap.Systemd(etcWritable, dropin));
    var h1 := Swap.StageAndRestart(ops, Swap.World((r, Fresh(files, tape)), [])).0;
    StageAnswers(r, files, tape, etcWritable, dropin);
    hide Swap.StageAndRestart, Swap.PollHealth;
    PollTurns(etcWritable, dropin, h1, opts.attempts);
  }

  lemma RunHeadFiles<R>(
    r: R, files: DropIns.Files, tape: nat -> Swap.Answer, etcWritable: bool, dropin: string, opts: Swap.Opts)
    requires DropIns.Lists(tape(0).env.list)
    ensures var (h, out, committed) :=
        RunHead(OnHead(Swap.Systemd(etcWritable, dropin)), Swap.World((r, Fresh(files, tape)), []), opts);
      && committed == (out == Outcome(true))
      && (!committed ==>
            (h.state.1.node.files == files <==> HeadKept(files, etcWritable, dropin, tape, opts.attempts)))
  {
    hide DropIns.Stage, DropIns.Rollback, DropIns.Collect, DropIns.StagedPath, DropIns.Undoes, DropIns.Unchanging;
    hide DropIns.Lists, DropIns.Completes, Swap.YesWithin;
    var ops := OnHead<R>(Swap.Systemd(etcWritable, dropin));
    var env, undo := tape(0).env, tape(2 + opts.attempts).env;
    DropIns.StageKeepsExact(files, etcWritable, dropin, env);
    var (h1, up) := Swap.StageAndRestart(ops, Swap.World((r, Fresh(files, tape)), []));
    StageAnswers(r, files, tape, etcWritable, dropin);
    hide Swap.StageAndRestart, Swap.PollHealth;
    if up {
      PollTurns(etcWritable, dropin, h1, opts.attempts);
      DropIns.UndoExact(files, etcWritable, dropin, env, undo);
    }
  }

  lemma StageAnswers<R>(r: R, files: DropIns.Files, tape: nat -> Swap.Answer, etcWritable: bool, dropin: string)
    ensures var (h, up) := Swap.StageAndRestart(
        OnHead(Swap.Systemd(etcWritable, dropin)), Swap.World((r, Fresh(files, tape)), []));
      var ok := DropIns.Completes(tape(0).env);
      && up == (ok && tape(1).ok)
      && h.state.1 == Swap.Unit(
           DropIns.Stage(DropIns.Node(files, DropIns.FRESH), etcWritable, dropin, tape(0).env).0,
           tape, if ok then 2 else 1)
  {
    DropIns.StagedFiles(files, etcWritable, dropin, tape(0).env);
    hide DropIns.Stage, DropIns.Completes, DropIns.Collect, DropIns.StagedPath;
  }

  /** With the systemd actuator on the head, a bring-up succeeds if and only if every
      worker starts and is seen accepting, the stage's calls and the restart work,
      and some health probe is answered. */
  lemma UpSucceedsExactly<R(!new)>(
    ctl: WorkerCtl<(R, Swap.Unit)>, etcWritable: bool, render: string -> string,
    r: R, files: DropIns.Files, tape: nat -> Swap.Answer,
    ws: seq<Node>, port: nat, flags: string, opts: Swap.Opts)
    requires Remote(ctl)
    ensures Up(ctl, f => OnHead(Swap.Systemd(etcWritable, render(f))), World((r, Fresh(files, tape)), []),
               ws, port, flags, opts).1 == Outcome(true)
      <==> ReachesHead(ctl, World((r, Fresh(files, tape)), []), ws, opts)
           && DropIns.Completes(tape(0).env) && tape(1).ok && Swap.YesWithin(tape, 2, opts.attempts)
  {
    hide StartAll, AcceptAll, Teardown, InjectRpc, Endpoints, RunHead, HeadKept, Remote, Swap.YesWithin;
    hide DropIns.Completes;
    var rpc := InjectRpc(flags, Endpoints(ws, port));
    var w0 := World((r, Fresh(files, tape)), []);
    var (w1, k) := StartAll(ctl, w0, ws);
    StartAllRemote(ctl, w0, ws);
    var (w2, accepted) := AcceptAll(ctl, w1, ws, opts.attempts);
    AcceptAllRemote(ctl, w1, ws, opts.attempts);
    HeadCommits(w2.state.0, files, tape, etcWritable, render(rpc), opts);
    UpToLaunch(ctl, f => OnHead(Swap.Systemd(etcWritable, render(f))), w0, ws, port, flags, opts);
  }

  /** A rack without workers, one own drop-in on the head and a failing `Mkdir`:
      the bring-up fails and the drop-in is gone. */
  lemma FailedLaunchLosesOwn<R(!new)>(ctl: WorkerCtl<(R, Swap.Unit)>, r: R, tape: nat -> Swap.Answer)
    requires DropIns.Lists(tape(0).env.list) && forall c :: tape(0).env.works(c) <==> !c.Mkdir?
    ensures var files := map[DropIns.Path(DropIns.ETC, "a.conf") := DropIns.MARKER];
      var (w, out) := Up(ctl, f => OnHead(Swap.Systemd(true, "new")), World((r, Fresh(files, tape)), []),
                         [], 50052, "", Swap.Opts(1, false));
      out == Err && w.state.1.node.files != files
  {
    var files := map[DropIns.Path(DropIns.ETC, "a.conf") := DropIns.MARKER];
    var ops := OnHead<R>(Swap.Systemd(true, "new"));
    var w0, opts := World((r, Fresh(files, tape)), []), Swap.Opts(1, false);
    DropIns.FailedStageLosesOwn(tape(0).env);
    StageAnswers(r, files, tape, true, "new");
    hide DropIns.Stage, DropIns.Lists, Swap.StageAndRestart, InjectRpc, Heads;
    UpToLaunch(ctl, f => ops, w0, [], 50052, "", opts);
  }

  /** A bring-up that does not succeed, whichever worker or head step fails, leaves
      the head's drop-ins byte for byte as they were if and only if it never got to
      the head, or its failed launch did so: after a failed stage nothing is put
      back, after a failed restart the new drop-in stays. */
  lemma FailedUpHeadExact<R(!new)>(
    ctl: WorkerCtl<(R, Swap.Unit)>, etcWritable: bool, render: string -> string,
    r: R, files: DropIns.Files, tape: nat -> Swap.Answer,
    ws: seq<Node>, port: nat, flags: string, opts: Swap.Opts)
    requires Remote(ctl) && DropIns.Lists(tape(0).env.list)
    requires Up(ctl, f => OnHead(Swap.Systemd(etcWritable, render(f))), World((r, Fresh(files, tape)), []),
                ws, port, flags, opts).1 != Outcome(true)
    ensures var w := Up(ctl, f => OnHead(Swap.Systemd(etcWritable, render(f))), World((r, Fresh(files, tape)), []),
                        ws, port, flags, opts).0;
      w.state.1.node.files == files
      <==> !ReachesHead(ctl, World((r, Fresh(files, tape)), []), ws, opts)
           || HeadKept(files, etcWritable, render(InjectRpc(flags, Endpoints(ws, port))), tape, opts.attempts)
  {
    hide StartAll, AcceptAll, Teardown, InjectRpc, Endpoints, RunHead, HeadKept, Remote;
    var rpc := InjectRpc(flags, Endpoints(ws, port));
    var w0 := World((r, Fresh(files, tape)), []);
    var (w1, k) := StartAll(ctl, w0, ws);
    StartAllRemote(ctl, w0, ws);
    if k < |ws| {
      TeardownRemote(ctl, w1, ws[..k]);
    } else {
      var (w2, accepted) := AcceptAll(ctl, w1, ws, opts.attempts);
      AcceptAllRemote(ctl, w1, ws, opts.attempts);
      if !accepted {
        TeardownRemote(ctl, w2, ws);
      } else {
        var ops := OnHead<R>(Swap.Systemd(etcWritable, render(rpc)));
        var w3 := w2.(log := w2.log + [Launch(rpc)]);
        RunHeadFiles(w2.state.0, files, tape, etcWritable, render(rpc), opts);
        var (h, _, _) := RunHead(ops, Swap.World(w3.state, []), opts);
        var v := World(h.state, w3.log + Heads(h.log));
        TeardownRemote(ctl, v, ws);
      }
    }
  }

  /** An endpoint reads back as the worker's host, or its name where it has none,
      and the port. */
  lemma EndpointReads(n: Node, port: nat)
    requires port < 0x1_0000 && ':' !in (if n.host.Some? then n.host.value else n.name)
    ensures SplitOnce(Endpoint(n, port), ':')
         == Some((if n.host.Some? then n.host.value else n.name, Decimal(port)))
    ensures ParseU16(Decimal(port)) == Some(port)
  {
    var host := if n.host.Some? then n.host.value else n.name;
    assert Endpoint(n, port) == host + [':'] + Decimal(port);
    SplitOnceAt(host, ':', Decimal(port));
    DecimalValue(port);
    assert IsDigit(Decimal(port)[0]);
    hide SplitOnce;
  }

  /** Without workers the flags stay as they are. */
  lemma SoloFlags(flags: string)
    ensures InjectRpc(flags, []) == flags
  {}

  /** The head's flags carry, after the flags of its profile, one `--rpc` word
      whose comma-separated parts are exactly the workers' endpoints. */
  lemma RpcListExact(flags: string, endpoints: seq<string>)
    requires endpoints != []
    requires forall i :: 0 <= i < |endpoints| ==> IsWord(endpoints[i]) && ',' !in endpoints[i]
    ensures Words(InjectRpc(flags, endpoints)) == Words(flags) + ["--rpc", Join(endpoints, ",")]
    ensures Split(Join(endpoints, ","), ',') == endpoints
  {
    hide Words, Split;
    SplitOfJoin(endpoints, ',');
    JoinIsWord(endpoints);
    var list := Join(endpoints, ",");
    WordsOfJoin(["--rpc", list]);
    WordsConcat(flags, "--rpc" + " " + list);
    assert InjectRpc(flags, endpoints) == flags + " " + ("--rpc" + " " + list);
  }

  lemma {:induction false} JoinIsWord(ws: seq<string>)
    requires ws != [] && forall i :: 0 <= i < |ws| ==> IsWord(ws[i])
    ensures IsWord(Join(ws, ","))
  {
    assert !IsSpace(',');
    hide IsSpace;
    if |ws| > 1 { JoinIsWord(ws[1..]); }
  }

  // --- The commands themselves ----------------------------------------------

  class Rack<S> {
    const ctl: WorkerCtl<S>
    var world: World<S>

    constructor (c: WorkerCtl<S>, s: S)
      ensures ctl == c && world == World(s, [])
    {
      ctl, world := c, World(s, []);
    }

    method StopAll(ws: seq<Node>)
      modifies this
      ensures world == Teardown(ctl, old(world), ws)
    {
      var i := 0;
      while i < |ws|
        invariant 0 <= i <= |ws|
        invariant Teardown(ctl, old(world), ws) == Teardown(ctl, world, ws[i..])
      {
        assert ws[i..][0] == ws[i] && ws[i..][1..] == ws[i + 1..];
        world := StopOne(ctl, world, ws[i]);
        i := i + 1;
      }
    }

    method WaitAccepting(n: Node, attempts: nat) returns (ok: bool)
      modifies this
      ensures (world, ok) == PollAccept(ctl, old(world), n, attempts)
    {
      var i := 0;
      while i < attempts
        invariant 0 <= i <= attempts
        invariant PollAccept(ctl, old(world), n, attempts) == PollAccept(ctl, world, n, attempts - i)
      {
        var (w, accepts) := Ping(ctl, world, n);
        world := w;
        if accepts { return true; }
        i := i + 1;
      }
      return false;
    }

    method BringUp(
      head: string -> Swap.Ops<S>, ws: seq<Node>, port: nat, flags: string, opts: Swap.Opts)
      returns (r: Result)
      modifies this
      ensures (world, r) == Up(ctl, head, old(world), ws, port, flags, opts)
    {
      hide InjectRpc, Endpoints, LaunchHead, Teardown, PollAccept;
      ghost var w0 := world;
      var i := 0;
      while i < |ws|
        invariant 0 <= i <= |ws|
        invariant var (w, k) := StartAll(ctl, world, ws[i..]); StartAll(ctl, w0, ws) == (w, i + k)
      {
        assert ws[i..][0] == ws[i] && ws[i..][1..] == ws[i + 1..];
        var (w, ok) := Start(ctl, world, ws[i]);
        world := w;
        if !ok {
          StopAll(ws[..i]);
          return Outcome(false);
        }
        i := i + 1;
      }
      ghost var w1 := world;
      var j := 0;
      while j < |ws|
        invariant 0 <= j <= |ws|
        invariant AcceptAll(ctl, w1, ws, opts.attempts) == AcceptAll(ctl, world, ws[j..], opts.attempts)
      {
        assert ws[j..][0] == ws[j] && ws[j..][1..] == ws[j + 1..];
        var ok := WaitAccepting(ws[j], opts.attempts);
        if !ok {
          StopAll(ws);
          return Outcome(false);
        }
        j := j + 1;
      }
      var rpc := InjectRpc(flags, Endpoints(ws, port));
      world := world.(log := world.log + [Launch(rpc)]);
      r := LaunchOn(head(rpc), ws, opts);
    }

    method LaunchOn(ops: Swap.Ops<S>, ws: seq<Node>, opts: Swap.Opts) returns (r: Result)
      modifies this
      ensures (world, r) == LaunchHead(ctl, ops, old(world), ws, opts)
    {
      hide Teardown, Swap.PollHealth;
      var service := new Swap.Service(ops, world.state);
      var (w, up) := Swap.StageAndRestart(ops, service.world);
      service.world := w;
      var committed := false;
      if !up {
        r := Err;
      } else {
        var healthy := service.Poll(opts.attempts);
        if healthy {
          var (v, kept) := Swap.Commit(ops, Swap.Warm(ops, service.world, opts.prewarm));
          service.world := v;
          r, committed := if kept then Outcome(true) else Err, true;
        } else {
          var (v, reverted) := Swap.Revert(ops, service.world);
          service.world := v;
          r := if reverted then Outcome(false) else Err;
        }
      }
      world := World(service.world.state, world.log + Heads(service.world.log));
      if !committed { StopAll(ws); }
    }
  }
}
