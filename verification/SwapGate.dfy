/** The proxy's swap gate: one swap at a time, and a minimum hold between swaps.
    Times are nanoseconds of one monotone clock. */
module SwapGate {
  import opened Text

  const SECOND: nat := 1_000_000_000

  datatype Decision = Proceed | Busy | HoldFor(secs: nat)

  function Remaining(elapsed: nat, hold: nat): nat {
    if elapsed < hold then hold - elapsed else 0
  }

  function WholeSeconds(remaining: nat): nat {
    if remaining / SECOND < 1 then 1 else remaining / SECOND
  }

  function Decide(swapping: bool, sinceLast: Option<nat>, hold: nat): Decision {
    if swapping then Busy
    else if sinceLast.Some? && sinceLast.value < hold then HoldFor(WholeSeconds(hold - sinceLast.value))
    else Proceed
  }

  /** The state under the mutex. */
  datatype Gate = Gate(swapping: bool, lastDone: Option<nat>)

  const OPEN := Gate(false, None)

  function Elapsed(g: Gate, now: nat): Option<nat> {
    if g.lastDone.None? then None
    else Some(if now >= g.lastDone.value then now - g.lastDone.value else 0)
  }

  function Begin(g: Gate, hold: nat, now: nat): (Gate, Decision) {
    var d := Decide(g.swapping, Elapsed(g, now), hold);
    (if d.Proceed? then g.(swapping := true) else g, d)
  }

  function Finish(g: Gate, now: nat): Gate {
    Gate(false, Some(now))
  }

  /** The gate asked in any state, even before the time it was last closed: busy while
      a swap runs, open once the hold has passed since then, and else a whole number of
      seconds, rounded down but at least one. */
  lemma BeginExactly(g: Gate, hold: nat, now: nat)
    ensures var (h, d) := Begin(g, hold, now);
      && (d.Busy? <==> g.swapping)
      && (d.Proceed? <==> !g.swapping && (g.lastDone.None? || hold == 0 || now >= g.lastDone.value + hold))
      && h == (if d.Proceed? then Gate(true, g.lastDone) else g)
      && (d.HoldFor? ==>
            var left := if now < g.lastDone.value then hold else g.lastDone.value + hold - now;
            d.secs >= 1 && (d.secs == 1 || d.secs * 1_000_000_000 <= left) && left < (d.secs + 1) * 1_000_000_000)
  {}

  // --- Many workers ---------------------------------------------------------

  type Worker = nat

  datatype Mark = Began(worker: Worker, at: nat) | Ended(worker: Worker, at: nat)

  /** The gate, the workers between a `Proceed` and their finish, the clock, and
      every swap begun and ended so far. */
  datatype System = System(gate: Gate, inside: set<Worker>, now: nat, marks: seq<Mark>)

  const START := System(OPEN, {}, 0, [])

  /** A worker outside asks for the gate; a worker inside finishes, whether its
      load succeeded or not. */
  datatype Act = Ask(worker: Worker, at: nat) | Done(worker: Worker, at: nat, loaded: bool)

  predicate Allowed(s: System, a: Act) {
    && a.at >= s.now
    && match a
       case Ask(w, _) => w !in s.inside
       case Done(w, _, _) => w in s.inside
  }

  function Step(s: System, hold: nat, a: Act): System {
    match a
    case Ask(w, at) =>
      var (g, d) := Begin(s.gate, hold, at);
      if d.Proceed? then System(g, s.inside + {w}, at, s.marks + [Began(w, at)])
      else s.(gate := g, now := at)
    case Done(w, at, _) =>
      System(Finish(s.gate, at), s.inside - {w}, at, s.marks + [Ended(w, at)])
  }

  ghost predicate Interleaving(s: System, hold: nat, acts: seq<Act>)
    decreases |acts|
  {
    acts == [] || (Allowed(s, acts[0]) && Interleaving(Step(s, hold, acts[0]), hold, acts[1..]))
  }

  function RunAll(s: System, hold: nat, acts: seq<Act>): System
    decreases |acts|
  {
    if acts == [] then s else RunAll(Step(s, hold, acts[0]), hold, acts[1..])
  }

  /** Swaps alternate begin and end of the same worker, and each begins at least
      `hold` after the one before it ended. */
  ghost predicate Spaced(marks: seq<Mark>, hold: nat) {
    forall i :: 0 <= i < |marks| ==>
      match marks[i]
      case Began(_, at) => i == 0 || (marks[i - 1].Ended? && at >= marks[i - 1].at + hold)
      case Ended(w, at) => i > 0 && marks[i - 1].Began? && marks[i - 1].worker == w && at >= marks[i - 1].at
  }

  ghost predicate Inv(s: System, hold: nat) {
    && Spaced(s.marks, hold)
    && (forall i :: 0 <= i < |s.marks| ==> s.marks[i].at <= s.now)
    && (if s.gate.swapping
        then s.marks != [] && s.marks[|s.marks| - 1].Began? && s.inside == {s.marks[|s.marks| - 1].worker}
        else s.inside == {}
             && s.gate.lastDone == (if s.marks == [] then None else Some(s.marks[|s.marks| - 1].at))
             && (s.marks != [] ==> s.marks[|s.marks| - 1].Ended?))
  }

  lemma StepKeepsInv(s: System, hold: nat, a: Act)
    requires Inv(s, hold) && Allowed(s, a)
    ensures Inv(Step(s, hold, a), hold)
  {}

  lemma {:induction false} RunKeepsInv(s: System, hold: nat, acts: seq<Act>)
    requires Inv(s, hold) && Interleaving(s, hold, acts)
    ensures Inv(RunAll(s, hold, acts), hold)
    decreases |acts|
  {
    hide Inv;
    if acts != [] {
      StepKeepsInv(s, hold, acts[0]);
      RunKeepsInv(Step(s, hold, acts[0]), hold, acts[1..]);
    }
  }

  /** In every interleaving of any number of workers, at most one is inside, and
      every swap begins at least `hold` after the previous one ended. */
  lemma MutualExclusionAndHold(hold: nat, acts: seq<Act>)
    requires Interleaving(START, hold, acts)
    ensures var s := RunAll(START, hold, acts);
      (forall v, w :: v in s.inside && w in s.inside ==> v == w) && Spaced(s.marks, hold)
  {
    RunKeepsInv(START, hold, acts);
  }

  /** While a worker is inside every other is told it is busy; once it finishes
      and the hold has passed, the next to ask proceeds. */
  lemma GateAnswers(hold: nat, acts: seq<Act>, w: Worker, at: nat)
    requires Interleaving(START, hold, acts)
    ensures var s := RunAll(START, hold, acts);
      Allowed(s, Ask(w, at)) ==>
        var d := Begin(s.gate, hold, at).1;
        && (d.Busy? <==> s.inside != {})
        && (d.Proceed? <==> s.inside == {} && (s.marks == [] || at >= s.marks[|s.marks| - 1].at + hold))
        && (d.HoldFor? ==>
              var left := s.marks[|s.marks| - 1].at + hold - at;
              d.secs >= 1 && (d.secs == 1 || d.secs * 1_000_000_000 <= left) && left < (d.secs + 1) * 1_000_000_000)
  {
    RunKeepsInv(START, hold, acts);
  }

  /** What one more act adds to a run: a finish is marked and leaves the gate; a request
      is marked and enters it if nobody is inside and the hold has passed since the last
      mark, and else adds nothing. */
  lemma RunRecords(hold: nat, acts: seq<Act>, a: Act)
    requires Interleaving(START, hold, acts) && Allowed(RunAll(START, hold, acts), a)
    ensures var (s, t) := (RunAll(START, hold, acts), RunAll(START, hold, acts + [a]));
      && t.now == a.at
      && match a
         case Done(w, at, _) => t.inside == s.inside - {w} && t.marks == s.marks + [Ended(w, at)]
         case Ask(w, at) =>
           if s.inside == {} && (s.marks == [] || at >= s.marks[|s.marks| - 1].at + hold)
           then t.inside == {w} && t.marks == s.marks + [Began(w, at)]
           else t.inside == s.inside && t.marks == s.marks
  {
    RunKeepsInv(START, hold, acts);
    RunSnoc(START, hold, acts, a);
  }

  lemma {:induction false} RunSnoc(s: System, hold: nat, acts: seq<Act>, a: Act)
    ensures RunAll(s, hold, acts + [a]) == Step(RunAll(s, hold, acts), hold, a)
    decreases |acts|
  {
    if acts == [] {
      assert acts + [a] == [a] && [a][1..] == [];
    } else {
      assert (acts + [a])[1..] == acts[1..] + [a];
      RunSnoc(Step(s, hold, acts[0]), hold, acts[1..], a);
    }
  }

  // --- A client that waits --------------------------------------------------

  /** How often a client is refused that comes back `extra(i)` later than told
      after its i-th refusal, with no other swap in between. */
  function Refusals(elapsed: nat, hold: nat, extra: nat -> nat, i: nat): nat
    decreases Remaining(elapsed, hold)
  {
    var d := Decide(false, Some(elapsed), hold);
    if d.HoldFor? then 1 + Refusals(elapsed + d.secs * SECOND + extra(i), hold, extra, i + 1) else 0
  }

  /** A client that waits at least as long as told is refused at most twice. */
  lemma RefusedAtMostTwice(elapsed: nat, hold: nat, extra: nat -> nat, i: nat)
    ensures Refusals(elapsed, hold, extra, i) <= 2
  {
    if elapsed < hold {
      var wait := WholeSeconds(hold - elapsed) * SECOND;
      var next := elapsed + wait + extra(i);
      assert hold - elapsed < wait + SECOND;
      if next < hold {
        assert WholeSeconds(hold - next) == 1;
        assert Refusals(next + SECOND + extra(i + 1), hold, extra, i + 2) == 0;
      }
    }
  }

  /** Told in whole seconds rounded down, the client that waits exactly that long
      comes back too early exactly when more than a second remained and it was
      not a whole number of seconds. */
  lemma TooEarlyExactly(elapsed: nat, hold: nat)
    ensures Refusals(elapsed, hold, i => 0, 0)
         == if elapsed >= hold then 0
            else if hold - elapsed > SECOND && (hold - elapsed) % SECOND != 0 then 2
            else 1
  {
    var extra: nat -> nat := i => 0;
    RefusedAtMostTwice(elapsed, hold, extra, 0);
    if elapsed < hold {
      var r := hold - elapsed;
      var wait := WholeSeconds(r) * SECOND;
      assert r == (r / SECOND) * SECOND + r % SECOND;
      assert Refusals(elapsed, hold, extra, 0) == 1 + Refusals(elapsed + wait, hold, extra, 1);
      if r > SECOND && r % SECOND != 0 {
        assert elapsed + wait < hold;
      } else {
        assert elapsed + wait >= hold;
      }
    }
  }

  /** A hold of two and a half seconds: the client that waits the two seconds it
      is told is refused again. */
  lemma HalfSecondShort()
    ensures Refusals(0, 2_500_000_000, i => 0, 0) == 2
  {
    TooEarlyExactly(0, 2_500_000_000);
  }

  // --- The gate itself ------------------------------------------------------

  class SwapGate {
    const hold: nat
    var swapping: bool
    var lastDone: Option<nat>

    constructor (h: nat)
      ensures hold == h && State() == OPEN
    {
      hold, swapping, lastDone := h, false, None;
    }

    function State(): Gate
      reads this
    {
      Gate(swapping, lastDone)
    }

    method BeginSwap(now: nat) returns (d: Decision)
      modifies this
      ensures (State(), d) == Begin(old(State()), hold, now)
    {
      d := Decide(swapping, Elapsed(State(), now), hold);
      if d.Proceed? { swapping := true; }
    }

    method FinishSwap(now: nat)
      modifies this
      ensures State() == Finish(old(State()), now)
    {
      swapping, lastDone := false, Some(now);
    }

    /** One request for `model`: asked at `asked`, any load over at `over`. The
        served model passes without the gate; a load always arms the hold. */
    method EnsureServed(served: Option<string>, model: string, asked: nat, over: nat, loaded: bool)
      returns (ok: bool)
      modifies this
      ensures served == Some(model) ==> ok && State() == old(State())
      ensures served != Some(model) ==>
        var d := Begin(old(State()), hold, asked).1;
        && ok == (d.Proceed? && loaded)
        && State() == if d.Proceed? then Gate(false, Some(over)) else old(State())
    {
      if served == Some(model) { return true; }
      var d := BeginSwap(asked);
      if !d.Proceed? { return false; }
      FinishSwap(over);
      return loaded;
    }
  }
}
