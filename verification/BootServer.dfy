/** `netboot up` / `netboot down`: what a run adds to the host, what it records,
    and what the record lets a later run take away.

    Every privileged call either takes effect or fails without effect. An `Env`
    fixes which: `env(c)` is true when the call `c` of that run succeeds. */
module BootServer {
  import opened Text

  datatype Proto = Tcp | Udp
  type Port = n: nat | n < 0x1_0000
  datatype PortRule = PortRule(port: Port, proto: Proto)
  datatype Backend = Ufw | Nftables | NoFirewall

  datatype Netboot = Netboot(httpPort: Port, dnsmasq: bool, backend: Backend)

  const HTTP_UNIT := "llmtune-netboot.service"

  function RequiredPorts(nb: Netboot): seq<PortRule> {
    [PortRule(nb.httpPort, Tcp), PortRule(2049, Tcp), PortRule(111, Tcp), PortRule(111, Udp)]
    + if nb.dnsmasq then [PortRule(67, Udp), PortRule(69, Udp), PortRule(4011, Udp)] else []
  }

  function Stack(nb: Netboot): seq<string> {
    [HTTP_UNIT, "nfs-server"] + if nb.dnsmasq then ["dnsmasq"] else []
  }

  function BackendName(b: Backend): string {
    match b
    case Ufw => "ufw"
    case Nftables => "nftables"
    case NoFirewall => "none"
  }

  function ParseBackend(s: string): Option<Backend> {
    if s == "ufw" then Some(Ufw)
    else if s == "nftables" then Some(Nftables)
    else if s == "none" then Some(NoFirewall)
    else None
  }

  // --- Rule tokens ----------------------------------------------------------

  function ProtoName(p: Proto): string {
    match p
    case Tcp => "tcp"
    case Udp => "udp"
  }

  function Token(r: PortRule): string {
    Decimal(r.port) + "/" + ProtoName(r.proto)
  }

  function ParseRuleToken(tok: string): Option<PortRule> {
    match SplitOnce(tok, '/')
    case None => None
    case Some((p, proto)) =>
      match ParseU16(p)
      case None => None
      case Some(port) =>
        if proto == "tcp" then Some(PortRule(port, Tcp))
        else if proto == "udp" then Some(PortRule(port, Udp))
        else None
  }

  /** Reading a recorded token gives back the rule it was written for. */
  lemma TokenRoundTrip(r: PortRule)
    ensures ParseRuleToken(Token(r)) == Some(r)
  {
    var d := Decimal(r.port);
    DecimalValue(r.port);
    assert IsDigit(d[0]);
    assert '/' !in d;
    assert Token(r) == d + ['/'] + ProtoName(r.proto);
    SplitOnceAt(d, '/', ProtoName(r.proto));
    assert d[0] != '+';
    assert ParseU16(d) == Some(r.port);
    assert "tcp"[0] != "udp"[0];
  }

  /** `tok` is the number text `p`, a slash, and the protocol of `r`. */
  ghost predicate Spells(tok: string, p: string, r: PortRule) {
    '/' !in p && ParseU16(p) == Some(r.port) && tok == p + ['/'] + if r.proto.Tcp? then "tcp" else "udp"
  }

  /** A token is read as a rule exactly when it is a port number, a slash and one of
      the two protocol names; a firewall rule recorded otherwise stays recorded. */
  lemma TokenReadsExactly(tok: string, r: PortRule)
    ensures ParseRuleToken(tok) == Some(r) <==> exists p :: Spells(tok, p, r)
  {
    if ParseRuleToken(tok) == Some(r) {
      var i := Find(tok, '/').value;
      assert tok == tok[..i] + ['/'] + tok[i + 1..];
      hide ParseU16;
      assert Spells(tok, tok[..i], r);
    }
    if p :| Spells(tok, p, r) { SpelledReads(tok, p, r); }
  }

  lemma SpelledReads(tok: string, p: string, r: PortRule)
    requires Spells(tok, p, r)
    ensures ParseRuleToken(tok) == Some(r)
  {
    NamesDiffer();
    hide ParseU16, SplitOnce;
    if r.proto.Tcp? { SplitOnceAt(p, '/', "tcp"); } else { SplitOnceAt(p, '/', "udp"); }
  }

  lemma NamesDiffer()
    ensures "tcp" != "udp"
  {
    assert "tcp"[0] != "udp"[0];
  }

  // --- The host and the record ----------------------------------------------

  /** What the run can see and change. `rules` are the LAN-scoped rules of the
      active backend (for nftables, those inside llmtune's own table), `anyProto`
      the ports an existing rule opens for both protocols, `exported` whether the
      running NFS server exports the drop-in's line. */
  datatype Host = Host(
    rules: set<PortRule>, anyProto: set<Port>, table: bool,
    active: set<string>, enabled: set<string>,
    handExport: bool, exportFile: bool, exported: bool)

  datatype UpState = UpState(
    backend: string, fwAdded: seq<string>, nftTable: bool, exportsFile: bool,
    started: seq<string>, enabled: seq<string>)
  {
    predicate OwnsNothing() {
      fwAdded == [] && !nftTable && !exportsFile && started == [] && enabled == []
    }
  }

  const NOTHING := UpState("", [], false, false, [], [])

  datatype Machine = Machine(host: Host, record: Option<UpState>)

  function Owned(record: Option<UpState>): UpState {
    if record.Some? then record.value else NOTHING
  }

  datatype Call =
    | Preflight | ProbeActive(svc: string) | ProbeEnabled(svc: string) | EnableNow(svc: string)
    | MkdirModels | ReadExports | MkdirExports | WriteExports | Exportfs
    | ListRules | ListTables | AllowRule(rule: PortRule) | NftAddTable | NftAddChain
    | DeleteRule(rule: PortRule) | NftDeleteTable | NftFlushTable
    | RemoveExports | Stop(svc: string) | Disable(svc: string) | DisableNow(svc: string)

  type Env = Call -> bool

  // --- up -------------------------------------------------------------------

  function AppendNew(xs: seq<string>, ys: seq<string>): seq<string>
    decreases |ys|
  {
    if ys == [] then xs
    else AppendNew(if ys[0] in xs then xs else xs + [ys[0]], ys[1..])
  }

  function MergePrior(st: UpState, prior: UpState): UpState {
    UpState(
      if st.backend == "" then prior.backend else st.backend,
      AppendNew(st.fwAdded, prior.fwAdded),
      st.nftTable || prior.nftTable,
      st.exportsFile || prior.exportsFile,
      AppendNew(st.started, prior.started),
      AppendNew(st.enabled, prior.enabled))
  }

  /** A run in progress: the host, the record in memory, the record last
      checkpointed, and whether no call has failed yet. */
  datatype Run = Run(host: Host, st: UpState, saved: Option<UpState>, ok: bool)

  function Checkpoint(host: Host, st: UpState): Run {
    Run(host, st, Some(st), true)
  }

  function StartService(run: Run, svc: string, env: Env): Run {
    if !run.ok then run
    else if !env(EnableNow(svc)) then run.(ok := false)
    else
      var wasActive := env(ProbeActive(svc)) && svc in run.host.active;
      var wasEnabled := env(ProbeEnabled(svc)) && svc in run.host.enabled;
      var host := run.host.(active := run.host.active + {svc}, enabled := run.host.enabled + {svc});
      var st := run.st.(
        started := if wasActive then run.st.started else run.st.started + [svc],
        enabled := if wasEnabled then run.st.enabled else run.st.enabled + [svc]);
      if wasActive && wasEnabled then run.(host := host) else Checkpoint(host, st)
  }

  function StartServices(run: Run, svcs: seq<string>, env: Env): Run
    decreases |svcs|
  {
    if svcs == [] then run else StartServices(StartService(run, svcs[0], env), svcs[1..], env)
  }

  function WriteDropin(run: Run, env: Env): Run {
    if env(ReadExports) && run.host.handExport then run
    else if !env(MkdirExports) || !env(WriteExports) then run.(ok := false)
    else Checkpoint(run.host.(exportFile := true), run.st.(exportsFile := true))
  }

  function ExportModels(run: Run, env: Env): Run {
    if !run.ok then run
    else if !env(MkdirModels) then run.(ok := false)
    else
      var r := WriteDropin(run, env);
      if !r.ok then r
      else if !env(Exportfs) then r.(ok := false)
      else r.(host := r.host.(exported := r.host.exportFile))
  }

  /** What the firewall listing taken before the loop shows. */
  datatype Listing = Listing(rules: set<PortRule>, anyProto: set<Port>)

  function ReadListing(host: Host, env: Env): Listing {
    if env(ListRules) then Listing(host.rules, host.anyProto) else Listing({}, {})
  }

  predicate Present(seen: Listing, r: PortRule) {
    r in seen.rules || r.port in seen.anyProto
  }

  function OpenPort(run: Run, seen: Listing, r: PortRule, env: Env): Run {
    if !run.ok || Present(seen, r) then run
    else if !env(AllowRule(r)) then run.(ok := false)
    else Checkpoint(run.host.(rules := run.host.rules + {r}),
                    run.st.(fwAdded := run.st.fwAdded + [Token(r)]))
  }

  function OpenPorts(run: Run, seen: Listing, rules: seq<PortRule>, env: Env): Run
    decreases |rules|
  {
    if rules == [] then run else OpenPorts(OpenPort(run, seen, rules[0], env), seen, rules[1..], env)
  }

  function EnsureTable(run: Run, env: Env): Run {
    if env(ListTables) && run.host.table then run
    else if !env(NftAddTable) then run.(ok := false)
    else
      var host := run.host.(table := true);
      if !env(NftAddChain) then run.(host := host, ok := false)
      else Checkpoint(host, run.st.(nftTable := true))
  }

  function OpenedFirewall(nb: Netboot, run: Run, env: Env): Run {
    match nb.backend
    case NoFirewall => run
    case Ufw => OpenPorts(run, ReadListing(run.host, env), RequiredPorts(nb), env)
    case Nftables =>
      var r := EnsureTable(run, env);
      if !r.ok then r
      else OpenPorts(r, ReadListing(r.host, env).(anyProto := {}), RequiredPorts(nb), env)
  }

  /** The run before its final save. */
  function UpRun(nb: Netboot, noFirewall: bool, m: Machine, env: Env): Run {
    var r0 := Run(m.host, MergePrior(NOTHING, Owned(m.record)), m.record, env(Preflight));
    var r1 := StartServices(r0, Stack(nb), env);
    var r2 := ExportModels(r1, env);
    if noFirewall || !r2.ok then r2
    else OpenedFirewall(nb, r2.(st := r2.st.(backend := BackendName(nb.backend))), env)
  }

  function Settle(r: Run): Machine {
    Machine(r.host, if r.ok then Some(r.st) else r.saved)
  }

  function AfterUp(nb: Netboot, noFirewall: bool, m: Machine, env: Env): Machine {
    Settle(UpRun(nb, noFirewall, m, env))
  }

  // --- down -----------------------------------------------------------------

  /** Take back each recorded name; the ones whose call fails stay recorded. */
  function Withdraw(todo: seq<string>, kept: seq<string>, live: set<string>, works: string -> bool)
    : (set<string>, seq<string>)
    decreases |todo|
  {
    if todo == [] then (live, kept)
    else if works(todo[0]) then Withdraw(todo[1..], kept, live - {todo[0]}, works)
    else Withdraw(todo[1..], kept + [todo[0]], live, works)
  }

  function CloseRules(toks: seq<string>, kept: seq<string>, live: set<PortRule>, env: Env)
    : (set<PortRule>, seq<string>)
    decreases |toks|
  {
    if toks == [] then (live, kept)
    else
      var r := ParseRuleToken(toks[0]);
      if r.Some? && env(DeleteRule(r.value)) then CloseRules(toks[1..], kept, live - {r.value}, env)
      else CloseRules(toks[1..], kept + [toks[0]], live, env)
  }

  /** Firewall part of `down`: the host, and the tokens and table still owned. */
  function RemoveFirewall(b: Backend, st: UpState, host: Host, env: Env): (Host, seq<string>, bool) {
    match b
    case NoFirewall => (host, [], false)
    case Ufw =>
      var (live, kept) := CloseRules(st.fwAdded, [], host.rules, env);
      (host.(rules := live), kept, false)
    case Nftables =>
      if st.nftTable then
        if env(NftDeleteTable) then (host.(rules := {}, table := false), [], false)
        else (host, st.fwAdded, true)
      else if st.fwAdded == [] then (host, [], false)
      else if env(NftFlushTable) then (host.(rules := {}), [], false)
      else (host, st.fwAdded, false)
  }

  /** Exports part of `down`: the host, and whether the drop-in is still owned. */
  function RemoveDropin(st: UpState, host: Host, env: Env): (Host, bool) {
    if !st.exportsFile || !host.exportFile then (host, false)
    else if !env(RemoveExports) then (host, true)
    else
      var h := host.(exportFile := false);
      if env(Exportfs) then (h.(exported := false), false) else (h, true)
  }

  function Reverse(s: seq<string>): (r: seq<string>) {
    if s == [] then [] else Reverse(s[1..]) + [s[0]]
  }

  function StopStarted(st: UpState, live: set<string>, env: Env): (set<string>, seq<string>) {
    Withdraw(Reverse(st.started), [], live, s => env(Stop(s)))
  }

  function DisableEnabled(st: UpState, live: set<string>, env: Env): (set<string>, seq<string>) {
    Withdraw(st.enabled, [], live, s => env(Disable(s)))
  }

  /** A recorded backend that does not parse owns nothing. */
  function CloseRecorded(st: UpState, host: Host, env: Env): (Host, seq<string>, bool) {
    var b := ParseBackend(st.backend);
    if b.Some? then RemoveFirewall(b.value, st, host, env) else (host, [], false)
  }

  function DownRecorded(st: UpState, host: Host, env: Env): (Host, UpState) {
    var (h1, toks, table) := CloseRecorded(st, host, env);
    var (h2, file) := RemoveDropin(st, h1, env);
    var (active, started) := StopStarted(st, h2.active, env);
    var (enabled, still) := DisableEnabled(st, h2.enabled, env);
    (h2.(active := active, enabled := enabled), UpState(st.backend, toks, table, file, started, still))
  }

  /** Without a record only what is unmistakably llmtune's is taken away. */
  function DownUnrecorded(host: Host, env: Env): Host {
    var h := if env(DisableNow(HTTP_UNIT))
             then host.(active := host.active - {HTTP_UNIT}, enabled := host.enabled - {HTTP_UNIT})
             else host;
    if h.exportFile && !env(RemoveExports) then h
    else
      var h := if h.exportFile then h.(exportFile := false) else h;
      if host.exportFile && !env(Exportfs) then h
      else
        var h := if host.exportFile then h.(exported := false) else h;
        if h.table && env(ListTables) && env(NftDeleteTable) then h.(rules := {}, table := false) else h
  }

  function AfterDown(m: Machine, env: Env): Machine {
    match m.record
    case None => Machine(DownUnrecorded(m.host, env), None)
    case Some(st) =>
      var (host, residual) := DownRecorded(st, m.host, env);
      Machine(host, if residual.OwnsNothing() then None else Some(residual))
  }

  // --- Ownership ------------------------------------------------------------

  ghost predicate NoDup<T(!new)>(s: seq<T>) {
    forall i, j :: 0 <= i < j < |s| ==> s[i] != s[j]
  }

  /** `live` is the baseline plus, disjointly, each owned name once. */
  ghost predicate OwnsNames(base: set<string>, live: set<string>, owned: seq<string>) {
    && NoDup(owned)
    && (forall x :: x in owned ==> x !in base)
    && live == base + (set x | x in owned)
  }

  function RuleOf(tok: string): PortRule {
    var r := ParseRuleToken(tok);
    if r.Some? then r.value else PortRule(0, Tcp)
  }

  ghost predicate OwnsRules(base: set<PortRule>, live: set<PortRule>, toks: seq<string>) {
    && NoDup(toks)
    && (forall t :: t in toks ==> t == Token(RuleOf(t)) && RuleOf(t) !in base)
    && live == base + (set t | t in toks :: RuleOf(t))
  }

  /** The record accounts for everything the host has beyond its baseline. */
  ghost predicate Owns(nb: Netboot, base: Host, host: Host, st: UpState) {
    && host.anyProto == base.anyProto && host.handExport == base.handExport
    && OwnsRules(base.rules, host.rules, st.fwAdded)
    && OwnsNames(base.active, host.active, st.started)
    && OwnsNames(base.enabled, host.enabled, st.enabled)
    && host.table == st.nftTable
    && host.exportFile == st.exportsFile && (host.exported ==> host.exportFile)
    && (st.fwAdded != [] || st.nftTable ==> st.backend == BackendName(nb.backend))
    && (nb.backend.Nftables? && st.fwAdded != [] ==> st.nftTable)
    && (!nb.backend.Nftables? ==> !st.nftTable)
    && (nb.backend.NoFirewall? ==> st.fwAdded == [])
  }

  ghost predicate Accounted(nb: Netboot, base: Host, m: Machine) {
    Owns(nb, base, m.host, Owned(m.record))
  }

  /** A host llmtune has not touched: no own table, drop-in, or served drop-in. */
  ghost predicate Untouched(nb: Netboot, base: Host) {
    !base.table && !base.exportFile && !base.exported && (nb.backend.Nftables? ==> base.rules == {})
  }

  predicate DistinctPorts(nb: Netboot) {
    nb.httpPort != 111 && nb.httpPort != 2049
  }

  /** `up` asks for each port once, unless it serves HTTP on an NFS port. */
  lemma RequiredPortsDistinct(nb: Netboot)
    ensures NoDup(RequiredPorts(nb)) <==> DistinctPorts(nb)
  {
    var p := RequiredPorts(nb);
    if nb.httpPort == 2049 { assert p[0] == p[1]; }
    if nb.httpPort == 111 { assert p[0] == p[2]; }
  }

  // --- What one run keeps ---------------------------------------------------

  /** The probes `up` reads before it acts all answer. */
  ghost predicate Seen(env: Env) {
    && (forall s :: env(ProbeActive(s)))
    && (forall s :: env(ProbeEnabled(s)))
    && env(ListRules) && env(ListTables)
  }

  /** The own table and its chain come into being together or not at all. */
  predicate WholeTable(env: Env) {
    env(NftAddTable) ==> env(NftAddChain)
  }

  /** A service that is already up answers the probes that ask. */
  predicate ProbesTrue(host: Host, svc: string, env: Env) {
    (svc in host.active ==> env(ProbeActive(svc))) && (svc in host.enabled ==> env(ProbeEnabled(svc)))
  }

  /** The rule listing answers, or there is nothing of ours to ask it for. */
  ghost predicate ListingTrue(host: Host, rules: seq<PortRule>, env: Env) {
    env(ListRules) || forall r :: r in rules ==> r !in host.rules
  }

  /** Nothing that is already on the host looks absent to this run. */
  ghost predicate SeesWhatIsThere(nb: Netboot, noFirewall: bool, host: Host, env: Env) {
    && (forall s :: s in Stack(nb) ==> ProbesTrue(host, s, env))
    && (noFirewall || nb.backend.NoFirewall? || ListingTrue(host, RequiredPorts(nb), env))
  }

  /** No live table is left without a record: it is there already, or whole. */
  predicate TableIsSafe(nb: Netboot, noFirewall: bool, host: Host, env: Env) {
    noFirewall || !nb.backend.Nftables? || host.table || WholeTable(env)
  }

  // --- When a run keeps track -----------------------------------------------

  /** Every service that `up` gets to, and that is already up, says so. */
  predicate ReachedTrue(host: Host, svcs: seq<string>, env: Env) {
    svcs == [] || !env(EnableNow(svcs[0]))
    || (ProbesTrue(host, svcs[0], env) && ReachedTrue(host, svcs[1..], env))
  }

  /** No rule that the loop gets to, does not see and adds is already live. */
  predicate RulesTrue(live: set<PortRule>, seen: Listing, rules: seq<PortRule>, env: Env)
    decreases |rules|
  {
    if rules == [] then true
    else if Present(seen, rules[0]) then RulesTrue(live, seen, rules[1..], env)
    else !env(AllowRule(rules[0])) || (rules[0] !in live && RulesTrue(live + {rules[0]}, seen, rules[1..], env))
  }

  predicate TableDone(host: Host, env: Env) {
    (env(ListTables) && host.table) || (env(NftAddTable) && env(NftAddChain))
  }

  /** The firewall phase leaves nothing unrecorded and claims nothing that was there. */
  predicate FirewallTrue(nb: Netboot, host: Host, env: Env) {
    match nb.backend
    case NoFirewall => true
    case Ufw => RulesTrue(host.rules, ReadListing(host, env), RequiredPorts(nb), env)
    case Nftables =>
      && (host.table || WholeTable(env))
      && (TableDone(host, env) ==>
            RulesTrue(host.rules, ReadListing(host, env).(anyProto := {}), RequiredPorts(nb), env))
  }

  predicate ExportDone(host: Host, env: Env) {
    && env(MkdirModels) && env(Exportfs)
    && ((env(ReadExports) && host.handExport) || (env(MkdirExports) && env(WriteExports)))
  }

  predicate AllStarted(svcs: seq<string>, env: Env) {
    forall s :: s in svcs ==> env(EnableNow(s))
  }

  /** What a run of `up`, finished or stopped anywhere, must see of the host. */
  predicate UpTrue(nb: Netboot, noFirewall: bool, host: Host, env: Env) {
    env(Preflight) ==>
      && ReachedTrue(host, Stack(nb), env)
      && (!noFirewall && AllStarted(Stack(nb), env) && ExportDone(host, env) ==> FirewallTrue(nb, host, env))
  }

  // --- What each step keeps -------------------------------------------------

  /** Both the checkpointed record and the one in memory account for the host. */
  ghost predicate Tracked(nb: Netboot, base: Host, run: Run) {
    && Owns(nb, base, run.host, Owned(run.saved))
    && (run.ok ==> Owns(nb, base, run.host, run.st))
  }

  lemma OwnOneMore(base: set<string>, live: set<string>, owned: seq<string>, x: string)
    requires OwnsNames(base, live, owned)
    ensures x in live ==> live + {x} == live
    ensures x !in live ==> OwnsNames(base, live + {x}, owned + [x])
  {
    if x !in live {
      assert forall y :: y in owned + [x] <==> y in owned || y == x;
    }
  }

  lemma OwnOneMoreRule(base: set<PortRule>, live: set<PortRule>, toks: seq<string>, r: PortRule)
    requires OwnsRules(base, live, toks) && r !in live
    ensures OwnsRules(base, live + {r}, toks + [Token(r)])
  {
    TokenRoundTrip(r);
    var more := toks + [Token(r)];
    assert forall t :: t in more <==> t in toks || t == Token(r);
    assert RuleOf(Token(r)) == r;
    assert (set t | t in more :: RuleOf(t)) == (set t | t in toks :: RuleOf(t)) + {r};
  }

  lemma StartServiceTracked(nb: Netboot, base: Host, run: Run, svc: string, env: Env)
    requires Tracked(nb, base, run) && ProbesTrue(run.host, svc, env)
    ensures Tracked(nb, base, StartService(run, svc, env))
  {
    hide OwnsRules, OwnsNames;
    if run.ok && env(EnableNow(svc)) {
      OwnOneMore(base.active, run.host.active, run.st.started, svc);
      OwnOneMore(base.enabled, run.host.enabled, run.st.enabled, svc);
    }
  }

  lemma StackDistinct(nb: Netboot)
    ensures NoDup(Stack(nb))
  {
    assert |HTTP_UNIT| != |"nfs-server"| && |HTTP_UNIT| != |"dnsmasq"| && |"nfs-server"| != |"dnsmasq"|;
  }

  lemma ExportModelsTracked(nb: Netboot, base: Host, run: Run, env: Env)
    requires Tracked(nb, base, run)
    ensures Tracked(nb, base, ExportModels(run, env))
  {
    hide OwnsRules, OwnsNames;
  }

  lemma EnsureTableTracked(nb: Netboot, base: Host, run: Run, env: Env)
    requires nb.backend.Nftables? && run.ok && Tracked(nb, base, run) && run.st.backend == "nftables"
    requires run.host.table || WholeTable(env)
    ensures var r := EnsureTable(run, env);
      && Tracked(nb, base, r) && r.host.rules == run.host.rules
      && (r.ok ==> r.st == run.st.(nftTable := true))
  {
    hide OwnsRules, OwnsNames;
  }

  lemma {:induction false} AppendNewDistinct(xs: seq<string>, ys: seq<string>)
    requires NoDup(xs + ys)
    ensures AppendNew(xs, ys) == xs + ys
    decreases |ys|
  {
    if ys == [] {
      assert xs + ys == xs;
    } else {
      assert (xs + ys)[|xs|] == ys[0];
      assert ys[0] !in xs by {
        assert forall i :: 0 <= i < |xs| ==> (xs + ys)[i] == xs[i];
      }
      assert xs + ys == (xs + [ys[0]]) + ys[1..];
      AppendNewDistinct(xs + [ys[0]], ys[1..]);
    }
  }

  /** Folding an ownership record into a fresh one loses and repeats nothing. */
  lemma MergePriorExact(prior: UpState)
    requires NoDup(prior.fwAdded) && NoDup(prior.started) && NoDup(prior.enabled)
    ensures MergePrior(NOTHING, prior) == prior
  {
    assert [] + prior.fwAdded == prior.fwAdded && [] + prior.started == prior.started
        && [] + prior.enabled == prior.enabled;
    AppendNewDistinct([], prior.fwAdded);
    AppendNewDistinct([], prior.started);
    AppendNewDistinct([], prior.enabled);
  }

  lemma {:induction false} AppendNewUnites(xs: seq<string>, ys: seq<string>)
    ensures var r := AppendNew(xs, ys);
      && xs <= r && (NoDup(xs) ==> NoDup(r))
      && forall x :: x in r <==> x in xs || x in ys
    decreases |ys|
  {
    if ys != [] {
      AppendNewUnites(if ys[0] in xs then xs else xs + [ys[0]], ys[1..]);
      assert ys == [ys[0]] + ys[1..];
    }
  }

  /** Folding in an earlier record keeps what is there, in front, and adds each
      earlier claim once; the backend is the run's own if it has one. */
  lemma MergeUnites(st: UpState, prior: UpState)
    ensures var m := MergePrior(st, prior);
      && m.backend == (if st.backend != "" then st.backend else prior.backend)
      && (m.nftTable <==> st.nftTable || prior.nftTable) && (m.exportsFile <==> st.exportsFile || prior.exportsFile)
      && st.fwAdded <= m.fwAdded && st.started <= m.started && st.enabled <= m.enabled
      && (forall x :: x in m.fwAdded <==> x in st.fwAdded || x in prior.fwAdded)
      && (forall x :: x in m.started <==> x in st.started || x in prior.started)
      && (forall x :: x in m.enabled <==> x in st.enabled || x in prior.enabled)
      && (NoDup(st.fwAdded) && NoDup(st.started) && NoDup(st.enabled)
          ==> NoDup(m.fwAdded) && NoDup(m.started) && NoDup(m.enabled))
  {
    AppendNewUnites(st.fwAdded, prior.fwAdded);
    AppendNewUnites(st.started, prior.started);
    AppendNewUnites(st.enabled, prior.enabled);
    hide NoDup, AppendNew;
  }

  // --- Wrong claims ---------------------------------------------------------

  /** A claim that is of the baseline's, or made twice. */
  ghost predicate Overclaims(base: Host, st: UpState) {
    || !NoDup(st.started) || (exists x :: x in st.started && x in base.active)
    || !NoDup(st.enabled) || (exists x :: x in st.enabled && x in base.enabled)
    || !NoDup(st.fwAdded) || (exists t :: t in st.fwAdded && RuleOf(t) in base.rules)
  }

  ghost predicate Extends(st: UpState, more: UpState) {
    st.started <= more.started && st.enabled <= more.enabled && st.fwAdded <= more.fwAdded
  }

  /** No later claim repairs a wrong one. */
  lemma OverclaimStays(nb: Netboot, base: Host, host: Host, st: UpState, more: UpState)
    requires Overclaims(base, st) && Extends(st, more)
    ensures Overclaims(base, more) && !Owns(nb, base, host, more)
  {
    PrefixKeeps(st.started, more.started);
    PrefixKeeps(st.enabled, more.enabled);
    PrefixKeeps(st.fwAdded, more.fwAdded);
  }

  lemma PrefixKeeps(s: seq<string>, t: seq<string>)
    requires s <= t
    ensures (NoDup(t) ==> NoDup(s)) && forall x :: x in s ==> x in t
  {
    assert forall i :: 0 <= i < |s| ==> s[i] == t[i];
  }

  /** Both records hold a wrong claim. */
  ghost predicate Tainted(base: Host, run: Run) {
    Overclaims(base, Owned(run.saved)) && Overclaims(base, run.st)
  }

  /** The run stopped with a live table that the record on disk does not own. */
  ghost predicate Orphaned(run: Run) {
    !run.ok && run.host.table && !Owned(run.saved).nftTable
  }

  /** `q` only adds claims to those of `run`, and checkpoints no others. */
  ghost predicate Continues(run: Run, q: Run) {
    && Extends(run.st, q.st)
    && (q.saved == run.saved || (q.saved.Some? && Extends(run.st, q.saved.value)))
  }

  lemma TaintStays(nb: Netboot, base: Host, run: Run, q: Run)
    requires Tainted(base, run) && Continues(run, q)
    ensures Tainted(base, q) && !Tracked(nb, base, q)
  {
    hide Overclaims, Owns, Extends;
    OverclaimStays(nb, base, q.host, run.st, q.st);
    if q.saved == run.saved {
      assert Extends(Owned(q.saved), Owned(q.saved)) by { ExtendsItself(Owned(q.saved)); }
      OverclaimStays(nb, base, q.host, Owned(q.saved), Owned(q.saved));
    } else {
      OverclaimStays(nb, base, q.host, run.st, q.saved.value);
    }
  }

  lemma ExtendsItself(st: UpState)
    ensures Extends(st, st)
  {}

  lemma {:induction false} StartServicesContinues(run: Run, svcs: seq<string>, env: Env)
    ensures Continues(run, StartServices(run, svcs, env))
    decreases |svcs|
  {
    if svcs != [] { StartServicesContinues(StartService(run, svcs[0], env), svcs[1..], env); }
  }

  lemma {:induction false} OpenPortsContinues(run: Run, seen: Listing, rules: seq<PortRule>, env: Env)
    ensures Continues(run, OpenPorts(run, seen, rules, env))
    decreases |rules|
  {
    hide Token;
    if rules != [] { OpenPortsContinues(OpenPort(run, seen, rules[0], env), seen, rules[1..], env); }
  }

  lemma ServiceClaimedAnew(nb: Netboot, base: Host, run: Run, svc: string, env: Env)
    requires Tracked(nb, base, run) && run.ok && env(EnableNow(svc)) && !ProbesTrue(run.host, svc, env)
    ensures Tainted(base, StartService(run, svc, env))
  {
    hide OwnsRules;
    var st, st' := run.st, StartService(run, svc, env).st;
    if svc in run.host.active && !env(ProbeActive(svc)) {
      NameClaimedAnew(base.active, run.host.active, st.started, svc);
    } else {
      NameClaimedAnew(base.enabled, run.host.enabled, st.enabled, svc);
    }
  }

  lemma NameClaimedAnew(base: set<string>, live: set<string>, owned: seq<string>, x: string)
    requires OwnsNames(base, live, owned) && x in live
    ensures !NoDup(owned + [x]) || (x in owned + [x] && x in base)
  {
    if x in owned {
      var i :| 0 <= i < |owned| && owned[i] == x;
      assert (owned + [x])[i] == (owned + [x])[|owned|];
    }
  }

  lemma RuleClaimedAnew(nb: Netboot, base: Host, run: Run, seen: Listing, r: PortRule, env: Env)
    requires Tracked(nb, base, run) && run.ok && env(AllowRule(r)) && r in run.host.rules && !Present(seen, r)
    ensures Tainted(base, OpenPort(run, seen, r, env))
  {
    hide Token, OwnsNames, OwnsRules;
    TokenClaimedAnew(base.rules, run.host.rules, run.st.fwAdded, r);
  }

  lemma TokenClaimedAnew(base: set<PortRule>, live: set<PortRule>, toks: seq<string>, r: PortRule)
    requires OwnsRules(base, live, toks) && r in live
    ensures !NoDup(toks + [Token(r)]) || exists t :: t in toks + [Token(r)] && RuleOf(t) in base
  {
    TokenRoundTrip(r);
    assert RuleOf(Token(r)) == r;
    hide Token, RuleOf;
    var more := toks + [Token(r)];
    assert more[|toks|] == Token(r);
    if r !in base {
      var t :| t in toks && RuleOf(t) == r;
      var i :| 0 <= i < |toks| && toks[i] == t;
      assert more[i] == more[|toks|];
    }
  }

  // --- Exactly when a run keeps track ---------------------------------------

  lemma {:induction false} ReachedElsewhere(host: Host, svcs: seq<string>, x: string, env: Env)
    requires x !in svcs
    ensures ReachedTrue(host.(active := host.active + {x}, enabled := host.enabled + {x}), svcs, env)
         == ReachedTrue(host, svcs, env)
  {
    if svcs != [] { ReachedElsewhere(host, svcs[1..], x, env); }
  }

  lemma RestDistinct<T(!new)>(s: seq<T>)
    requires NoDup(s) && s != []
    ensures NoDup(s[1..]) && s[0] !in s[1..]
  {
    assert forall i :: 0 < i < |s| ==> s[i] == s[1..][i - 1];
  }

  /** Wherever the service phase stops, the record accounts for the host if and
      only if every service it got to that was already up said so: one that did
      not is recorded as llmtune's. */
  lemma {:induction false} StartServicesExact(nb: Netboot, base: Host, run: Run, svcs: seq<string>, env: Env)
    requires Tracked(nb, base, run) && NoDup(svcs)
    ensures var q := StartServices(run, svcs, env);
      && (Tracked(nb, base, q) <==> (run.ok ==> ReachedTrue(run.host, svcs, env)))
      && (Tracked(nb, base, q) || Tainted(base, q))
    decreases |svcs|
  {
    hide Tainted, Owns, Continues, ProbesTrue;
    if !run.ok {
      StoppedStays(run, svcs, Listing({}, {}), [], env);
    } else if svcs != [] {
      var svc, rest, next := svcs[0], svcs[1..], StartService(run, svcs[0], env);
      RestDistinct(svcs);
      if !env(EnableNow(svc)) {
        StoppedStays(next, rest, Listing({}, {}), [], env);
      } else if ProbesTrue(run.host, svc, env) {
        StartServiceTracked(nb, base, run, svc, env);
        ReachedElsewhere(run.host, rest, svc, env);
        StartServicesExact(nb, base, next, rest, env);
      } else {
        ServiceClaimedAnew(nb, base, run, svc, env);
        StartServicesContinues(next, rest, env);
        TaintStays(nb, base, next, StartServices(next, rest, env));
      }
    }
  }

  /** Wherever the rule loop stops, for any listing it was given, the record
      accounts for the host if and only if no rule it added was there before. */
  lemma {:induction false} OpenPortsExact(
    nb: Netboot, base: Host, run: Run, seen: Listing, rules: seq<PortRule>, env: Env)
    requires Tracked(nb, base, run) && !nb.backend.NoFirewall?
    requires run.st.backend == BackendName(nb.backend) && (nb.backend.Nftables? ==> run.st.nftTable)
    ensures var q := OpenPorts(run, seen, rules, env);
      && (Tracked(nb, base, q) <==> (run.ok ==> RulesTrue(run.host.rules, seen, rules, env)))
      && (Tracked(nb, base, q) || Tainted(base, q))
    decreases |rules|
  {
    hide Tainted, Owns, Continues, BackendName, Token;
    if !run.ok {
      StoppedStays(run, [], seen, rules, env);
    } else if rules != [] {
      var r, rest, next := rules[0], rules[1..], OpenPort(run, seen, rules[0], env);
      if Present(seen, r) {
        OpenPortsExact(nb, base, next, seen, rest, env);
      } else if !env(AllowRule(r)) {
        StoppedStays(next, [], seen, rest, env);
      } else if r !in run.host.rules {
        OpenPortTracked(nb, base, run, seen, r, env);
        OpenPortsExact(nb, base, next, seen, rest, env);
      } else {
        RuleClaimedAnew(nb, base, run, seen, r, env);
        OpenPortsContinues(next, seen, rest, env);
        TaintStays(nb, base, next, OpenPorts(next, seen, rest, env));
      }
    }
  }

  lemma OpenPortTracked(nb: Netboot, base: Host, run: Run, seen: Listing, r: PortRule, env: Env)
    requires Tracked(nb, base, run) && !nb.backend.NoFirewall? && r !in run.host.rules
    requires run.st.backend == BackendName(nb.backend) && (nb.backend.Nftables? ==> run.st.nftTable)
    ensures Tracked(nb, base, OpenPort(run, seen, r, env))
  {
    hide OwnsRules, OwnsNames, Token, BackendName;
    if run.ok { OwnOneMoreRule(base.rules, run.host.rules, run.st.fwAdded, r); }
  }

  /** If the table is made but its chain is not, `up` stops with a live table no
      record owns; in every other case the table step keeps the accounting. */
  lemma OwnTableExact(nb: Netboot, base: Host, run: Run, env: Env)
    requires nb.backend.Nftables? && run.ok
    requires Tracked(nb, base, run) && run.st.backend == "nftables"
    ensures Tracked(nb, base, EnsureTable(run, env))
       <==> run.host.table || WholeTable(env)
  {
    hide OwnsRules, OwnsNames;
  }

  lemma OpenFirewallExact(nb: Netboot, base: Host, run: Run, env: Env)
    requires Tracked(nb, base, run) && run.st.backend == BackendName(nb.backend) && run.ok
    ensures var q := OpenedFirewall(nb, run, env);
      && (Tracked(nb, base, q) <==> FirewallTrue(nb, run.host, env))
      && (Tracked(nb, base, q) || Tainted(base, q) || Orphaned(q))
  {
    hide OwnsRules, OwnsNames, RequiredPorts, NoDup, OpenPorts, Tainted, RulesTrue;
    match nb.backend
    case NoFirewall =>
    case Ufw => OpenPortsExact(nb, base, run, ReadListing(run.host, env), RequiredPorts(nb), env);
    case Nftables =>
      var r := EnsureTable(run, env);
      OwnTableExact(nb, base, run, env);
      if r.ok {
        EnsureTableTracked(nb, base, run, env);
        OpenPortsExact(nb, base, r, ReadListing(r.host, env).(anyProto := {}), RequiredPorts(nb), env);
      }
  }

  /** The rest of an `up`, once its services run. */
  function AfterServices(nb: Netboot, noFirewall: bool, run: Run, env: Env): Run {
    var r := ExportModels(run, env);
    if noFirewall || !r.ok then r
    else OpenedFirewall(nb, r.(st := r.st.(backend := BackendName(nb.backend))), env)
  }

  lemma UpFrom(nb: Netboot, noFirewall: bool, m: Machine, env: Env)
    ensures UpRun(nb, noFirewall, m, env) ==
      AfterServices(nb, noFirewall, StartServices(
        Run(m.host, MergePrior(NOTHING, Owned(m.record)), m.record, env(Preflight)), Stack(nb), env), env)
  {
    hide MergePrior, StartServices, OpenedFirewall;
  }

  lemma AfterServicesExact(nb: Netboot, base: Host, noFirewall: bool, run: Run, env: Env)
    requires Tracked(nb, base, run)
    ensures var q := AfterServices(nb, noFirewall, run, env);
      && (Tracked(nb, base, q) <==>
           (run.ok && !noFirewall && ExportDone(run.host, env) ==> FirewallTrue(nb, run.host, env)))
      && (Tracked(nb, base, q) || Tainted(base, q) || Orphaned(q))
  {
    hide RequiredPorts, OpenedFirewall, Tracked, Tainted, Orphaned, RulesTrue;
    var r := ExportModels(run, env);
    ExportModelsTracked(nb, base, run, env);
    assert r.ok <==> run.ok && ExportDone(run.host, env);
    if !noFirewall && r.ok {
      NewBackendTracked(nb, base, r);
      OpenFirewallExact(nb, base, r.(st := r.st.(backend := BackendName(nb.backend))), env);
    }
  }

  lemma NewBackendTracked(nb: Netboot, base: Host, run: Run)
    requires Tracked(nb, base, run)
    ensures Tracked(nb, base, run.(st := run.st.(backend := BackendName(nb.backend))))
  {
    hide OwnsRules, OwnsNames;
  }

  lemma AfterServicesContinues(nb: Netboot, noFirewall: bool, run: Run, env: Env)
    ensures Continues(run, AfterServices(nb, noFirewall, run, env))
  {
    hide RequiredPorts, OpenPorts;
    var r := ExportModels(run, env);
    var r' := r.(st := r.st.(backend := BackendName(nb.backend)));
    var t := EnsureTable(r', env);
    OpenPortsContinues(r', ReadListing(r'.host, env), RequiredPorts(nb), env);
    OpenPortsContinues(t, ReadListing(t.host, env).(anyProto := {}), RequiredPorts(nb), env);
  }

  /** From its services on, a run ends tracked exactly under its condition, and
      otherwise with a wrong claim or an orphaned table. */
  lemma RunExact(nb: Netboot, base: Host, noFirewall: bool, r0: Run, env: Env)
    requires Tracked(nb, base, r0) && r0.ok == env(Preflight)
    ensures var q := AfterServices(nb, noFirewall, StartServices(r0, Stack(nb), env), env);
      && (Tracked(nb, base, q) <==> UpTrue(nb, noFirewall, r0.host, env))
      && (Tracked(nb, base, q) || Tainted(base, q) || Orphaned(q))
  {
    var r1 := StartServices(r0, Stack(nb), env);
    StackDistinct(nb);
    StartServicesDone(r0, Stack(nb), env);
    StartServicesExact(nb, base, r0, Stack(nb), env);
    hide RequiredPorts, NoDup, Stack, Tainted, Orphaned, Owns, AfterServices, StartServices, RulesTrue;
    hide ReachedTrue, AllStarted, Continues;
    if Tracked(nb, base, r1) {
      AfterServicesExact(nb, base, noFirewall, r1, env);
      SameFirewall(nb, r0.host, r1.host, env);
    } else {
      AfterServicesContinues(nb, noFirewall, r1, env);
      TaintStays(nb, base, r1, AfterServices(nb, noFirewall, r1, env));
    }
  }

  lemma SameFirewall(nb: Netboot, h: Host, g: Host, env: Env)
    requires g == h.(active := g.active, enabled := g.enabled)
    ensures FirewallTrue(nb, g, env) == FirewallTrue(nb, h, env) && ExportDone(g, env) == ExportDone(h, env)
  {
    hide RulesTrue, RequiredPorts;
  }

  /** Wherever an `up` stops, for every pattern of failures, the record on disk
      owns exactly what the host has beyond its baseline if and only if nothing
      the run got to was already there unseen, and no table was left half made. */
  lemma UpExact(nb: Netboot, base: Host, noFirewall: bool, m: Machine, env: Env)
    requires Accounted(nb, base, m)
    ensures Accounted(nb, base, AfterUp(nb, noFirewall, m, env)) <==> UpTrue(nb, noFirewall, m.host, env)
  {
    MergePriorExact(Owned(m.record));
    UpFrom(nb, noFirewall, m, env);
    var r0 := Run(m.host, MergePrior(NOTHING, Owned(m.record)), m.record, env(Preflight));
    var q := UpRun(nb, noFirewall, m, env);
    hide UpRun, MergePrior, UpTrue, StartServices, AfterServices;
    RunExact(nb, base, noFirewall, r0, env);
    if Tainted(base, q) { WrongIsWrong(nb, base, q); }
  }

  lemma WrongIsWrong(nb: Netboot, base: Host, q: Run)
    requires Tainted(base, q)
    ensures !Owns(nb, base, q.host, Owned(q.saved)) && !Owns(nb, base, q.host, q.st)
  {
    hide Overclaims, Owns;
    ExtendsItself(q.st);
    ExtendsItself(Owned(q.saved));
    OverclaimStays(nb, base, q.host, q.st, q.st);
    OverclaimStays(nb, base, q.host, Owned(q.saved), Owned(q.saved));
  }

  lemma {:induction false} AllTrueReachedTrue(host: Host, svcs: seq<string>, env: Env)
    requires forall s :: s in svcs ==> ProbesTrue(host, s, env)
    ensures ReachedTrue(host, svcs, env)
  {
    hide ProbesTrue;
    if svcs != [] { AllTrueReachedTrue(host, svcs[1..], env); }
  }

  lemma {:induction false} SeenRulesTrue(live: set<PortRule>, seen: Listing, rules: seq<PortRule>, env: Env)
    requires NoDup(rules) && forall r :: r in rules && r in live ==> r in seen.rules
    ensures RulesTrue(live, seen, rules, env)
    decreases |rules|
  {
    if rules != [] {
      RestDistinct(rules);
      SeenRulesTrue(live, seen, rules[1..], env);
      SeenRulesTrue(live + {rules[0]}, seen, rules[1..], env);
    }
  }

  /** In particular it does where every probe that matters answers and no port is
      asked for twice. */
  lemma UpAccounted(nb: Netboot, base: Host, noFirewall: bool, m: Machine, env: Env)
    requires Accounted(nb, base, m) && DistinctPorts(nb)
    requires SeesWhatIsThere(nb, noFirewall, m.host, env) && TableIsSafe(nb, noFirewall, m.host, env)
    ensures Accounted(nb, base, AfterUp(nb, noFirewall, m, env))
  {
    UpExact(nb, base, noFirewall, m, env);
    RequiredPortsDistinct(nb);
    hide RequiredPorts, Stack, ProbesTrue, Accounted, AfterUp, NoDup;
    AllTrueReachedTrue(m.host, Stack(nb), env);
    if !noFirewall && !nb.backend.NoFirewall? {
      var seen := ReadListing(m.host, env);
      SeenRulesTrue(m.host.rules, seen, RequiredPorts(nb), env);
      SeenRulesTrue(m.host.rules, seen.(anyProto := {}), RequiredPorts(nb), env);
    }
  }

  const BARE := Host({}, {}, false, {}, {}, false, false, false)

  /** On a bare host a table made without its chain ends unaccounted for. */
  lemma HalfTableUnowned(env: Env)
    requires forall c :: env(c) <==> c != NftAddChain
    ensures var nb := Netboot(8090, false, Nftables);
      Untouched(nb, BARE) && !Accounted(nb, BARE, AfterUp(nb, false, Machine(BARE, None), env))
  {
    var nb := Netboot(8090, false, Nftables);
    HalfTableUntrue(nb, env);
    hide AfterUp, UpTrue, Accounted;
    NothingOwned(nb, BARE);
    UpExact(nb, BARE, false, Machine(BARE, None), env);
  }

  lemma HalfTableUntrue(nb: Netboot, env: Env)
    requires nb.backend.Nftables? && forall c :: env(c) <==> c != NftAddChain
    ensures !UpTrue(nb, false, BARE, env)
  {
    hide RequiredPorts, RulesTrue, ReachedTrue, Stack;
  }

  /** Serving HTTP on the NFS port opens that port twice: where everything works
      the record still claims it twice over. */
  lemma RepeatedPortClaimedTwice(env: Env)
    requires forall c :: env(c)
    ensures var nb := Netboot(2049, false, Ufw);
      Untouched(nb, BARE) && !Accounted(nb, BARE, AfterUp(nb, false, Machine(BARE, None), env))
  {
    var nb := Netboot(2049, false, Ufw);
    RepeatedPortUntrue(nb, env);
    hide AfterUp, UpTrue, Accounted;
    NothingOwned(nb, BARE);
    UpExact(nb, BARE, false, Machine(BARE, None), env);
  }

  lemma RepeatedPortUntrue(nb: Netboot, env: Env)
    requires nb == Netboot(2049, false, Ufw) && forall c :: env(c)
    ensures !UpTrue(nb, false, BARE, env)
  {
    var p, r := RequiredPorts(nb), PortRule(2049, Tcp);
    var seen := Listing({}, {});
    assert p[0] == r && p[1..][0] == r;
    hide ReachedTrue, Stack, RequiredPorts;
    assert RulesTrue({}, seen, p, env) == RulesTrue({} + {r}, seen, p[1..], env);
  }

  /** Without a record `down` takes away an HTTP unit that was there before. */
  lemma UnrecordedDownStopsUnit(env: Env)
    requires forall c :: env(c)
    ensures var base := BARE.(active := {HTTP_UNIT}, enabled := {HTTP_UNIT});
      AfterDown(Machine(base, None), env) == Machine(BARE, None)
  {}

  /** A run that stops after misreading one service: the checkpoint claims an NFS
      server that was there before, and the next `down` stops it. */
  lemma StoppedUpOverclaims(nb: Netboot, base: Host, env: Env, good: Env)
    requires !nb.dnsmasq && base.active == base.enabled == {"nfs-server"}
    requires forall c :: env(c) <==> c != ProbeActive("nfs-server") && c != MkdirModels
    requires forall c :: good(c)
    ensures var m := AfterUp(nb, false, Machine(base, None), env);
      && m.record == Some(UpState("", [], false, false, [HTTP_UNIT, "nfs-server"], [HTTP_UNIT]))
      && "nfs-server" !in AfterDown(m, good).host.active
  {
    var r2 := StoppedUpServices(nb, base, env);
    hide StartServices, MergePrior, Reverse;
    UpFrom(nb, false, Machine(base, None), env);
    assert AfterServices(nb, false, r2, env) == r2.(ok := false);
    var m := AfterUp(nb, false, Machine(base, None), env);
    assert m == Machine(r2.host, Some(r2.st));
    hide AfterUp, AfterDown;
    CleanDownStops(r2.st, m.host, good);
    assert r2.st.started[1] == "nfs-server";
  }

  lemma StoppedUpServices(nb: Netboot, base: Host, env: Env) returns (q: Run)
    requires !nb.dnsmasq && base.active == base.enabled == {"nfs-server"}
    requires forall c :: env(c) <==> c != ProbeActive("nfs-server") && c != MkdirModels
    ensures q == StartServices(Run(base, MergePrior(NOTHING, NOTHING), None, true), Stack(nb), env)
    ensures q.ok && q.saved == Some(q.st)
    ensures q.st == UpState("", [], false, false, [HTTP_UNIT, "nfs-server"], [HTTP_UNIT])
  {
    assert |HTTP_UNIT| != |"nfs-server"|;
    hide StartServices, StartService;
    var r0 := Run(base, NOTHING, None, true);
    TwoServices(r0, Stack(nb), env);
    q := StartService(StartService(r0, HTTP_UNIT, env), "nfs-server", env);
    SecondIsMisread(base, HTTP_UNIT, "nfs-server", env);
  }

  lemma SecondIsMisread(base: Host, a: string, b: string, env: Env)
    requires a != b && base.active == base.enabled == {b}
    requires forall c :: env(c) <==> c != ProbeActive(b) && c != MkdirModels
    ensures var q := StartService(StartService(Run(base, NOTHING, None, true), a, env), b, env);
      && q.ok && q.saved == Some(q.st)
      && q.st == UpState("", [], false, false, [a, b], [a])
  {
    var r0 := Run(base, NOTHING, None, true);
    StartClaims(r0, a, env);
    var r1 := StartService(r0, a, env);
    StartClaims(r1, b, env);
    hide StartService;
    assert [a] + [b] == [a, b] && [a] + [] == [a];
  }

  /** What starting a service adds to the record, and checkpoints. */
  lemma StartClaims(run: Run, svc: string, env: Env)
    requires run.ok && env(EnableNow(svc))
    ensures var q := StartService(run, svc, env);
      var up := env(ProbeActive(svc)) && svc in run.host.active;
      var on := env(ProbeEnabled(svc)) && svc in run.host.enabled;
      && q.ok && run.host.enabled <= q.host.enabled
      && q.st == run.st.(started := run.st.started + (if up then [] else [svc]),
                         enabled := run.st.enabled + if on then [] else [svc])
      && q.saved == if up && on then run.saved else Some(q.st)
  {
    assert run.st.started + [] == run.st.started && run.st.enabled + [] == run.st.enabled;
  }

  lemma TwoServices(run: Run, svcs: seq<string>, env: Env)
    requires |svcs| == 2
    ensures StartServices(run, svcs, env) == StartService(StartService(run, svcs[0], env), svcs[1], env)
  {
    hide StartService;
    var next, rest := StartService(run, svcs[0], env), svcs[1..];
    assert rest[0] == svcs[1] && rest[1..] == [];
    assert StartServices(next, rest, env) == StartServices(StartService(next, rest[0], env), rest[1..], env);
  }

  lemma {:induction false} WithdrawsAll(todo: seq<string>, kept: seq<string>, live: set<string>, works: string -> bool)
    requires forall x :: works(x)
    ensures Withdraw(todo, kept, live, works).0 == live - (set x | x in todo)
    decreases |todo|
  {
    if todo != [] {
      WithdrawsAll(todo[1..], kept, live - {todo[0]}, works);
      assert todo == [todo[0]] + todo[1..];
    }
  }

  lemma CleanDownStops(st: UpState, host: Host, good: Env)
    requires forall c :: good(c)
    ensures AfterDown(Machine(host, Some(st)), good).host.active == host.active - (set x | x in st.started)
  {
    ReverseKeeps(st.started);
    WithdrawsAll(Reverse(st.started), [], host.active, s => good(Stop(s)));
    CloseIgnoresFile(st, host, good);
    hide Withdraw, CloseRecorded, Reverse, DisableEnabled;
    assert (set x | x in Reverse(st.started)) == (set x | x in st.started);
  }

  // --- What taking back keeps -----------------------------------------------

  lemma {:induction false} WithdrawOwned(
    base: set<string>, todo: seq<string>, kept: seq<string>, live: set<string>, works: string -> bool)
    requires OwnsNames(base, live, kept + todo)
    ensures OwnsNames(base, Withdraw(todo, kept, live, works).0, Withdraw(todo, kept, live, works).1)
    ensures (forall x :: x in todo ==> works(x)) ==> Withdraw(todo, kept, live, works).1 == kept
    decreases |todo|
  {
    var all := kept + todo;
    if todo == [] {
      assert all == kept;
    } else {
      var x := todo[0];
      assert all[|kept|] == x;
      if works(x) {
        var rest := kept + todo[1..];
        assert forall i :: 0 <= i < |rest| ==> rest[i] == all[if i < |kept| then i else i + 1];
        assert forall y :: y in all <==> y in rest || y == x;
        WithdrawOwned(base, todo[1..], kept, live - {x}, works);
      } else {
        assert (kept + [x]) + todo[1..] == all;
        WithdrawOwned(base, todo[1..], kept + [x], live, works);
      }
    }
  }

  lemma {:induction false} CloseRulesOwned(
    base: set<PortRule>, toks: seq<string>, kept: seq<string>, live: set<PortRule>, env: Env)
    requires OwnsRules(base, live, kept + toks)
    ensures OwnsRules(base, CloseRules(toks, kept, live, env).0, CloseRules(toks, kept, live, env).1)
    ensures (forall r :: env(DeleteRule(r))) ==> CloseRules(toks, kept, live, env).1 == kept
    decreases |toks|
  {
    hide Token, ParseRuleToken;
    var all := kept + toks;
    if toks == [] {
      assert all == kept;
    } else {
      var t := toks[0];
      assert all[|kept|] == t;
      TokenRoundTrip(RuleOf(t));
      var r := RuleOf(t);
      if env(DeleteRule(r)) {
        var rest := kept + toks[1..];
        assert forall i :: 0 <= i < |rest| ==> rest[i] == all[if i < |kept| then i else i + 1];
        assert forall y :: y in all <==> y in rest || y == t;
        assert (set y | y in all :: RuleOf(y)) == (set y | y in rest :: RuleOf(y)) + {r};
        CloseRulesOwned(base, toks[1..], kept, live - {r}, env);
      } else {
        assert (kept + [t]) + toks[1..] == all;
        CloseRulesOwned(base, toks[1..], kept + [t], live, env);
      }
    }
  }

  lemma {:induction false} ReverseKeeps(s: seq<string>)
    ensures forall x :: x in Reverse(s) <==> x in s
    ensures NoDup(s) ==> NoDup(Reverse(s))
  {
    if s != [] {
      ReverseKeeps(s[1..]);
      if NoDup(s) {
        assert forall i :: 0 <= i < |s| - 1 ==> s[1..][i] == s[i + 1];
        assert NoDup(s[1..]) && s[0] !in s[1..];
        var r := Reverse(s[1..]);
        assert forall i :: 0 <= i < |r| ==> r[i] in r;
      }
    }
  }

  lemma CloseRecordedOwned(nb: Netboot, base: Host, st: UpState, host: Host, env: Env)
    requires Owns(nb, base, host, st) && Untouched(nb, base)
    ensures var r := CloseRecorded(st, host, env);
      && r.0 == host.(rules := r.0.rules, table := r.0.table) && r.0.table == r.2
      && OwnsRules(base.rules, r.0.rules, r.1)
      && (r.1 != [] || r.2 ==> st.backend == BackendName(nb.backend))
      && (nb.backend.Nftables? && r.1 != [] ==> r.2) && (!nb.backend.Nftables? ==> !r.2)
      && (nb.backend.NoFirewall? ==> r.1 == [])
      && ((forall c :: env(c)) ==> r.1 == [] && !r.2)
  {
    assert [] + st.fwAdded == st.fwAdded;
    CloseRulesOwned(base.rules, st.fwAdded, [], host.rules, env);
    BackendNameParses(nb.backend);
    hide OwnsNames, CloseRules, BackendName, ParseBackend;
  }

  /** A recorded backend is read as one exactly when it is the name of one. */
  lemma BackendReads(s: string, b: Backend)
    ensures ParseBackend(s) == Some(b)
      <==> (s == "ufw" && b == Ufw) || (s == "nftables" && b == Nftables) || (s == "none" && b == NoFirewall)
  {
    assert |"ufw"| != |"nftables"| && |"ufw"| != |"none"| && |"nftables"| != |"none"|;
  }

  lemma BackendNameParses(b: Backend)
    ensures ParseBackend(BackendName(b)) == Some(b)
  {
    assert "ufw"[0] != "nftables"[0] && "nftables"[1] != "none"[1];
  }

  lemma ServicesOwned(base: Host, st: UpState, host: Host, env: Env)
    requires OwnsNames(base.active, host.active, st.started) && OwnsNames(base.enabled, host.enabled, st.enabled)
    ensures var (active, started) := StopStarted(st, host.active, env);
      OwnsNames(base.active, active, started) && ((forall c :: env(c)) ==> started == [])
    ensures var (enabled, still) := DisableEnabled(st, host.enabled, env);
      OwnsNames(base.enabled, enabled, still) && ((forall c :: env(c)) ==> still == [])
  {
    ReverseKeeps(st.started);
    assert [] + Reverse(st.started) == Reverse(st.started) && [] + st.enabled == st.enabled;
    WithdrawOwned(base.active, Reverse(st.started), [], host.active, s => env(Stop(s)));
    WithdrawOwned(base.enabled, st.enabled, [], host.enabled, s => env(Disable(s)));
    hide Withdraw, Reverse, NoDup;
  }

  /** The one way a recorded `down` loses track: the drop-in file is removed but
      `exportfs -ra` then fails, so the record owns a file that is gone. */
  predicate DropsExport(st: UpState, env: Env) {
    st.exportsFile && env(RemoveExports) && !env(Exportfs)
  }

  /** A `down` leaves a record of exactly what is still live, whatever subset of
      its removals fails, except in that one way. */
  lemma DownRecordedOwned(nb: Netboot, base: Host, st: UpState, host: Host, env: Env)
    requires Owns(nb, base, host, st) && Untouched(nb, base)
    ensures Owns(nb, base, DownRecorded(st, host, env).0, DownRecorded(st, host, env).1)
       <==> !DropsExport(st, env)
    ensures (forall c :: env(c)) ==> DownRecorded(st, host, env).1.OwnsNothing()
  {
    CloseRecordedOwned(nb, base, st, host, env);
    ServicesOwned(base, st, host, env);
    hide OwnsRules, OwnsNames, CloseRecorded, StopStarted, DisableEnabled, BackendName;
  }

  // --- What `down` takes away -----------------------------------------------

  lemma {:induction false} NothingWithdrawn(
    todo: seq<string>, kept: seq<string>, live: set<string>, works: string -> bool)
    requires forall x :: x in todo ==> !works(x)
    ensures Withdraw(todo, kept, live, works) == (live, kept + todo)
    decreases |todo|
  {
    if todo != [] {
      assert kept + [todo[0]] + todo[1..] == kept + todo;
      NothingWithdrawn(todo[1..], kept + [todo[0]], live, works);
    } else {
      assert kept + todo == kept;
    }
  }

  lemma {:induction false} ReverseAt(s: seq<string>, k: nat)
    requires k < |s|
    ensures |Reverse(s)| == |s| && Reverse(s)[k] == s[|s| - 1 - k]
    decreases |s|
  {
    if |s| > 1 { ReverseAt(s[1..], if k < |s| - 1 then k else 0); }
  }

  /** Services are stopped last first: a `down` that can stop none leaves them recorded
      in that order, so a second one leaves them in the order they came up. */
  lemma StopsLastFirst(st: UpState, h: Host, env: Env, k: nat)
    requires k < |st.started| && forall x :: x in st.started ==> !env(Stop(x))
    ensures var (t, r) := DownRecorded(st, h, env);
      && t.active == h.active && |r.started| == |st.started|
      && r.started[k] == st.started[|st.started| - 1 - k]
  {
    DownParts(st, h, env);
    ReverseAt(st.started, k);
    ReverseKeeps(st.started);
    var h2 := RemoveDropin(st, CloseRecorded(st, h, env).0, env).0;
    NothingWithdrawn(Reverse(st.started), [], h2.active, s => env(Stop(s)));
    assert [] + Reverse(st.started) == Reverse(st.started);
    hide CloseRecorded, RemoveDropin, Reverse, Withdraw, NoDup, DisableEnabled;
  }

  lemma {:induction false} WithdrawEach(todo: seq<string>, kept: seq<string>, live: set<string>, works: string -> bool)
    ensures var (left, still) := Withdraw(todo, kept, live, works);
      && (forall x :: x in left <==> x in live && !(x in todo && works(x)))
      && (forall x :: x in still <==> x in kept || (x in todo && !works(x)))
    decreases |todo|
  {
    if todo != [] {
      assert todo == [todo[0]] + todo[1..];
      if works(todo[0]) { WithdrawEach(todo[1..], kept, live - {todo[0]}, works); }
      else { WithdrawEach(todo[1..], kept + [todo[0]], live, works); }
    }
  }

  lemma {:induction false} CloseEach(toks: seq<string>, kept: seq<string>, live: set<PortRule>, env: Env)
    ensures var (left, still) := CloseRules(toks, kept, live, env);
      && ((forall t :: t in toks ==> t == Token(RuleOf(t))) ==>
            forall r :: r in left <==> r in live && !(Token(r) in toks && env(DeleteRule(r))))
      && (forall t :: t in still <==> t in kept || (t in toks && !Deletes(t, env)))
    decreases |toks|
  {
    if toks != [] {
      var t, rest := toks[0], toks[1..];
      var r := RuleOf(t);
      assert toks == [t] + rest;
      TokenRoundTrip(r);
      forall x ensures t == Token(r) ==> (Token(x) == t <==> x == r) { TokenRoundTrip(x); }
      if Deletes(t, env) {
        assert CloseRules(toks, kept, live, env) == CloseRules(rest, kept, live - {r}, env);
        hide Token, ParseRuleToken, RuleOf;
        CloseEach(rest, kept, live - {r}, env);
      } else {
        assert CloseRules(toks, kept, live, env) == CloseRules(rest, kept + [t], live, env);
        hide Token, ParseRuleToken;
        CloseEach(rest, kept + [t], live, env);
      }
    }
  }

  /** The token can be read, and deleting its rule works. */
  predicate Deletes(tok: string, env: Env) {
    ParseRuleToken(tok).Some? && env(DeleteRule(ParseRuleToken(tok).value))
  }

  /** A recorded `down` asks for every removal, whichever others fail: a service is
      still up, enabled, or in the record, exactly when its own call failed, and so
      is a rule; the drop-in and the own table likewise. */
  lemma DownTakesEach(nb: Netboot, base: Host, m: Machine, st: UpState, env: Env)
    requires Accounted(nb, base, m) && m.record == Some(st)
    ensures var (h, t) := (m.host, AfterDown(m, env));
      var r := Owned(t.record);
      && (forall x :: x in t.host.active <==> x in h.active && !(x in st.started && env(Stop(x))))
      && (forall x :: x in r.started <==> x in st.started && !env(Stop(x)))
      && (forall x :: x in t.host.enabled <==> x in h.enabled && !(x in st.enabled && env(Disable(x))))
      && (forall x :: x in r.enabled <==> x in st.enabled && !env(Disable(x)))
      && (t.host.exportFile <==> h.exportFile && !(st.exportsFile && env(RemoveExports)))
      && (t.host.exported <==> h.exported && !(st.exportsFile && h.exportFile && env(RemoveExports) && env(Exportfs)))
      && (r.exportsFile <==> st.exportsFile && h.exportFile && !(env(RemoveExports) && env(Exportfs)))
    ensures st.backend == "ufw" ==>
      var (t, r) := (AfterDown(m, env), Owned(AfterDown(m, env).record));
      && (forall x :: x in t.host.rules <==> x in m.host.rules && !(Token(x) in st.fwAdded && env(DeleteRule(x))))
      && (forall x :: Token(x) in r.fwAdded <==> Token(x) in st.fwAdded && !env(DeleteRule(x)))
    ensures st.backend == "nftables" && st.nftTable ==>
      var (t, r) := (AfterDown(m, env), Owned(AfterDown(m, env).record));
      if env(NftDeleteTable) then t.host.rules == {} && !t.host.table && r.fwAdded == [] && !r.nftTable
      else t.host.rules == m.host.rules && t.host.table == m.host.table && r.fwAdded == st.fwAdded && r.nftTable
  {
    DownParts(st, m.host, env);
    DownFirewallParts(st, m.host, env);
    var (host, residual) := DownRecorded(st, m.host, env);
    hide DownRecorded, Token, RuleOf, Owns;
    assert AfterDown(m, env).host == host;
    assert Owned(AfterDown(m, env).record) == if residual.OwnsNothing() then NOTHING else residual;
  }

  lemma DownParts(st: UpState, h: Host, env: Env)
    ensures var (t, r) := DownRecorded(st, h, env);
      && (forall x :: x in t.active <==> x in h.active && !(x in st.started && env(Stop(x))))
      && (forall x :: x in r.started <==> x in st.started && !env(Stop(x)))
      && (forall x :: x in t.enabled <==> x in h.enabled && !(x in st.enabled && env(Disable(x))))
      && (forall x :: x in r.enabled <==> x in st.enabled && !env(Disable(x)))
      && (t.exportFile <==> h.exportFile && !(st.exportsFile && env(RemoveExports)))
      && (t.exported <==> h.exported && !(st.exportsFile && h.exportFile && env(RemoveExports) && env(Exportfs)))
      && (r.exportsFile <==> st.exportsFile && h.exportFile && !(env(RemoveExports) && env(Exportfs)))
  {
    ReverseKeeps(st.started);
    WithdrawEach(Reverse(st.started), [], h.active, s => env(Stop(s)));
    WithdrawEach(st.enabled, [], h.enabled, s => env(Disable(s)));
    CloseIgnoresFile(st, h, env);
    hide CloseRecorded, Withdraw, Reverse;
  }

  lemma DownFirewallParts(st: UpState, h: Host, env: Env)
    requires forall t :: t in st.fwAdded ==> t == Token(RuleOf(t))
    ensures st.backend == "ufw" ==>
      var (t, r) := DownRecorded(st, h, env);
      && (forall x :: x in t.rules <==> x in h.rules && !(Token(x) in st.fwAdded && env(DeleteRule(x))))
      && (forall x :: Token(x) in r.fwAdded <==> Token(x) in st.fwAdded && !env(DeleteRule(x)))
    ensures st.backend == "nftables" && st.nftTable ==>
      var (t, r) := DownRecorded(st, h, env);
      if env(NftDeleteTable) then t.rules == {} && !t.table && r.fwAdded == [] && !r.nftTable
      else t.rules == h.rules && t.table == h.table && r.fwAdded == st.fwAdded && r.nftTable
    ensures st.backend == "nftables" && !st.nftTable && st.fwAdded != [] ==>
      var (t, r) := DownRecorded(st, h, env);
      && t.table == h.table && !r.nftTable
      && if env(NftFlushTable) then t.rules == {} && r.fwAdded == []
         else t.rules == h.rules && r.fwAdded == st.fwAdded
  {
    BackendNameParses(Ufw);
    BackendNameParses(Nftables);
    CloseEach(st.fwAdded, [], h.rules, env);
    forall x ensures Deletes(Token(x), env) == env(DeleteRule(x)) { TokenRoundTrip(x); }
    hide CloseRules, Token, RuleOf, Deletes, StopStarted, DisableEnabled, ParseBackend, RemoveDropin;
    DropinAndServicesOnly(st, h, env);
  }

  /** Past its firewall part a `down` leaves rules and table alone. */
  lemma DropinAndServicesOnly(st: UpState, h: Host, env: Env)
    ensures var (t, r) := DownRecorded(st, h, env);
      var (g, toks, table) := CloseRecorded(st, h, env);
      t.rules == g.rules && t.table == g.table && r.fwAdded == toks && r.nftTable == table
  {
    hide CloseRecorded, StopStarted, DisableEnabled;
  }

  /** Without a record `down` takes away what is unmistakably llmtune's, in order,
      and gives up at the first failing call after the unit's. */
  lemma UnrecordedDownTakes(m: Machine, env: Env)
    requires m.record.None?
    ensures var (h, t) := (m.host, AfterDown(m, env).host);
      var go := h.exportFile ==> env(RemoveExports) && env(Exportfs);
      && AfterDown(m, env).record.None?
      && (forall x :: x in t.active <==> x in h.active && !(x == "llmtune-netboot.service" && env(DisableNow(x))))
      && (forall x :: x in t.enabled <==> x in h.enabled && !(x == "llmtune-netboot.service" && env(DisableNow(x))))
      && (t.exportFile <==> h.exportFile && !env(RemoveExports))
      && (t.exported <==> h.exported && !(h.exportFile && env(RemoveExports) && env(Exportfs)))
      && (if h.table && go && env(ListTables) && env(NftDeleteTable) then !t.table && t.rules == {}
          else t.table == h.table && t.rules == h.rules)
      && t.handExport == h.handExport && t.anyProto == h.anyProto
  {}

  lemma OwnsNothingMeansBase(nb: Netboot, base: Host, host: Host, st: UpState)
    requires Owns(nb, base, host, st) && Untouched(nb, base) && st.OwnsNothing()
    ensures host == base && Owns(nb, base, host, NOTHING)
  {
    assert base.active + (set x | x in []) == base.active;
    assert base.enabled + (set x | x in []) == base.enabled;
    assert base.rules + (set t | t in [] :: RuleOf(t)) == base.rules;
  }

  predicate HttpIdle(base: Host) {
    HTTP_UNIT !in base.active && HTTP_UNIT !in base.enabled
  }

  /** Without a record `down` still stops the HTTP unit, so it leaves the host
      as it found it exactly when that unit was idle or could not be stopped. */
  lemma DownUnrecordedExact(nb: Netboot, base: Host, m: Machine, env: Env)
    requires Accounted(nb, base, m) && Untouched(nb, base) && m.record.None?
    ensures Accounted(nb, base, AfterDown(m, env)) <==> !env(DisableNow(HTTP_UNIT)) || HttpIdle(base)
  {
    OwnsNothingMeansBase(nb, base, m.host, NOTHING);
    var h := DownUnrecorded(base, env);
    if Accounted(nb, base, AfterDown(m, env)) {
      OwnsNothingMeansBase(nb, base, h, NOTHING);
    }
    if HttpIdle(base) {
      assert base.active - {HTTP_UNIT} == base.active && base.enabled - {HTTP_UNIT} == base.enabled;
    }
  }

  /** `down` keeps the accounting, for any subset of failing removals. */
  lemma DownAccounted(nb: Netboot, base: Host, m: Machine, env: Env)
    requires Accounted(nb, base, m) && Untouched(nb, base)
    requires m.record.Some? ==> !DropsExport(m.record.value, env)
    requires m.record.None? ==> !env(DisableNow(HTTP_UNIT)) || HttpIdle(base)
    ensures Accounted(nb, base, AfterDown(m, env))
    ensures AfterDown(m, env).record.None? ==> AfterDown(m, env).host == base
  {
    match m.record
    case None =>
      DownUnrecordedExact(nb, base, m, env);
      OwnsNothingMeansBase(nb, base, AfterDown(m, env).host, NOTHING);
    case Some(st) =>
      DownRecordedOwned(nb, base, st, m.host, env);
      var (host, residual) := DownRecorded(st, m.host, env);
      if residual.OwnsNothing() { OwnsNothingMeansBase(nb, base, host, residual); }
  }

  // --- Whole histories ------------------------------------------------------

  datatype Op = UpOp(noFirewall: bool, env: Env) | DownOp(env: Env)

  function Step(nb: Netboot, m: Machine, op: Op): Machine {
    match op
    case UpOp(noFirewall, env) => AfterUp(nb, noFirewall, m, env)
    case DownOp(env) => AfterDown(m, env)
  }

  function History(nb: Netboot, m: Machine, ops: seq<Op>): Machine
    decreases |ops|
  {
    if ops == [] then m else History(nb, Step(nb, m, ops[0]), ops[1..])
  }

  /** When one step keeps the accounting. */
  ghost predicate Sound(nb: Netboot, base: Host, m: Machine, op: Op) {
    match op
    case UpOp(noFirewall, env) => UpTrue(nb, noFirewall, m.host, env)
    case DownOp(env) =>
      match m.record
      case Some(st) => !DropsExport(st, env)
      case None => !env(DisableNow(HTTP_UNIT)) || HttpIdle(base)
  }

  ghost predicate SoundHistory(nb: Netboot, base: Host, m: Machine, ops: seq<Op>)
    decreases |ops|
  {
    ops == [] || (Sound(nb, base, m, ops[0]) && SoundHistory(nb, base, Step(nb, m, ops[0]), ops[1..]))
  }

  /** The record accounts for the host after every step. */
  ghost predicate AlwaysAccounted(nb: Netboot, base: Host, m: Machine, ops: seq<Op>)
    decreases |ops|
  {
    Accounted(nb, base, m) && (ops == [] || AlwaysAccounted(nb, base, Step(nb, m, ops[0]), ops[1..]))
  }

  lemma StepExact(nb: Netboot, base: Host, m: Machine, op: Op)
    requires Untouched(nb, base) && Accounted(nb, base, m)
    ensures Accounted(nb, base, Step(nb, m, op)) <==> Sound(nb, base, m, op)
  {
    hide AfterUp, UpTrue, DownRecorded, OwnsRules, OwnsNames, DownUnrecorded;
    match op
    case UpOp(noFirewall, env) => UpExact(nb, base, noFirewall, m, env);
    case DownOp(env) =>
      match m.record
      case None => DownUnrecordedExact(nb, base, m, env);
      case Some(st) =>
        DownRecordedOwned(nb, base, st, m.host, env);
        var (host, residual) := DownRecorded(st, m.host, env);
        assert residual.OwnsNothing() ==> (Owns(nb, base, host, residual) <==> Owns(nb, base, host, NOTHING));
  }

  /** Over any run of `up` and `down`, with any calls failing, the record accounts
      for the host after every step if and only if every step is sound. */
  lemma {:induction false} HistoryExact(nb: Netboot, base: Host, m: Machine, ops: seq<Op>)
    requires Untouched(nb, base) && Accounted(nb, base, m)
    ensures AlwaysAccounted(nb, base, m, ops) <==> SoundHistory(nb, base, m, ops)
    decreases |ops|
  {
    hide Accounted, Sound, Step;
    if ops != [] {
      var next := Step(nb, m, ops[0]);
      StepExact(nb, base, m, ops[0]);
      if Sound(nb, base, m, ops[0]) { HistoryExact(nb, base, next, ops[1..]); }
      else { assert !AlwaysAccounted(nb, base, next, ops[1..]); }
    }
  }

  /** So after a sound run the host is the baseline plus, disjointly, exactly what
      the record owns. */
  lemma {:induction false} HistoryAccounted(nb: Netboot, base: Host, m: Machine, ops: seq<Op>)
    requires Untouched(nb, base) && Accounted(nb, base, m)
    requires SoundHistory(nb, base, m, ops)
    ensures Accounted(nb, base, History(nb, m, ops))
    decreases |ops|
  {
    hide Accounted, Sound, Step;
    if ops != [] {
      StepExact(nb, base, m, ops[0]);
      HistoryAccounted(nb, base, Step(nb, m, ops[0]), ops[1..]);
    }
  }

  /** After any such history one `down` without a failed call puts the baseline
      back and deletes the record; it suffices however the history ended. */
  lemma CleanDownRestores(nb: Netboot, base: Host, ops: seq<Op>, env: Env)
    requires Untouched(nb, base)
    requires SoundHistory(nb, base, Machine(base, None), ops)
    requires forall c :: env(c)
    requires var m := History(nb, Machine(base, None), ops); m.record.Some? || HttpIdle(base)
    ensures AfterDown(History(nb, Machine(base, None), ops), env) == Machine(base, None)
  {
    var start := Machine(base, None);
    NothingOwned(nb, base);
    HistoryAccounted(nb, base, start, ops);
    var m := History(nb, start, ops);
    if m.record.Some? { DownRecordedOwned(nb, base, m.record.value, m.host, env); }
    DownAccounted(nb, base, m, env);
  }

  lemma NothingOwned(nb: Netboot, base: Host)
    requires Untouched(nb, base)
    ensures Accounted(nb, base, Machine(base, None))
  {
    assert base.active + (set x | x in []) == base.active;
    assert base.enabled + (set x | x in []) == base.enabled;
    assert base.rules + (set t | t in [] :: RuleOf(t)) == base.rules;
  }

  /** After a sound history everything that was on the host before llmtune is
      still there. */
  lemma BaselineSurvives(nb: Netboot, base: Host, ops: seq<Op>)
    requires Untouched(nb, base)
    requires SoundHistory(nb, base, Machine(base, None), ops)
    ensures var h := History(nb, Machine(base, None), ops).host;
      base.rules <= h.rules && base.active <= h.active && base.enabled <= h.enabled
      && h.handExport == base.handExport && h.anyProto == base.anyProto
  {
    NothingOwned(nb, base);
    HistoryAccounted(nb, base, Machine(base, None), ops);
  }

  // --- Where the assumptions are needed -------------------------------------

  /** A `down` whose `exportfs -ra` fails after the file is gone, followed by one
      where everything works: the record is deleted, the export is still live. */
  lemma ExportStaysLive(nb: Netboot, base: Host, st: UpState, host: Host, bad: Env, good: Env)
    requires Owns(nb, base, host, st) && Untouched(nb, base) && host.exported
    requires DropsExport(st, bad) && forall c :: good(c)
    ensures var m := AfterDown(AfterDown(Machine(host, Some(st)), bad), good);
      m.record.None? && m.host.exported && !m.host.exportFile
  {
    var (h, r) := DownRecorded(st, host, bad);
    var h' := h.(exportFile := true);
    ExportLeftBehind(nb, base, st, host, bad);
    DownRecordedOwned(nb, base, r, h', good);
    DownIgnoresLostFile(r, h, good);
  }

  /** After such a `down` the record claims a drop-in that is no longer there. */
  lemma ExportLeftBehind(nb: Netboot, base: Host, st: UpState, host: Host, bad: Env)
    requires Owns(nb, base, host, st) && Untouched(nb, base) && host.exported && DropsExport(st, bad)
    ensures var (h, r) := DownRecorded(st, host, bad);
      Owns(nb, base, h.(exportFile := true), r) && h.exported && !h.exportFile && r.exportsFile
  {
    CloseRecordedOwned(nb, base, st, host, bad);
    ServicesOwned(base, st, host, bad);
    hide OwnsRules, OwnsNames, CloseRecorded, StopStarted, DisableEnabled, BackendName;
  }

  /** Where the recorded drop-in is already gone, `down` behaves as if it had just
      removed it, but never re-reads the exports. */
  lemma DownIgnoresLostFile(st: UpState, host: Host, env: Env)
    requires !host.exportFile && st.exportsFile && forall c :: env(c)
    ensures var (h, r) := DownRecorded(st, host, env);
      r == DownRecorded(st, host.(exportFile := true), env).1 && h.exported == host.exported && !h.exportFile
  {
    CloseIgnoresFile(st, host, env);
    hide CloseRecorded, StopStarted, DisableEnabled;
  }

  lemma CloseIgnoresFile(st: UpState, host: Host, env: Env)
    ensures var r := CloseRecorded(st, host, env);
      && CloseRecorded(st, host.(exportFile := true), env) == (r.0.(exportFile := true), r.1, r.2)
      && r.0 == host.(rules := r.0.rules, table := r.0.table)
  {
    hide CloseRules, ParseBackend;
  }

  // --- What a completed up has opened ---------------------------------------

  /** The ports a netboot server is reached on. */
  ghost predicate Needs(nb: Netboot, r: PortRule) {
    || r == PortRule(nb.httpPort, Tcp)
    || r == PortRule(2049, Tcp) || r == PortRule(111, Tcp) || r == PortRule(111, Udp)
    || (nb.dnsmasq && (r == PortRule(67, Udp) || r == PortRule(69, Udp) || r == PortRule(4011, Udp)))
  }

  /** The services a netboot server consists of. */
  ghost predicate NeedsService(nb: Netboot, s: string) {
    s == "llmtune-netboot.service" || s == "nfs-server" || (nb.dnsmasq && s == "dnsmasq")
  }

  lemma PortsAreNeeds(nb: Netboot, r: PortRule)
    ensures r in RequiredPorts(nb) <==> Needs(nb, r)
  {
    var four := [PortRule(nb.httpPort, Tcp), PortRule(2049, Tcp), PortRule(111, Tcp), PortRule(111, Udp)];
    var three := [PortRule(67, Udp), PortRule(69, Udp), PortRule(4011, Udp)];
    assert RequiredPorts(nb) == four + if nb.dnsmasq then three else [];
  }

  lemma StackIsNeeds(nb: Netboot, s: string)
    ensures s in Stack(nb) <==> NeedsService(nb, s)
  {
    var two := ["llmtune-netboot.service", "nfs-server"];
    assert Stack(nb) == two + if nb.dnsmasq then ["dnsmasq"] else [];
  }

  lemma StartServiceDone(run: Run, svc: string, env: Env)
    ensures var q := StartService(run, svc, env);
      && q.host == run.host.(active := q.host.active, enabled := q.host.enabled)
      && (q.ok <==> run.ok && env(EnableNow(svc)))
      && (q.ok ==> q.host.active == run.host.active + {svc} && q.host.enabled == run.host.enabled + {svc})
  {}

  lemma {:induction false} StartServicesDone(run: Run, svcs: seq<string>, env: Env)
    ensures var q := StartServices(run, svcs, env);
      && q.host == run.host.(active := q.host.active, enabled := q.host.enabled)
      && (q.ok <==> run.ok && AllStarted(svcs, env))
      && (q.ok ==> (forall s :: s in q.host.active <==> s in run.host.active || s in svcs)
                   && (forall s :: s in q.host.enabled <==> s in run.host.enabled || s in svcs))
    decreases |svcs|
  {
    if svcs != [] {
      StartServiceDone(run, svcs[0], env);
      hide StartService;
      StartServicesDone(StartService(run, svcs[0], env), svcs[1..], env);
      assert svcs == [svcs[0]] + svcs[1..];
    }
  }

  lemma OpenPortDone(run: Run, seen: Listing, r: PortRule, env: Env)
    ensures var q := OpenPort(run, seen, r, env);
      && (q.ok <==> run.ok && (Present(seen, r) || env(AllowRule(r))))
      && (q.ok ==> q.host == run.host.(rules := run.host.rules + if Present(seen, r) then {} else {r}))
  {
    hide Token;
    assert run.host.rules + {} == run.host.rules;
  }

  lemma {:induction false} OpenPortsDone(run: Run, seen: Listing, rules: seq<PortRule>, env: Env)
    ensures var q := OpenPorts(run, seen, rules, env);
      && (q.ok <==> run.ok && forall r :: r in rules ==> Present(seen, r) || env(AllowRule(r)))
      && (q.ok ==> q.host == run.host.(rules := q.host.rules)
                   && forall r :: r in q.host.rules <==> r in run.host.rules || (r in rules && !Present(seen, r)))
    decreases |rules|
  {
    if rules != [] {
      OpenPortDone(run, seen, rules[0], env);
      hide OpenPort, Present;
      OpenPortsDone(OpenPort(run, seen, rules[0], env), seen, rules[1..], env);
      assert rules == [rules[0]] + rules[1..];
    }
  }

  /** The probes see this service up: nothing is claimed for it. */
  ghost predicate SeenUp(h: Host, svc: string, env: Env) {
    env(ProbeActive(svc)) && svc in h.active && env(ProbeEnabled(svc)) && svc in h.enabled
  }

  /** Services come up one after the other until the first that does not; the record
      is saved if one of them was not seen up before, and is otherwise left alone. */
  lemma {:induction false} ServicesStop(run: Run, svcs: seq<string>, k: nat, env: Env)
    requires run.ok && NoDup(svcs) && k <= |svcs| && (forall i :: 0 <= i < k ==> env(EnableNow(svcs[i])))
    requires k < |svcs| ==> !env(EnableNow(svcs[k]))
    ensures var r := StartServices(run, svcs, env);
      && (r.ok <==> k == |svcs|)
      && r.host == run.host.(active := r.host.active, enabled := r.host.enabled)
      && (forall x :: x in r.host.active <==> x in run.host.active || x in svcs[..k])
      && (forall x :: x in r.host.enabled <==> x in run.host.enabled || x in svcs[..k])
      && if forall i :: 0 <= i < k ==> SeenUp(run.host, svcs[i], env) then r.st == run.st && r.saved == run.saved
         else r.saved == Some(r.st)
    decreases |svcs|
  {
    if k > 0 {
      var q, rest := StartService(run, svcs[0], env), svcs[1..];
      StartOne(run, svcs[0], env);
      assert StartServices(run, svcs, env) == StartServices(q, rest, env);
      hide StartService, StartServices;
      assert rest[..k - 1] == svcs[..k][1..] && svcs[..k] == [svcs[0]] + rest[..k - 1];
      assert forall i :: 0 <= i < k - 1 ==> rest[i] == svcs[i + 1];
      assert forall i :: 0 < i < k ==> rest[i - 1] == svcs[i] != svcs[0];
      ServicesStop(q, rest, k - 1, env);
      assert forall i :: 0 < i < k ==> SeenUp(q.host, svcs[i], env) == SeenUp(run.host, svcs[i], env);
      hide NoDup, SeenUp;
    } else {
      assert svcs[..0] == [];
      if svcs != [] { StoppedStays(run.(ok := false), svcs[1..], Listing({}, {}), [], env); }
    }
  }

  lemma StartOne(run: Run, svc: string, env: Env)
    requires run.ok && env(EnableNow(svc))
    ensures var q := StartService(run, svc, env);
      && q.ok && q.host == run.host.(active := run.host.active + {svc}, enabled := run.host.enabled + {svc})
      && if SeenUp(run.host, svc, env) then q.st == run.st && q.saved == run.saved else q.saved == Some(q.st)
  {
    if SeenUp(run.host, svc, env) {
      assert run.host.active + {svc} == run.host.active && run.host.enabled + {svc} == run.host.enabled;
    }
  }

  /** Missing ports are opened one after the other until the first that cannot be,
      each claimed as it is opened; those seen open are passed over. */
  lemma {:induction false} PortsStop(run: Run, seen: Listing, rules: seq<PortRule>, k: nat, env: Env)
    requires run.ok && k <= |rules|
    requires forall i :: 0 <= i < k ==> Present(seen, rules[i]) || env(AllowRule(rules[i]))
    requires k < |rules| ==> !Present(seen, rules[k]) && !env(AllowRule(rules[k]))
    ensures var r := OpenPorts(run, seen, rules, env);
      && (r.ok <==> k == |rules|)
      && r.host == run.host.(rules := r.host.rules) && r.st == run.st.(fwAdded := r.st.fwAdded)
      && (forall x :: x in r.host.rules <==> x in run.host.rules || (x in rules[..k] && !Present(seen, x)))
      && run.st.fwAdded <= r.st.fwAdded
      && (forall i :: 0 <= i < k && !Present(seen, rules[i]) ==> Token(rules[i]) in r.st.fwAdded)
      && if forall i :: 0 <= i < k ==> Present(seen, rules[i]) then r.st == run.st && r.saved == run.saved
         else r.saved == Some(r.st)
    decreases |rules|
  {
    hide Token, Present;
    if k > 0 {
      var q, rest := OpenPort(run, seen, rules[0], env), rules[1..];
      OpenOne(run, seen, rules[0], env);
      assert OpenPorts(run, seen, rules, env) == OpenPorts(q, seen, rest, env);
      hide OpenPort, OpenPorts;
      assert rest[..k - 1] == rules[..k][1..] && rules[..k] == [rules[0]] + rest[..k - 1];
      assert forall i :: 0 <= i < k - 1 ==> rest[i] == rules[i + 1];
      PortsStop(q, seen, rest, k - 1, env);
      assert forall i :: 0 < i < k ==> rules[i] == rest[i - 1];
    } else {
      assert rules[..0] == [];
      if rules != [] { StoppedStays(run.(ok := false), [], seen, rules[1..], env); }
    }
  }

  lemma OpenOne(run: Run, seen: Listing, r: PortRule, env: Env)
    requires run.ok && (Present(seen, r) || env(AllowRule(r)))
    ensures var q := OpenPort(run, seen, r, env);
      && q.ok && q.host == run.host.(rules := q.host.rules) && q.st == run.st.(fwAdded := q.st.fwAdded)
      && run.st.fwAdded <= q.st.fwAdded
      && if Present(seen, r) then q == run
         else q.host.rules == run.host.rules + {r} && Token(r) in q.st.fwAdded && q.saved == Some(q.st)
  {
    hide Token, Present;
    if !Present(seen, r) {
      assert OpenPort(run, seen, r, env).st.fwAdded[|run.st.fwAdded|] == Token(r);
    }
  }

  /** The export phase, wherever it stops: the file is written unless a hand-made
      export is seen, claimed once it is, and served only after the re-read. */
  lemma ExportStops(run: Run, env: Env)
    requires run.ok
    ensures var r := ExportModels(run, env);
      var seen := env(ReadExports) && run.host.handExport;
      var wrote := !seen && env(MkdirModels) && env(MkdirExports) && env(WriteExports);
      && (r.ok <==> env(MkdirModels) && (seen || wrote) && env(Exportfs))
      && r.host == run.host.(exportFile := run.host.exportFile || wrote,
                             exported := if r.ok then run.host.exportFile || wrote else run.host.exported)
      && r.st == run.st.(exportsFile := run.st.exportsFile || wrote)
      && r.saved == if wrote then Some(r.st) else run.saved
  {}

  /** The table comes before its chain; only both together are claimed. */
  lemma TableStops(run: Run, env: Env)
    requires run.ok
    ensures var r := EnsureTable(run, env);
      if env(ListTables) && run.host.table then r == run
      else
        && (r.ok <==> env(NftAddTable) && env(NftAddChain))
        && r.host == run.host.(table := run.host.table || env(NftAddTable))
        && r.st == run.st.(nftTable := run.st.nftTable || r.ok)
        && r.saved == if r.ok then Some(r.st) else run.saved
  {}

  /** A needed port that the run does not see open already. */
  ghost predicate Missing(nb: Netboot, h: Host, env: Env, r: PortRule) {
    Needs(nb, r) && !(env(ListRules) && (r in h.rules || (nb.backend.Ufw? && r.port in h.anyProto)))
  }

  /** The firewall calls of an `up` that matter all work. */
  ghost predicate FirewallWorks(nb: Netboot, h: Host, env: Env) {
    && (forall r :: Missing(nb, h, env, r) ==> env(AllowRule(r)))
    && (nb.backend.Nftables? ==> (env(ListTables) && h.table) || (env(NftAddTable) && env(NftAddChain)))
  }

  /** An `up` completes if and only if every call it makes works: the preflight,
      each needed service, the export unless a hand-made one is seen, and each
      needed port that is not seen open. */
  lemma UpCompletesExactly(nb: Netboot, noFirewall: bool, m: Machine, env: Env)
    ensures UpRun(nb, noFirewall, m, env).ok
      <==> env(Preflight)
           && (forall s :: NeedsService(nb, s) ==> env(EnableNow(s)))
           && env(MkdirModels) && env(Exportfs)
           && ((env(ReadExports) && m.host.handExport) || (env(MkdirExports) && env(WriteExports)))
           && (noFirewall || nb.backend.NoFirewall? || FirewallWorks(nb, m.host, env))
  {
    var r1 := ServicesUp(nb, m, env);
    UpFrom(nb, noFirewall, m, env);
    hide UpRun, StartServices, MergePrior, OpenedFirewall, FirewallWorks, NeedsService;
    var r2 := ExportModels(r1, env);
    if r2.ok && !noFirewall {
      FirewallDone(nb, r2.(st := r2.st.(backend := BackendName(nb.backend))), env);
      SameWorks(nb, m.host, r2.host, env);
    }
  }

  /** What a completed `up` leaves on the host: every needed service runs and is
      enabled, the export is served, and exactly the missing ports were opened. */
  lemma CompletedUpServes(nb: Netboot, noFirewall: bool, m: Machine, env: Env)
    requires UpRun(nb, noFirewall, m, env).ok
    ensures var h := AfterUp(nb, noFirewall, m, env).host;
      && (forall s :: s in h.active <==> s in m.host.active || NeedsService(nb, s))
      && (forall s :: s in h.enabled <==> s in m.host.enabled || NeedsService(nb, s))
      && h.handExport == m.host.handExport && h.anyProto == m.host.anyProto
      && h.exportFile == (m.host.exportFile || !(env(ReadExports) && m.host.handExport))
      && h.exported == h.exportFile
      && (h.table <==> m.host.table || (!noFirewall && nb.backend.Nftables?))
      && (forall r :: r in h.rules <==>
            r in m.host.rules || (!noFirewall && !nb.backend.NoFirewall? && Missing(nb, m.host, env, r)))
  {
    var r1 := ServicesUp(nb, m, env);
    UpFrom(nb, noFirewall, m, env);
    hide UpRun, StartServices, MergePrior, OpenedFirewall, NeedsService, Needs;
    var r2 := ExportModels(r1, env);
    if !noFirewall {
      FirewallDone(nb, r2.(st := r2.st.(backend := BackendName(nb.backend))), env);
      assert forall r :: Missing(nb, r2.host, env, r) <==> Missing(nb, m.host, env, r);
    }
  }

  lemma SameWorks(nb: Netboot, g: Host, h: Host, env: Env)
    requires g.rules == h.rules && g.anyProto == h.anyProto && g.table == h.table
    ensures FirewallWorks(nb, g, env) == FirewallWorks(nb, h, env)
  {
    assert forall r :: Missing(nb, g, env, r) == Missing(nb, h, env, r);
    hide Missing;
  }

  lemma ServicesUp(nb: Netboot, m: Machine, env: Env) returns (q: Run)
    ensures q == StartServices(
      Run(m.host, MergePrior(NOTHING, Owned(m.record)), m.record, env(Preflight)), Stack(nb), env)
    ensures q.ok <==> env(Preflight) && forall s :: NeedsService(nb, s) ==> env(EnableNow(s))
    ensures q.host == m.host.(active := q.host.active, enabled := q.host.enabled)
    ensures q.ok ==> forall s :: s in q.host.active <==> s in m.host.active || NeedsService(nb, s)
    ensures q.ok ==> forall s :: s in q.host.enabled <==> s in m.host.enabled || NeedsService(nb, s)
  {
    var r0 := Run(m.host, MergePrior(NOTHING, Owned(m.record)), m.record, env(Preflight));
    q := StartServices(r0, Stack(nb), env);
    StartServicesDone(r0, Stack(nb), env);
    forall s ensures s in Stack(nb) <==> NeedsService(nb, s) { StackIsNeeds(nb, s); }
    hide StartServices, MergePrior, Stack, NeedsService;
  }

  lemma FirewallDone(nb: Netboot, run: Run, env: Env)
    requires run.ok
    ensures var q := OpenedFirewall(nb, run, env);
      && (q.ok <==> nb.backend.NoFirewall? || FirewallWorks(nb, run.host, env))
      && (q.ok ==> q.host == run.host.(rules := q.host.rules, table := run.host.table || nb.backend.Nftables?)
                   && forall r :: r in q.host.rules <==>
                        r in run.host.rules || (!nb.backend.NoFirewall? && Missing(nb, run.host, env, r)))
  {
    var ports := RequiredPorts(nb);
    forall r ensures r in ports <==> Needs(nb, r) { PortsAreNeeds(nb, r); }
    hide RequiredPorts, Needs, OpenPorts;
    match nb.backend
    case NoFirewall =>
    case Ufw =>
      var seen := ReadListing(run.host, env);
      OpenPortsDone(run, seen, ports, env);
      assert forall r :: Missing(nb, run.host, env, r) <==> r in ports && !Present(seen, r);
    case Nftables =>
      var t := EnsureTable(run, env);
      var seen := ReadListing(t.host, env).(anyProto := {});
      OpenPortsDone(t, seen, ports, env);
      assert t.ok <==> (env(ListTables) && run.host.table) || (env(NftAddTable) && env(NftAddChain));
      assert forall r :: Missing(nb, run.host, env, r) <==> r in ports && !Present(seen, r);
  }

  lemma {:induction false} StartServicesAgain(run: Run, svcs: seq<string>, env: Env)
    requires Seen(env) && forall s :: s in svcs ==> s in run.host.active && s in run.host.enabled
    ensures StartServices(run, svcs, env) == run.(ok := StartServices(run, svcs, env).ok)
    decreases |svcs|
  {
    if svcs != [] {
      var s := svcs[0];
      assert run.host.active + {s} == run.host.active && run.host.enabled + {s} == run.host.enabled;
      StartServicesAgain(StartService(run, s, env), svcs[1..], env);
    }
  }

  lemma {:induction false} OpenPortsAgain(run: Run, seen: Listing, rules: seq<PortRule>, env: Env)
    requires forall r :: r in rules ==> Present(seen, r)
    ensures OpenPorts(run, seen, rules, env) == run
    decreases |rules|
  {
    if rules != [] { OpenPortsAgain(run, seen, rules[1..], env); }
  }

  lemma ServedAlready(nb: Netboot, m: Machine, env: Env)
    requires UpRun(nb, false, m, env).ok
    ensures var h := AfterUp(nb, false, m, env).host;
      && (forall s :: s in Stack(nb) ==> s in h.active && s in h.enabled)
      && (h.handExport || h.exportFile) && h.exported == h.exportFile && (nb.backend.Nftables? ==> h.table)
      && (nb.backend.NoFirewall? || forall r :: r in RequiredPorts(nb) ==>
            r in h.rules || (nb.backend.Ufw? && r.port in h.anyProto))
  {
    CompletedUpServes(nb, false, m, env);
    forall s ensures s in Stack(nb) <==> NeedsService(nb, s) { StackIsNeeds(nb, s); }
    forall r ensures r in RequiredPorts(nb) <==> Needs(nb, r) { PortsAreNeeds(nb, r); }
    hide Stack, RequiredPorts, Needs, NeedsService, AfterUp, UpRun;
  }

  /** A second `up` on a host that is already serving changes neither the host
      nor the record, wherever it stops. */
  lemma UpTwiceChangesNothing(nb: Netboot, base: Host, m: Machine, env: Env, again: Env)
    requires Accounted(nb, base, m) && UpTrue(nb, false, m.host, env)
    requires UpRun(nb, false, m, env).ok && Seen(again) && again(ReadExports)
    ensures var m' := AfterUp(nb, false, m, env); AfterUp(nb, false, m', again) == m'
  {
    UpExact(nb, base, false, m, env);
    ServedAlready(nb, m, env);
    var m' := AfterUp(nb, false, m, env);
    MergePriorExact(Owned(m'.record));
    UpRecordsBackend(nb, m, env);
    hide RequiredPorts, MergePrior, StartServices, OpenPorts, OwnsRules, OwnsNames, UpRun;
    var r0 := Run(m'.host, m'.record.value, m'.record, again(Preflight));
    StartServicesAgain(r0, Stack(nb), again);
    var r2 := ExportModels(StartServices(r0, Stack(nb), again), again);
    assert r2 == r0.(ok := r2.ok);
    var seen := ReadListing(m'.host, again);
    match nb.backend {
      case NoFirewall =>
      case Ufw => OpenPortsAgain(r2, seen, RequiredPorts(nb), again);
      case Nftables => OpenPortsAgain(r2, seen.(anyProto := {}), RequiredPorts(nb), again);
    }
    UpFrom(nb, false, m', again);
  }

  lemma {:induction false} OpenPortsBackend(run: Run, seen: Listing, rules: seq<PortRule>, env: Env)
    ensures OpenPorts(run, seen, rules, env).st.backend == run.st.backend
    decreases |rules|
  {
    hide Token;
    if rules != [] { OpenPortsBackend(OpenPort(run, seen, rules[0], env), seen, rules[1..], env); }
  }

  lemma UpRecordsBackend(nb: Netboot, m: Machine, env: Env)
    requires UpRun(nb, false, m, env).ok
    ensures UpRun(nb, false, m, env).st.backend == BackendName(nb.backend)
    ensures AfterUp(nb, false, m, env).record.Some?
    ensures AfterUp(nb, false, m, env).record.value.backend
      == if nb.backend.Ufw? then "ufw" else if nb.backend.Nftables? then "nftables" else "none"
  {
    hide RequiredPorts, MergePrior, StartServices, OpenPorts;
    var r0 := Run(m.host, MergePrior(NOTHING, Owned(m.record)), m.record, env(Preflight));
    var r2 := ExportModels(StartServices(r0, Stack(nb), env), env);
    var r3 := r2.(st := r2.st.(backend := BackendName(nb.backend)));
    OpenPortsBackend(r3, ReadListing(r3.host, env), RequiredPorts(nb), env);
    var r4 := EnsureTable(r3, env);
    OpenPortsBackend(r4, ReadListing(r4.host, env).(anyProto := {}), RequiredPorts(nb), env);
  }

  // --- The commands themselves ----------------------------------------------

  lemma {:induction false} StoppedStays(run: Run, svcs: seq<string>, seen: Listing, rules: seq<PortRule>, env: Env)
    requires !run.ok
    ensures StartServices(run, svcs, env) == run && OpenPorts(run, seen, rules, env) == run
    decreases |svcs| + |rules|
  {
    if svcs != [] { StoppedStays(run, svcs[1..], seen, rules, env); }
    if rules != [] { StoppedStays(run, svcs, seen, rules[1..], env); }
  }

  class Server {
    var host: Host
    var record: Option<UpState>

    constructor (h: Host, r: Option<UpState>)
      ensures host == h && record == r
    {
      host, record := h, r;
    }

    method Up(nb: Netboot, noFirewall: bool, env: Env) returns (ok: bool)
      modifies this
      ensures Machine(host, record) == AfterUp(nb, noFirewall, old(Machine(host, record)), env)
      ensures ok == UpRun(nb, noFirewall, old(Machine(host, record)), env).ok
    {
      hide MergePrior, OpenPorts;
      var st := MergePrior(NOTHING, Owned(record));
      ghost var r0 := Run(host, st, record, env(Preflight));
      ghost var svcs0 := Stack(nb);
      if !env(Preflight) {
        StoppedStays(r0, svcs0, Listing({}, {}), [], env);
        return false;
      }
      var svcs := Stack(nb);
      var i := 0;
      while i < |svcs|
        invariant 0 <= i <= |svcs|
        invariant StartServices(r0, svcs, env) == StartServices(Run(host, st, record, true), svcs[i..], env)
      {
        var svc := svcs[i];
        ghost var before := Run(host, st, record, true);
        assert svcs[i..][0] == svc && svcs[i..][1..] == svcs[i + 1..];
        if !env(EnableNow(svc)) {
          StoppedStays(StartService(before, svc, env), svcs[i + 1..], Listing({}, {}), [], env);
          return false;
        }
        var wasActive := env(ProbeActive(svc)) && svc in host.active;
        var wasEnabled := env(ProbeEnabled(svc)) && svc in host.enabled;
        host := host.(active := host.active + {svc}, enabled := host.enabled + {svc});
        if !wasActive { st := st.(started := st.started + [svc]); }
        if !wasEnabled { st := st.(enabled := st.enabled + [svc]); }
        if !wasActive || !wasEnabled { record := Some(st); }
        i := i + 1;
      }
      if !env(MkdirModels) { return false; }
      if !(env(ReadExports) && host.handExport) {
        if !env(MkdirExports) || !env(WriteExports) { return false; }
        host := host.(exportFile := true);
        st := st.(exportsFile := true);
        record := Some(st);
      }
      if !env(Exportfs) { return false; }
      host := host.(exported := host.exportFile);
      if !noFirewall {
        st := st.(backend := BackendName(nb.backend));
        ok, st := OpenFirewall(nb, st, env);
        if !ok { return false; }
      }
      record := Some(st);
      return true;
    }

    method OpenFirewall(nb: Netboot, start: UpState, env: Env) returns (ok: bool, st: UpState)
      modifies this
      ensures Run(host, st, record, ok)
           == OpenedFirewall(nb, old(Run(host, start, record, true)), env)
    {
      st := start;
      ghost var before := Run(host, st, record, true);
      if nb.backend.NoFirewall? { return true, st; }
      if nb.backend.Nftables? && !(env(ListTables) && host.table) {
        if !env(NftAddTable) { return false, st; }
        host := host.(table := true);
        if !env(NftAddChain) { return false, st; }
        st := st.(nftTable := true);
        record := Some(st);
      }
      ghost var r0 := Run(host, st, record, true);
      var seen := ReadListing(host, env);
      if nb.backend.Nftables? { seen := seen.(anyProto := {}); }
      var rules := RequiredPorts(nb);
      var i := 0;
      while i < |rules|
        invariant 0 <= i <= |rules|
        invariant OpenPorts(r0, seen, rules, env) == OpenPorts(Run(host, st, record, true), seen, rules[i..], env)
      {
        var r := rules[i];
        assert rules[i..][0] == r && rules[i..][1..] == rules[i + 1..];
        if !Present(seen, r) {
          if !env(AllowRule(r)) {
            StoppedStays(Run(host, st, record, false), [], seen, rules[i + 1..], env);
            return false, st;
          }
          host := host.(rules := host.rules + {r});
          st := st.(fwAdded := st.fwAdded + [Token(r)]);
          record := Some(st);
        }
        i := i + 1;
      }
      return true, st;
    }

    method Down(env: Env)
      modifies this
      ensures Machine(host, record) == AfterDown(old(Machine(host, record)), env)
    {
      hide DownUnrecorded, CloseRecorded, Withdraw, Reverse;
      if record.None? {
        DownConservatively(env);
        return;
      }
      var st := record.value;
      var toks, table := CloseOwnRules(st, env);
      var file := false;
      if st.exportsFile && host.exportFile { file := UndoExport(env); }
      var started := WithdrawServices(Reverse(st.started), true, env);
      var still := WithdrawServices(st.enabled, false, env);
      var residual := UpState(st.backend, toks, table, file, started, still);
      record := if residual.OwnsNothing() then None else Some(residual);
    }

    /** Remove the drop-in and re-read the exports; true if either call fails. */
    method UndoExport(env: Env) returns (failed: bool)
      requires host.exportFile
      modifies this`host
      ensures failed <==> !env(RemoveExports) || !env(Exportfs)
      ensures host == old(host).(exportFile := !env(RemoveExports), exported := old(host).exported && failed)
    {
      if !env(RemoveExports) { return true; }
      host := host.(exportFile := false);
      if !env(Exportfs) { return true; }
      host := host.(exported := false);
      return false;
    }

    /** `down` without a record, up to the first of its checked calls that fails. */
    method DownConservatively(env: Env)
      modifies this`host
      ensures host == DownUnrecorded(old(host), env)
    {
      if env(DisableNow(HTTP_UNIT)) {
        host := host.(active := host.active - {HTTP_UNIT});
        host := host.(enabled := host.enabled - {HTTP_UNIT});
      }
      if host.exportFile {
        var failed := UndoExport(env);
        if failed { return; }
      }
      if host.table && env(ListTables) {
        if !env(NftDeleteTable) { return; }
        host := host.(rules := {}, table := false);
      }
    }

    /** Stop (or disable) each service in turn; returns the ones that would not. */
    method WithdrawServices(todo: seq<string>, stopping: bool, env: Env) returns (kept: seq<string>)
      modifies this`host
      ensures stopping ==> var r := Withdraw(todo, [], old(host).active, s => env(Stop(s)));
        host == old(host).(active := r.0) && kept == r.1
      ensures !stopping ==> var r := Withdraw(todo, [], old(host).enabled, s => env(Disable(s)));
        host == old(host).(enabled := r.0) && kept == r.1
    {
      kept := [];
      var i := 0;
      ghost var works := (s: string) => if stopping then env(Stop(s)) else env(Disable(s));
      WithdrawSame(todo, [], host.active, works, s => env(Stop(s)));
      WithdrawSame(todo, [], host.enabled, works, s => env(Disable(s)));
      ghost var live0 := if stopping then host.active else host.enabled;
      while i < |todo|
        invariant 0 <= i <= |todo|
        invariant host == old(host).(active := if stopping then host.active else old(host).active,
                                     enabled := if stopping then old(host).enabled else host.enabled)
        invariant Withdraw(todo, [], live0, works)
               == Withdraw(todo[i..], kept, if stopping then host.active else host.enabled, works)
      {
        var s := todo[i];
        assert todo[i..][0] == s && todo[i..][1..] == todo[i + 1..];
        if stopping && env(Stop(s)) {
          host := host.(active := host.active - {s});
        } else if !stopping && env(Disable(s)) {
          host := host.(enabled := host.enabled - {s});
        } else {
          kept := kept + [s];
        }
        i := i + 1;
      }
    }

    method CloseOwnRules(st: UpState, env: Env) returns (toks: seq<string>, table: bool)
      modifies this`host
      ensures (host, toks, table) == CloseRecorded(st, old(host), env)
    {
      hide ParseBackend, RemoveFirewall;
      toks, table := [], false;
      var b := ParseBackend(st.backend);
      if b.Some? { toks, table := CloseFirewall(b.value, st, env); }
    }

    /** Remove the recorded rules; returns the tokens and table still owned. */
    method CloseFirewall(b: Backend, st: UpState, env: Env) returns (toks: seq<string>, table: bool)
      modifies this`host
      ensures (host, toks, table) == RemoveFirewall(b, st, old(host), env)
    {
      hide ParseRuleToken;
      toks, table := [], false;
      match b
      case NoFirewall =>
      case Ufw =>
        var i := 0;
        while i < |st.fwAdded|
          invariant 0 <= i <= |st.fwAdded|
          invariant host == old(host).(rules := host.rules)
          invariant CloseRules(st.fwAdded, [], old(host).rules, env)
                 == CloseRules(st.fwAdded[i..], toks, host.rules, env)
        {
          var tok := st.fwAdded[i];
          assert st.fwAdded[i..][0] == tok && st.fwAdded[i..][1..] == st.fwAdded[i + 1..];
          var r := ParseRuleToken(tok);
          if r.Some? && env(DeleteRule(r.value)) {
            host := host.(rules := host.rules - {r.value});
          } else {
            toks := toks + [tok];
          }
          i := i + 1;
        }
      case Nftables =>
        if st.nftTable {
          if env(NftDeleteTable) {
            host := host.(rules := {}, table := false);
          } else {
            toks, table := st.fwAdded, true;
          }
        } else if st.fwAdded != [] {
          if env(NftFlushTable) { host := host.(rules := {}); } else { toks := st.fwAdded; }
        }
    }
  }

  lemma {:induction false} WithdrawSame(
    todo: seq<string>, kept: seq<string>, live: set<string>, f: string -> bool, g: string -> bool)
    ensures (forall s :: f(s) == g(s)) ==> Withdraw(todo, kept, live, f) == Withdraw(todo, kept, live, g)
    decreases |todo|
  {
    if todo != [] && (forall s :: f(s) == g(s)) {
      if f(todo[0]) { WithdrawSame(todo[1..], kept, live - {todo[0]}, f, g); }
      else { WithdrawSame(todo[1..], kept + [todo[0]], live, f, g); }
    }
  }
}
