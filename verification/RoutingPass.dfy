/** One routing pass: every listed provider of every matching route, every target, every outcome counted. */
module RoutingPass {
  import opened Basics
  import opened Text
  import opened ProjectPaths
  import opened Router
  import opened RouteMatching
  import Bridge = BridgeBindingLedger
  import Safety = DeliverySafety

  // ---- asking the owner for a room ----

  // What became of the prompt, as far as the provider is concerned.
  datatype PromptOutcome =
    | CannotPrompt
    | NoPrompt
    | PromptDelivered(account: Option<string>, conversation: Option<string>, message: Option<string>)
    | PromptErrored

  function PromptForRoom(s: Bridge.BridgeState, provider: Provider, path: string, now: Time, o: PromptOutcome)
    : (Bridge.BridgeState, bool)
  {
    if o.CannotPrompt? then (s, true)
    else
      var id := Bridge.ProposalId(provider.id, path);
      var (asked, decision) := Bridge.BeginPrompt(s, id, provider.providerType, now);
      if decision.Err? then (asked, false)
      else if decision.value.Skip? then (asked, true)
      else if o.PromptDelivered? then
        var (done, r) := Bridge.MarkProposal(asked, id, Bridge.PromptSent(o.account, o.conversation, o.message), now);
        (done, r.Ok?)
      else (Bridge.MarkProposal(asked, id, Bridge.MarkPromptFailed, now).0, true)
  }

  method PromptProjectRoom(ledger: Bridge.Ledger, provider: Provider, path: string, now: Time, o: PromptOutcome)
    returns (ok: bool)
    modifies ledger`proposals
    ensures (ledger.State(), ok) == PromptForRoom(old(ledger.State()), provider, path, now, o)
  {
    if o.CannotPrompt? {
      return true;
    }
    var id := Bridge.ProposalId(provider.id, path);
    var decision := ledger.BeginProjectRoomProposalPromptAt(id, provider.providerType, now);
    if decision.Err? {
      return false;
    }
    if decision.value.Skip? {
      return true;
    }
    if o.PromptDelivered? {
      var r := ledger.MarkProposalAt(id, Bridge.PromptSent(o.account, o.conversation, o.message), now);
      return r.Ok?;
    }
    var _ := ledger.MarkProposalAt(id, Bridge.MarkPromptFailed, now);
    ok := true;
  }

  /** All targets of a provider. Without a ledger or a clean folder there is only the static one;
      a bound project is never delivered statically; an unbound one is asked about when the
      provider has no static target. */
  ghost predicate TargetsFound(signal: Signal, provider: Provider, before: Option<Bridge.BridgeState>,
                               after: Option<Bridge.BridgeState>,
                               hasStatic: bool, now: Time, o: PromptOutcome, r: Result<seq<Target>, Failure>)
  {
    if before.None? || Path(signal).None? then after == before && r == Ok([Static])
    else
      var q := Query(before.value, signal, provider, Path(signal).value);
      if q.Rooms() != [] then after == before && IsResolution(q, r)
      else if hasStatic then after == before && r == Ok([Static])
      else
        var (asked, ok) := PromptForRoom(before.value, provider, Path(signal).value, now, o);
        after == Some(asked) && r == if ok then Ok([]) else Err(LedgerFailed)
  }

  ghost function LedgerState(ledger: Bridge.Ledger?): Option<Bridge.BridgeState>
    reads if ledger != null then {ledger} else {}
  {
    if ledger == null then None else Some(ledger.State())
  }

  method DeliveryTargets(signal: Signal, provider: Provider, ledger: Bridge.Ledger?, hasStatic: bool, now: Time,
                         o: PromptOutcome)
    returns (r: Result<seq<Target>, Failure>)
    modifies if ledger != null then {ledger} else {}
    ensures TargetsFound(signal, provider, old(LedgerState(ledger)), LedgerState(ledger), hasStatic, now, o, r)
  {
    if ledger == null || Path(signal).None? {
      return Ok([Static]);
    }
    var path := Path(signal).value;
    var q := Query(ledger.State(), signal, provider, path);
    r := BoundTargets(q);
    if r.Err? {
      return;
    }
    if r.value == [] {
      if !hasStatic {
        var ok := PromptProjectRoom(ledger, provider, path, now, o);
        return if ok then Ok([]) else Err(LedgerFailed);
      }
      r := Ok([Static]);
    }
  }

  // ---- one attempt ----

  datatype Verdict = Delivered | WasSuppressed | Failed(failure: Failure)

  // The world's part in one attempt: the clock, the guard's file, the provider's answer, and the
  // thread that a response surface was created for.
  datatype World = World(now: Time, saved: bool, delivered: bool, surface: Option<Bridge.ThreadInput>)

  // What a pass reads and changes: the bridge ledger and the guard, each if there is one.
  datatype Memory = Memory(ledger: Option<Bridge.BridgeState>, guard: Option<Safety.GuardState>)

  ghost function MemoryOf(ledger: Bridge.Ledger?, guard: Safety.Guard?): Memory
    reads if ledger != null then {ledger} else {}
    reads if guard != null then {guard, guard.file} else {}
  {
    Memory(LedgerState(ledger), if guard == null then None else Some(guard.State()))
  }

  function KeyFor(signal: Signal, provider: Provider, target: Target): Safety.DeliveryKey {
    Safety.DeliveryKey(provider.id, target.TargetId().GetOr(""), signal.fingerprint)
  }

  /** The guard's answer, and its memory afterwards. */
  function Ask(s: Safety.GuardState, signal: Signal, provider: Provider, target: Target, w: World)
    : (Safety.GuardState, Result<Safety.Decision, Safety.GuardError>)
  {
    if target.TargetId().Some? && !PresentAndTrimmed(target.TargetId().value) then (s, Err(Safety.UntrimmedTarget))
    else Safety.Check(s, KeyFor(signal, provider, target), w.now, w.saved)
  }

  /** A delivered message binds its thread to the session that sent it; a refused bind is ignored. */
  function AfterDelivery(s: Bridge.BridgeState, signal: Signal, w: World): Bridge.BridgeState {
    if w.surface.None? || Path(signal).None? then s
    else Bridge.BindThread(s, w.surface.value.(projectPath := Path(signal).value), w.now).0
  }

  function Sent(m: Memory, signal: Signal, w: World): (Memory, Verdict) {
    if !w.delivered then (m, Failed(SendFailed))
    else (if m.ledger.Some? then m.(ledger := Some(AfterDelivery(m.ledger.value, signal, w))) else m, Delivered)
  }

  /** Without a guard every attempt is sent; with one, exactly the allowed attempts are. */
  function Attempt(m: Memory, signal: Signal, provider: Provider, target: Target, w: World): (Memory, Verdict) {
    if m.guard.None? then Sent(m, signal, w)
    else
      var (asked, answer) := Ask(m.guard.value, signal, provider, target, w);
      var m1 := m.(guard := Some(asked));
      match answer
      case Err(_) => (m1, Failed(GuardFailed))
      case Ok(Suppress(_, _, _, _, _, _)) => (m1, WasSuppressed)
      case Ok(Allow(_)) => Sent(m1, signal, w)
  }

  method BindDelivered(ledger: Bridge.Ledger, signal: Signal, w: World)
    modifies ledger
    ensures ledger.State() == AfterDelivery(old(ledger.State()), signal, w)
  {
    if w.surface.Some? && Path(signal).Some? {
      var _ := ledger.BindThreadSessionAt(w.surface.value.(projectPath := Path(signal).value), w.now);
    }
  }

  method AttemptDelivery(signal: Signal, provider: Provider, target: Target, ledger: Bridge.Ledger?,
                         guard: Safety.Guard?, w: World)
    returns (v: Verdict)
    modifies if ledger != null then {ledger} else {}
    modifies if guard != null then {guard, guard.file} else {}
    ensures (MemoryOf(ledger, guard), v) == Attempt(old(MemoryOf(ledger, guard)), signal, provider, target, w)
  {
    if guard != null {
      var answer: Result<Safety.Decision, Safety.GuardError>;
      if target.TargetId().Some? {
        answer := guard.CheckForProviderTarget(provider.id, target.TargetId().value, signal.fingerprint, w.now,
                                               w.saved);
      } else {
        answer := guard.CheckAt(KeyFor(signal, provider, target), w.now, w.saved);
      }
      match answer {
        case Err(_) => return Failed(GuardFailed);
        case Ok(Suppress(_, _, _, _, _, _)) => return WasSuppressed;
        case Ok(Allow(_)) =>
      }
    }
    if !w.delivered {
      return Failed(SendFailed);
    }
    if ledger != null {
      BindDelivered(ledger, signal, w);
    }
    v := Delivered;
  }

  // ---- counting ----

  // The running counters of a pass.
  datatype Tally = Tally(attempted: nat, succeeded: nat, suppressed: nat, failures: seq<Failure>)

  const NOTHING_YET := Tally(0, 0, 0, [])

  function Counted(t: Tally, v: Verdict): Tally {
    var t1 := t.(attempted := t.attempted + 1);
    match v
    case Delivered => t1.(succeeded := t.succeeded + 1)
    case WasSuppressed => t1.(suppressed := t.suppressed + 1)
    case Failed(f) => t1.(failures := t.failures + [f])
  }

  method CountAttempt(start: Tally, v: Verdict) returns (t: Tally)
    ensures t == Counted(start, v)
  {
    t := start.(attempted := start.attempted + 1);
    match v {
      case Delivered => t := t.(succeeded := t.succeeded + 1);
      case WasSuppressed => t := t.(suppressed := t.suppressed + 1);
      case Failed(f) => t := t.(failures := t.failures + [f]);
    }
  }

  function CountAll(t: Tally, verdicts: seq<Verdict>): Tally {
    if verdicts == [] then t else Counted(CountAll(t, verdicts[..|verdicts| - 1]), verdicts[|verdicts| - 1])
  }

  lemma CountAllSnoc(t: Tally, verdicts: seq<Verdict>, v: Verdict)
    ensures CountAll(t, verdicts + [v]) == Counted(CountAll(t, verdicts), v)
  {
    assert (verdicts + [v])[..|verdicts|] == verdicts;
  }

  // What one listed provider contributed: one failure, or its targets and the verdicts on them.
  datatype Visit =
    | Unresolved(providerId: string, failure: Failure)
    | Visited(providerId: string, targets: seq<Target>, verdicts: seq<Verdict>)

  function CountVisit(t: Tally, v: Visit): Tally {
    match v
    case Unresolved(_, f) => t.(failures := t.failures + [f])
    case Visited(_, _, verdicts) => CountAll(t, verdicts)
  }

  function TallyOf(log: seq<Visit>): Tally {
    if log == [] then NOTHING_YET else CountVisit(TallyOf(log[..|log| - 1]), log[|log| - 1])
  }

  function Visitors(log: seq<Visit>): seq<string> {
    seq(|log|, i requires 0 <= i < |log| => log[i].providerId)
  }

  // ---- the innermost loop ----

  // The targets of one provider, tried from attempt number `first` of the pass on.
  datatype Batch = Batch(signal: Signal, provider: Provider, targets: seq<Target>, world: nat -> World, first: nat) {
    function Next(before: Memory, n: nat): (Memory, Verdict)
      requires n < |targets|
    {
      Attempt(before, signal, provider, targets[n], world(first + n))
    }

    /** The first `n` targets, each tried with what the attempts before it left behind. */
    function Run(m: Memory, n: nat): (Memory, seq<Verdict>)
      requires n <= |targets|
    {
      if n == 0 then (m, [])
      else
        var (before, verdicts) := Run(m, n - 1);
        var (after, v) := Next(before, n - 1);
        (after, verdicts + [v])
    }

    lemma RunNext(m: Memory, n: nat)
      requires n < |targets|
      ensures var (before, verdicts) := Run(m, n); var (after, v) := Next(before, n);
        Run(m, n + 1) == (after, verdicts + [v])
    {
    }
  }

  /** One more target. */
  method AttemptNext(ghost batch: Batch, ghost i: nat, signal: Signal, provider: Provider, target: Target,
                     ledger: Bridge.Ledger?, guard: Safety.Guard?, w: World)
    returns (v: Verdict)
    requires i < |batch.targets| && batch.signal == signal && batch.provider == provider
    requires batch.targets[i] == target && batch.world(batch.first + i) == w
    modifies if ledger != null then {ledger} else {}
    modifies if guard != null then {guard, guard.file} else {}
    ensures (MemoryOf(ledger, guard), v) == batch.Next(old(MemoryOf(ledger, guard)), i)
  {
    v := AttemptDelivery(signal, provider, target, ledger, guard, w);
  }

  /** Every target of one provider is tried once and counted once. */
  method AttemptAll(signal: Signal, provider: Provider, targets: seq<Target>, ledger: Bridge.Ledger?,
                    guard: Safety.Guard?,
                    world: nat -> World, start: Tally)
    returns (t: Tally, ghost verdicts: seq<Verdict>)
    modifies if ledger != null then {ledger} else {}
    modifies if guard != null then {guard, guard.file} else {}
    ensures (MemoryOf(ledger, guard), verdicts)
      == Batch(signal, provider, targets, world, start.attempted).Run(old(MemoryOf(ledger, guard)), |targets|)
    ensures t == CountAll(start, verdicts)
  {
    ghost var batch, m := Batch(signal, provider, targets, world, start.attempted), MemoryOf(ledger, guard);
    t, verdicts := start, [];
    var i := 0;
    while i < |targets|
      invariant i <= |targets| && |verdicts| == i
      invariant (MemoryOf(ledger, guard), verdicts) == batch.Run(m, i)
      invariant t == CountAll(start, verdicts) && t.attempted == start.attempted + i
    {
      var v := AttemptNext(batch, i, signal, provider, targets[i], ledger, guard, world(t.attempted));
      t := CountAttempt(t, v);
      CountAllSnoc(start, verdicts, v);
      batch.RunNext(m, i);
      verdicts := verdicts + [v];
      i := i + 1;
    }
  }

  // ---- the pass ----

  // The visits of a pass, and the memory before the first and after each of them.
  datatype Trace = Trace(log: seq<Visit>, memories: seq<Memory>) {
    predicate Sized() {
      |memories| == |log| + 1
    }

    function Last(): Memory
      requires Sized()
    {
      memories[|log|]
    }
  }

  /**
   A pass. `registered` are the provider adapters; `world` and `prompts` stand for what the
   outside does at the n-th attempt and at the n-th visit of a provider.
   */
  datatype Pass = Pass(signal: Signal, registered: map<string, Provider>, hasStatic: string -> bool,
                       world: nat -> World, prompts: nat -> PromptOutcome) {
    ghost predicate Finds(n: nat, attempted: nat, id: string, before: Memory, after: Memory,
                          r: Result<seq<Target>, Failure>)
      requires id in registered
    {
      && after.guard == before.guard
      && TargetsFound(signal, registered[id], before.ledger, after.ledger, hasStatic(id), world(attempted).now,
                      prompts(n), r)
    }

    function BatchFor(id: string, targets: seq<Target>, attempted: nat): Batch
      requires id in registered
    {
      Batch(signal, registered[id], targets, world, attempted)
    }

    /** The n-th visit, made after `attempted` attempts, turns `before` into `after`: a missing adapter
        or a failed resolution is one failure, otherwise every target found is tried in turn. */
    ghost predicate Fits(n: nat, attempted: nat, before: Memory, after: Memory, visit: Visit) {
      match visit
      case Unresolved(id, f) =>
        if id !in registered then after == before && f == MissingProvider
        else Finds(n, attempted, id, before, after, Err(f))
      case Visited(id, targets, verdicts) =>
        && id in registered
        && exists found :: Finds(n, attempted, id, before, found, Ok(targets))
             && (after, verdicts) == BatchFor(id, targets, attempted).Run(found, |targets|)
    }

    /** The memory after the targets of a registered provider were looked for, and what was found. */
    lemma FoundIn(n: nat, attempted: nat, before: Memory, after: Memory, visit: Visit)
      returns (found: Memory, r: Result<seq<Target>, Failure>)
      requires Fits(n, attempted, before, after, visit) && visit.providerId in registered
      ensures Finds(n, attempted, visit.providerId, before, found, r)
      ensures r == if visit.Unresolved? then Err(visit.failure) else Ok(visit.targets)
      ensures visit.Unresolved? ==> after == found
      ensures visit.Visited? ==>
        (after, visit.verdicts) == BatchFor(visit.providerId, visit.targets, attempted).Run(found, |visit.targets|)
    {
      if visit.Unresolved? {
        found, r := after, Err(visit.failure);
      } else {
        r := Ok(visit.targets);
        found :| Finds(n, attempted, visit.providerId, before, found, r)
          && (after, visit.verdicts)
            == BatchFor(visit.providerId, visit.targets, attempted).Run(found, |visit.targets|);
      }
    }

    ghost predicate StepFits(tr: Trace, n: nat)
      requires tr.Sized() && n < |tr.log|
    {
      Fits(n, TallyOf(tr.log[..n]).attempted, tr.memories[n], tr.memories[n + 1], tr.log[n])
    }

    ghost predicate Follows(tr: Trace) {
      tr.Sized() && forall n :: 0 <= n < |tr.log| ==> StepFits(tr, n)
    }
  }

  lemma FollowsOn(p: Pass, tr: Trace, visit: Visit, after: Memory)
    requires p.Follows(tr)
    requires p.Fits(|tr.log|, TallyOf(tr.log).attempted, tr.Last(), after, visit)
    ensures var longer := Trace(tr.log + [visit], tr.memories + [after]);
      && p.Follows(longer)
      && Visitors(longer.log) == Visitors(tr.log) + [visit.providerId]
      && TallyOf(longer.log) == CountVisit(TallyOf(tr.log), visit)
  {
    var longer := Trace(tr.log + [visit], tr.memories + [after]);
    assert longer.log[..|tr.log|] == tr.log;
    forall n | 0 <= n < |longer.log|
      ensures p.StepFits(longer, n)
    {
      if n < |tr.log| {
        assert p.StepFits(tr, n);
        assert longer.log[..n] == tr.log[..n];
      }
    }
  }

  /** One listed provider. */
  method VisitProvider(p: Pass, id: string, n: nat, ledger: Bridge.Ledger?, guard: Safety.Guard?, start: Tally)
    returns (t: Tally, ghost visit: Visit)
    modifies if ledger != null then {ledger} else {}
    modifies if guard != null then {guard, guard.file} else {}
    ensures p.Fits(n, start.attempted, old(MemoryOf(ledger, guard)), MemoryOf(ledger, guard), visit)
    ensures t == CountVisit(start, visit) && visit.providerId == id
  {
    if id !in p.registered {
      visit := Unresolved(id, MissingProvider);
      t := start.(failures := start.failures + [MissingProvider]);
      return;
    }
    var targets :=
      DeliveryTargets(p.signal, p.registered[id], ledger, p.hasStatic(id), p.world(start.attempted).now, p.prompts(n));
    ghost var found := MemoryOf(ledger, guard);
    assert p.Finds(n, start.attempted, id, old(MemoryOf(ledger, guard)), found, targets);
    if targets.Err? {
      visit := Unresolved(id, targets.error);
      t := start.(failures := start.failures + [targets.error]);
      return;
    }
    ghost var verdicts;
    t, verdicts := AttemptAll(p.signal, p.registered[id], targets.value, ledger, guard, p.world, start);
    visit := Visited(id, targets.value, verdicts);
  }

  /** One more visit continues the trace. */
  method VisitNext(p: Pass, id: string, visited: nat, ledger: Bridge.Ledger?, guard: Safety.Guard?, start: Tally,
                   ghost tr: Trace)
    returns (t: Tally, ghost longer: Trace)
    requires p.Follows(tr) && tr.Last() == MemoryOf(ledger, guard) && start == TallyOf(tr.log) && visited == |tr.log|
    modifies if ledger != null then {ledger} else {}
    modifies if guard != null then {guard, guard.file} else {}
    ensures p.Follows(longer) && longer.Last() == MemoryOf(ledger, guard) && t == TallyOf(longer.log)
    ensures tr.memories <= longer.memories && |longer.log| == visited + 1
    ensures Visitors(longer.log) == Visitors(tr.log) + [id]
  {
    ghost var visit;
    t, visit := VisitProvider(p, id, visited, ledger, guard, start);
    FollowsOn(p, tr, visit, MemoryOf(ledger, guard));
    longer := Trace(tr.log + [visit], tr.memories + [MemoryOf(ledger, guard)]);
  }

  /** The providers of one matching route. */
  method VisitRoute(p: Pass, providers: seq<string>, visited: nat, ledger: Bridge.Ledger?, guard: Safety.Guard?,
                    start: Tally, ghost tr: Trace)
    returns (t: Tally, ghost longer: Trace)
    requires p.Follows(tr) && tr.Last() == MemoryOf(ledger, guard) && start == TallyOf(tr.log) && visited == |tr.log|
    modifies if ledger != null then {ledger} else {}
    modifies if guard != null then {guard, guard.file} else {}
    ensures p.Follows(longer) && longer.Last() == MemoryOf(ledger, guard) && t == TallyOf(longer.log)
    ensures tr.memories <= longer.memories && |longer.log| == visited + |providers|
    ensures Visitors(longer.log) == Visitors(tr.log) + providers
  {
    t, longer := start, tr;
    var j := 0;
    while j < |providers|
      invariant j <= |providers|
      invariant p.Follows(longer) && longer.Last() == MemoryOf(ledger, guard) && t == TallyOf(longer.log)
      invariant tr.memories <= longer.memories && |longer.log| == visited + j
      invariant Visitors(longer.log) == Visitors(tr.log) + providers[..j]
    {
      t, longer := VisitNext(p, providers[j], visited + j, ledger, guard, t, longer);
      assert providers[..j + 1] == providers[..j] + [providers[j]];
      j := j + 1;
    }
    assert providers[..j] == providers;
  }

  datatype Report = Report(matchedRoutes: nat, attempted: nat, succeeded: nat, suppressed: nat)

  /** The outer loop: one matching route after the other. */
  method VisitAll(p: Pass, matching: seq<RouteConfig>, ledger: Bridge.Ledger?, guard: Safety.Guard?)
    returns (t: Tally, ghost tr: Trace)
    modifies if ledger != null then {ledger} else {}
    modifies if guard != null then {guard, guard.file} else {}
    ensures p.Follows(tr) && tr.memories[0] == old(MemoryOf(ledger, guard)) && tr.Last() == MemoryOf(ledger, guard)
    ensures t == TallyOf(tr.log) && Visitors(tr.log) == Flattened(matching)
  {
    var visited := 0;
    t, tr := NOTHING_YET, Trace([], [MemoryOf(ledger, guard)]);
    var i := 0;
    while i < |matching|
      invariant i <= |matching|
      invariant p.Follows(tr) && tr.Last() == MemoryOf(ledger, guard) && tr.memories[0] == old(MemoryOf(ledger, guard))
      invariant t == TallyOf(tr.log) && visited == |tr.log|
      invariant Visitors(tr.log) == Flattened(matching[..i])
    {
      t, tr := VisitRoute(p, matching[i].providers, visited, ledger, guard, t, tr);
      visited := visited + |matching[i].providers|;
      FlattenedNext(matching, i);
      i := i + 1;
    }
    assert matching[..i] == matching;
  }

  /** A whole pass: every listed provider of every matching route is visited once, in order, each on
      what the visits before it left, and the report or the failures are those of the visits. */
  method Route(p: Pass, routes: seq<RouteConfig>, ledger: Bridge.Ledger?, guard: Safety.Guard?)
    returns (r: Result<Report, seq<Failure>>, ghost tr: Trace)
    modifies if ledger != null then {ledger} else {}
    modifies if guard != null then {guard, guard.file} else {}
    ensures p.Follows(tr) && tr.memories[0] == old(MemoryOf(ledger, guard)) && tr.Last() == MemoryOf(ledger, guard)
    ensures Visitors(tr.log) == Listed(p.signal, routes)
    ensures forall id :: id in Visitors(tr.log) <==> ListedByAdmitting(p.signal, routes, id)
    ensures r.Ok? ==> r.value.matchedRoutes == |AdmittingRoutes(p.signal, routes)|
    ensures var t := TallyOf(tr.log);
      r == if t.failures == []
        then Ok(Report(|MatchingRoutes(p.signal, routes)|, t.attempted, t.succeeded, t.suppressed))
           else Err(t.failures)
  {
    var matching := MatchingRoutes(p.signal, routes);
    ListedIsFlattened(p.signal, routes);
    RoutesAreAdmitting(p.signal, routes);
    var t;
    t, tr := VisitAll(p, matching, ledger, guard);
    r := if t.failures == [] then Ok(Report(|matching|, t.attempted, t.succeeded, t.suppressed)) else Err(t.failures);
  }
}
