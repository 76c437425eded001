/** What a whole routing pass guarantees: every attempt is accounted for, every conversation is
 covered once, and no conversation gets one message too often. */
module RoutingRuns {
  import opened Basics
  import opened Deduplication
  import opened Router
  import opened RoutingPass
  import opened TargetResolution
  import opened PassLedger
  import opened Text
  import opened ProjectPaths
  import Bridge = BridgeBindingLedger
  import Safety = DeliverySafety
  import SafetyRuns = DeliverySafetyRuns

  // ---- conservation ----

  function FailuresIn(verdicts: seq<Verdict>): seq<Failure> {
    if verdicts == [] then []
    else
      var last := verdicts[|verdicts| - 1];
      FailuresIn(verdicts[..|verdicts| - 1]) + (if last.Failed? then [last.failure] else [])
  }

  lemma SnocCounts<T>(front: seq<T>, last: T, x: T)
    ensures multiset(front + [last])[x] == multiset(front)[x] + if last == x then 1 else 0
  {
  }

  /** Each counter counts its own kind of verdict, and every verdict is counted. */
  lemma {:induction false} VerdictsAreCounted(t: Tally, verdicts: seq<Verdict>)
    ensures var u := CountAll(t, verdicts);
      && u.attempted == t.attempted + |verdicts|
      && u.succeeded == t.succeeded + multiset(verdicts)[Delivered]
      && u.suppressed == t.suppressed + multiset(verdicts)[WasSuppressed]
      && u.failures == t.failures + FailuresIn(verdicts)
      && |verdicts| == multiset(verdicts)[Delivered] + multiset(verdicts)[WasSuppressed] + |FailuresIn(verdicts)|
  {
    if verdicts == [] {
    } else {
      var front, last := verdicts[..|verdicts| - 1], verdicts[|verdicts| - 1];
      VerdictsAreCounted(t, front);
      assert verdicts == front + [last];
      SnocCounts(front, last, Delivered);
      SnocCounts(front, last, WasSuppressed);
    }
  }

  function Unresolveds(log: seq<Visit>): nat {
    if log == [] then 0 else Unresolveds(log[..|log| - 1]) + (if log[|log| - 1].Unresolved? then 1 else 0)
  }

  /** Conservation: every attempt is a success, a suppression or one failure, and every provider
      that could not be resolved is one failure more. */
  lemma {:induction false} AttemptsAreConserved(log: seq<Visit>)
    ensures var t := TallyOf(log);
      t.attempted + Unresolveds(log) == t.succeeded + t.suppressed + |t.failures|
  {
    if log == [] {
    } else {
      var rest, last := log[..|log| - 1], log[|log| - 1];
      AttemptsAreConserved(rest);
      if last.Visited? {
        VerdictsAreCounted(TallyOf(rest), last.verdicts);
      }
    }
  }

  lemma {:induction false} UnresolvedsAreFailures(log: seq<Visit>)
    ensures Unresolveds(log) <= |TallyOf(log).failures|
    ensures (exists v :: v in log && v.Unresolved?) ==> Unresolveds(log) > 0
  {
    if log == [] {
    } else {
      var rest, last := log[..|log| - 1], log[|log| - 1];
      UnresolvedsAreFailures(rest);
      if last.Visited? {
        VerdictsAreCounted(TallyOf(rest), last.verdicts);
      }
      assert forall v :: v in log <==> v in rest || v == last;
    }
  }

  /** A pass without failures resolved every listed provider, and its report accounts for every attempt. */
  lemma SuccessfulReportIsComplete(log: seq<Visit>)
    requires TallyOf(log).failures == []
    ensures var t := TallyOf(log); t.attempted == t.succeeded + t.suppressed
    ensures forall v :: v in log ==> v.Visited?
  {
    AttemptsAreConserved(log);
    UnresolvedsAreFailures(log);
  }

  // ---- every conversation once ----

  /** What the given ledger says about a provider for the signal of the pass. */
  ghost function QueryFor(p: Pass, m: Memory, id: string): Query
    requires m.ledger.Some? && id in p.registered && Path(p.signal).Some?
  {
    Query(m.ledger.value, p.signal, p.registered[id], Path(p.signal).value)
  }

  /** The verdicts of a visit are one each for targets that cover every pair of the rooms exactly once. */
  ghost predicate CoversConversations(q: Query, visit: Visit)
    requires visit.Visited?
  {
    && IsOnePerPair(q, visit.targets)
    && |visit.verdicts| == |visit.targets|
    && Static !in visit.targets
  }

  /** A resolved visit to a provider with rooms tries the targets of a resolution, each once. */
  lemma VisitTriesResolution(p: Pass, tr: Trace, n: nat)
    requires p.Follows(tr) && n < |tr.log| && tr.log[n].Visited? && tr.log[n].providerId in p.registered
    requires tr.memories[n].ledger.Some? && Path(p.signal).Some?
    requires QueryFor(p, tr.memories[n], tr.log[n].providerId).Rooms() != []
    ensures IsResolution(QueryFor(p, tr.memories[n], tr.log[n].providerId), Ok(tr.log[n].targets))
    ensures |tr.log[n].verdicts| == |tr.log[n].targets|
  {
    assert p.StepFits(tr, n);
    var visit, attempted := tr.log[n], TallyOf(tr.log[..n]).attempted;
    var found, r := p.FoundIn(n, attempted, tr.memories[n], tr.memories[n + 1], visit);
    RunLength(p.BatchFor(visit.providerId, visit.targets, attempted), found, |visit.targets|);
  }

  /** Whatever the visits before it did, a resolved visit to a provider with rooms tries as many targets
      as there are (account, conversation) pairs of the rooms that were bound when the pass began if and
      only if the delivery keys tell those pairs apart, and then exactly one for every pair. Ids without
      line breaks in the rooms bound at the start are enough for that. */
  lemma VisitCoversConversations(p: Pass, tr: Trace, n: nat)
    requires p.Follows(tr) && n < |tr.log| && tr.log[n].Visited? && tr.log[n].providerId in p.registered
    requires tr.memories[0].ledger.Some? && Path(p.signal).Some?
    requires QueryFor(p, tr.memories[0], tr.log[n].providerId).Rooms() != []
    ensures tr.memories[n].ledger.Some?
    ensures var id := tr.log[n].providerId;
      var start, q := QueryFor(p, tr.memories[0], id), QueryFor(p, tr.memories[n], id);
      && q.Rooms() == start.Rooms() && q.Pairs() == start.Pairs()
      && (|tr.log[n].targets| == |set c | c in start.Pairs()| <==> KeysTellPairsApart(q))
      && (KeysTellPairsApart(q) ==> CoversConversations(q, tr.log[n]))
      && ((forall r :: r in start.Rooms() ==> LineFree(r.key.room)) ==> KeysTellPairsApart(q))
  {
    PassKeepsRooms(p, tr, n);
    var id := tr.log[n].providerId;
    var q := QueryFor(p, tr.memories[n], id);
    SameRoomsSameQuestion(QueryFor(p, tr.memories[0], id), q);
    VisitTriesResolution(p, tr, n);
    OneTargetPerConversation(q, Ok(tr.log[n].targets));
    if forall r :: r in q.Rooms() ==> LineFree(r.key.room) {
      LineFreeRoomsAreToldApart(q);
    }
  }

  lemma SameRoomsSameQuestion(a: Query, b: Query)
    requires a.state.rooms == b.state.rooms && a.provider == b.provider && a.path == b.path
    ensures a.Rooms() == b.Rooms() && a.Pairs() == b.Pairs()
  {
  }

  lemma {:induction false} RunLength(b: Batch, m: Memory, n: nat)
    requires n <= |b.targets|
    ensures |b.Run(m, n).1| == n
  {
    if n == 0 {
    } else {
      RunLength(b, m, n - 1);
    }
  }

  // ---- one attempt, and the targets of one visit ----

  /** The key is about this message, this provider and this target; a static target has no name. */
  predicate IsKeyOf(k: Safety.DeliveryKey, signal: Signal, provider: Provider, target: Target) {
    && k.providerId == provider.id && k.fingerprint == signal.fingerprint
    && k.targetId == match target
                     case Static => ""
                     case Conversation(id) => id
                     case ProviderThread(_, _, id) => id
  }

  /** A message goes out only if the guard, asked about exactly this target, allows it; the guard's other
      answers are a suppression or a failure, and then nothing else happens. */
  lemma AttemptObeysGuard(m: Memory, signal: Signal, provider: Provider, target: Target, w: World,
                          k: Safety.DeliveryKey)
    requires m.guard.Some? && IsKeyOf(k, signal, provider, target)
    ensures var (after, v) := Attempt(m, signal, provider, target, w);
      var (asked, answer) := Safety.Check(m.guard.value, k, w.now, w.saved);
      if !target.Static? && (k.targetId == "" || Trim(k.targetId) != k.targetId) then
        after == m && v == Failed(GuardFailed)
      else
        && after.guard == Some(asked)
        && (answer.Err? ==> v == Failed(GuardFailed))
        && (answer.Ok? && answer.value.Suppress? ==> v == WasSuppressed)
        && (answer.Ok? && answer.value.Allow? ==> v == if w.delivered then Delivered else Failed(SendFailed))
  {
    TrimFixpoint(k.targetId);
  }

  /** Without a guard everything is sent. */
  lemma AttemptWithoutGuard(m: Memory, signal: Signal, provider: Provider, target: Target, w: World)
    requires m.guard.None?
    ensures var (after, v) := Attempt(m, signal, provider, target, w);
      after.guard.None? && v == if w.delivered then Delivered else Failed(SendFailed)
  {
  }

  /** Only a delivered message binds a thread, namely the one its surface was created in, to the folder of
      the signal. */
  lemma OnlyDeliveryBinds(m: Memory, signal: Signal, provider: Provider, target: Target, w: World)
    ensures var (after, v) := Attempt(m, signal, provider, target, w);
      if v == Delivered && m.ledger.Some? && w.surface.Some?
         && signal.projectPath.Some? && IsCleanAbsolute(signal.projectPath.value) then
        var t := w.surface.value;
        after.ledger == Some(Bridge.BindThread(m.ledger.value,
          Bridge.ThreadInput(t.key, signal.projectPath.value, t.source, t.routeHash), w.now).0)
      else after.ledger == m.ledger
  {
    if w.surface.Some? {
      var t := w.surface.value;
      assert signal.projectPath.Some? ==>
        t.(projectPath := signal.projectPath.value)
          == Bridge.ThreadInput(t.key, signal.projectPath.value, t.source, t.routeHash);
    }
  }

  /** A registered provider without rooms for the folder is served statically if it can be, and is not
      served at all otherwise; without a ledger or a clean folder it is always served statically. */
  lemma UnboundIsStaticOrSkipped(p: Pass, tr: Trace, n: nat)
    requires p.Follows(tr) && n < |tr.log| && tr.log[n].Visited?
    ensures tr.log[n].providerId in p.registered
    ensures var s, path := tr.memories[n].ledger, p.signal.projectPath;
      if s.None? || path.None? || !IsCleanAbsolute(path.value) then tr.log[n].targets == [Static]
      else
        QueryFor(p, tr.memories[n], tr.log[n].providerId).Rooms() == [] ==>
          tr.log[n].targets == if p.hasStatic(tr.log[n].providerId) then [Static] else []
  {
    assert p.StepFits(tr, n);
    var found, r := p.FoundIn(n, TallyOf(tr.log[..n]).attempted, tr.memories[n], tr.memories[n + 1], tr.log[n]);
  }

  /** A provider without an adapter is one failure and no attempt. */
  lemma UnregisteredIsMissing(p: Pass, tr: Trace, n: nat)
    requires p.Follows(tr) && n < |tr.log| && tr.log[n].providerId !in p.registered
    ensures tr.log[n] == Unresolved(tr.log[n].providerId, MissingProvider) && tr.memories[n + 1] == tr.memories[n]
  {
    assert p.StepFits(tr, n);
  }

  // ---- the rate bound reaches the deliveries ----

  function LastState(r: SafetyRuns.Run): Safety.GuardState
    requires |r.states| > 0
  {
    r.states[|r.states| - 1]
  }

  ghost predicate ClockRunsForward(world: nat -> World) {
    forall i: nat, j: nat :: i <= j ==> world(i).now <= world(j).now
  }

  /** Verdict `n` of a batch: the message went out to the target of the key, in the interval. */
  predicate Delivers(b: Batch, n: nat, v: Verdict, k: Safety.DeliveryKey, from: Time, to: Time) {
    v == Delivered && n < |b.targets| && IsKeyOf(k, b.signal, b.provider, b.targets[n])
      && from <= b.world(b.first + n).now <= to
  }

  function Deliveries(b: Batch, verdicts: seq<Verdict>, k: Safety.DeliveryKey, from: Time, to: Time): nat {
    if verdicts == [] then 0
    else
      var n := |verdicts| - 1;
      Deliveries(b, verdicts[..n], k, from, to) + (if Delivers(b, n, verdicts[n], k, from, to) then 1 else 0)
  }

  /** Deliveries during the first `n` visits of a pass. */
  function DeliveriesInPass(p: Pass, log: seq<Visit>, n: nat, k: Safety.DeliveryKey, from: Time, to: Time): nat
    requires n <= |log|
  {
    if n == 0 then 0
    else
      var visit := log[n - 1];
      DeliveriesInPass(p, log, n - 1, k, from, to)
      + if visit.Visited? && visit.providerId in p.registered then
          Deliveries(p.BatchFor(visit.providerId, visit.targets, TallyOf(log[..n - 1]).attempted), visit.verdicts, k,
                     from, to)
        else 0
  }

  ghost predicate NotAfter(r: SafetyRuns.Run, now: Time) {
    forall c :: 0 <= c < |r.calls| && r.calls[c].CheckCall? ==> r.calls[c].now <= now
  }

  lemma ExtendByCheck(r: SafetyRuns.Run, k: Safety.DeliveryKey, now: Time, saved: bool) returns (r2: SafetyRuns.Run)
    requires r.Valid() && NotAfter(r, now)
    ensures r2.Valid() && r2.calls == r.calls + [SafetyRuns.CheckCall(k, now, saved)] && r.states <= r2.states
      && r.answers <= r2.answers
    ensures LastState(r2) == Safety.Check(LastState(r), k, now, saved).0
    ensures r2.answers[|r.calls|] == Safety.Check(LastState(r), k, now, saved).1
    ensures NotAfter(r2, now)
  {
    var call := SafetyRuns.CheckCall(k, now, saved);
    var answer := Safety.Check(LastState(r), k, now, saved).1;
    r2 := SafetyRuns.Run(r.states + [SafetyRuns.Step(LastState(r), call)], r.calls + [call], r.answers + [answer]);
    forall c | 0 <= c < |r2.calls|
      ensures r2.Moved(c)
    {
      if c < |r.calls| {
        assert r.Moved(c);
      }
    }
  }

  lemma {:induction false} AllowsInPrefix(r1: SafetyRuns.Run, r2: SafetyRuns.Run, i: nat, n: nat,
                                          k: Safety.DeliveryKey, from: Time, to: Time)
    requires r1.Valid() && r2.Valid() && r1.calls <= r2.calls && r1.answers <= r2.answers
    requires i <= n <= |r1.calls|
    ensures SafetyRuns.AllowsIn(r2, i, n, k, from, to) == SafetyRuns.AllowsIn(r1, i, n, k, from, to)
  {
    if n == i {
    } else {
      AllowsInPrefix(r1, r2, i, n - 1, k, from, to);
      assert r1.calls[n - 1] == r2.calls[n - 1] && r1.answers[n - 1] == r2.answers[n - 1];
    }
  }

  /** A run of the guard that ends in the given memory, not later than `now`, without an interruption since `i`. */
  ghost predicate Reaches(r: SafetyRuns.Run, i: nat, guard: Option<Safety.GuardState>, now: Time) {
    && r.Valid() && NotAfter(r, now) && guard == Some(LastState(r))
    && i <= |r.calls| && SafetyRuns.Uninterrupted(r, i, |r.calls|)
  }

  /** A run that reaches the given memory, with at least `gained` more allowed checks than `r`. */
  ghost predicate Extends(r: SafetyRuns.Run, i: nat, r2: SafetyRuns.Run, guard: Option<Safety.GuardState>, now: Time,
                          k: Safety.DeliveryKey, from: Time, to: Time, gained: nat)
    requires r.Valid() && i <= |r.calls|
  {
    && Reaches(r2, i, guard, now)
    && SafetyRuns.AllowsIn(r2, i, |r2.calls|, k, from, to) >= SafetyRuns.AllowsIn(r, i, |r.calls|, k, from, to) + gained
  }

  lemma ExtendsFurther(r: SafetyRuns.Run, i: nat, r1: SafetyRuns.Run, mid: Option<Safety.GuardState>, midTime: Time,
                       first: nat,
                       r2: SafetyRuns.Run, guard: Option<Safety.GuardState>, now: Time, second: nat, later: Time,
                       k: Safety.DeliveryKey, from: Time, to: Time)
    requires r.Valid() && i <= |r.calls| && now <= later
    requires Extends(r, i, r1, mid, midTime, k, from, to, first)
    requires Extends(r1, i, r2, guard, now, k, from, to, second)
    ensures Extends(r, i, r2, guard, later, k, from, to, first + second)
  {
  }

  lemma CheckExtends(r: SafetyRuns.Run, i: nat, checked: Safety.DeliveryKey, now: Time, saved: bool,
                     k: Safety.DeliveryKey, from: Time, to: Time)
    returns (r2: SafetyRuns.Run)
    requires r.Valid() && NotAfter(r, now) && i <= |r.calls| && SafetyRuns.Uninterrupted(r, i, |r.calls|)
    ensures var (after, answer) := Safety.Check(LastState(r), checked, now, saved);
      Extends(r, i, r2, Some(after), now, k, from, to,
              if answer == Ok(Safety.Allow(k)) && checked == k && from <= now <= to then 1 else 0)
  {
    r2 := ExtendByCheck(r, checked, now, saved);
    AllowsInPrefix(r, r2, i, |r.calls|, k, from, to);
  }

  /** One attempt extends the guard's run by at most one check, and a delivery is an allowed check. */
  lemma AttemptExtendsRun(r: SafetyRuns.Run, i: nat, m: Memory, signal: Signal, provider: Provider, target: Target,
                          w: World,
                          k: Safety.DeliveryKey, from: Time, to: Time)
    returns (r2: SafetyRuns.Run)
    requires Reaches(r, i, m.guard, w.now)
    ensures var (after, v) := Attempt(m, signal, provider, target, w);
      Extends(r, i, r2, after.guard, w.now, k, from, to,
              if v == Delivered && IsKeyOf(k, signal, provider, target) && from <= w.now <= to then 1 else 0)
  {
    r2 := r;
    if target.TargetId().None? || PresentAndTrimmed(target.TargetId().value) {
      r2 := CheckExtends(r, i, KeyFor(signal, provider, target), w.now, w.saved, k, from, to);
    }
  }

  lemma DeliveriesNext(b: Batch, verdicts: seq<Verdict>, v: Verdict, k: Safety.DeliveryKey, from: Time, to: Time)
    ensures Deliveries(b, verdicts + [v], k, from, to)
      == Deliveries(b, verdicts, k, from, to) + (if Delivers(b, |verdicts|, v, k, from, to) then 1 else 0)
  {
    assert (verdicts + [v])[..|verdicts|] == verdicts;
  }

  lemma NextExtendsRun(r: SafetyRuns.Run, i: nat, r1: SafetyRuns.Run, b: Batch, before: Memory, verdicts: seq<Verdict>,
                       k: Safety.DeliveryKey, from: Time, to: Time)
    returns (r2: SafetyRuns.Run)
    requires r.Valid() && i <= |r.calls| && ClockRunsForward(b.world) && |verdicts| < |b.targets|
    requires Extends(r, i, r1, before.guard, b.world(b.first + |verdicts|).now, k, from, to,
                     Deliveries(b, verdicts, k, from, to))
    ensures var (after, v) := b.Next(before, |verdicts|);
      Extends(r, i, r2, after.guard, b.world(b.first + |verdicts| + 1).now, k, from, to,
              Deliveries(b, verdicts + [v], k, from, to))
  {
    var n, done := |verdicts|, Deliveries(b, verdicts, k, from, to);
    var w, later := b.world(b.first + n), b.world(b.first + n + 1).now;
    r2 := AttemptExtendsRun(r1, i, before, b.signal, b.provider, b.targets[n], w, k, from, to);
    var (after, v) := b.Next(before, n);
    DeliveriesNext(b, verdicts, v, k, from, to);
    ExtendsFurther(r, i, r1, before.guard, w.now, done, r2, after.guard, w.now,
                   if Delivers(b, n, v, k, from, to) then 1 else 0, later, k, from, to);
  }

  lemma {:induction false} BatchExtendsRun(r: SafetyRuns.Run, i: nat, b: Batch, m: Memory, n: nat,
                                           k: Safety.DeliveryKey, from: Time, to: Time)
    returns (r2: SafetyRuns.Run)
    requires Reaches(r, i, m.guard, b.world(b.first).now) && n <= |b.targets|
    requires ClockRunsForward(b.world)
    ensures Extends(r, i, r2, b.Run(m, n).0.guard, b.world(b.first + n).now, k, from, to,
                    Deliveries(b, b.Run(m, n).1, k, from, to))
  {
    r2 := r;
    if n == 0 {
    } else {
      var r1 := BatchExtendsRun(r, i, b, m, n - 1, k, from, to);
      RunLength(b, m, n - 1);
      r2 := NextExtendsRun(r, i, r1, b, b.Run(m, n - 1).0, b.Run(m, n - 1).1, k, from, to);
    }
  }

  lemma {:induction false} PassExtendsRun(r: SafetyRuns.Run, i: nat, p: Pass, tr: Trace, n: nat, k: Safety.DeliveryKey,
                                          from: Time, to: Time)
    returns (r2: SafetyRuns.Run)
    requires p.Follows(tr) && n <= |tr.log|
    requires Reaches(r, i, tr.memories[0].guard, p.world(0).now) && ClockRunsForward(p.world)
    ensures Reaches(r2, i, tr.memories[n].guard, p.world(TallyOf(tr.log[..n]).attempted).now)
    ensures SafetyRuns.AllowsIn(r2, i, |r2.calls|, k, from, to)
      >= SafetyRuns.AllowsIn(r, i, |r.calls|, k, from, to) + DeliveriesInPass(p, tr.log, n, k, from, to)
  {
    r2 := r;
    if n == 0 {
    } else {
      var r1 := PassExtendsRun(r, i, p, tr, n - 1, k, from, to);
      assert p.StepFits(tr, n - 1);
      assert tr.log[..n][..n - 1] == tr.log[..n - 1];
      r2 := VisitExtendsRun(r1, i, p, n - 1, TallyOf(tr.log[..n - 1]), tr.memories[n - 1], tr.memories[n],
                            tr.log[n - 1], k, from, to);
    }
  }

  lemma VisitExtendsRun(r: SafetyRuns.Run, i: nat, p: Pass, n: nat, t: Tally, before: Memory, after: Memory,
                        visit: Visit,
                        k: Safety.DeliveryKey, from: Time, to: Time)
    returns (r2: SafetyRuns.Run)
    requires p.Fits(n, t.attempted, before, after, visit)
    requires Reaches(r, i, before.guard, p.world(t.attempted).now) && ClockRunsForward(p.world)
    ensures Reaches(r2, i, after.guard, p.world(CountVisit(t, visit).attempted).now)
    ensures SafetyRuns.AllowsIn(r2, i, |r2.calls|, k, from, to) >= SafetyRuns.AllowsIn(r, i, |r.calls|, k, from, to)
      + if visit.Visited? && visit.providerId in p.registered then
          Deliveries(p.BatchFor(visit.providerId, visit.targets, t.attempted), visit.verdicts, k, from, to)
        else 0
  {
    r2 := r;
    if visit.Visited? {
      var b := p.BatchFor(visit.providerId, visit.targets, t.attempted);
      var found :| p.Finds(n, t.attempted, visit.providerId, before, found, Ok(visit.targets))
        && (after, visit.verdicts) == b.Run(found, |visit.targets|);
      r2 := BatchExtendsRun(r, i, b, found, |visit.targets|, k, from, to);
      RunLength(b, found, |visit.targets|);
      VerdictsAreCounted(t, visit.verdicts);
    }
  }

  /** Whatever was delivered before, in a closed interval of ten seconds the deliveries of one message
      to one target so far, as far as the guard allowed them, and those of a whole pass through all
      routes, providers and targets are together at most four. */
  lemma DeliveriesAreBounded(r: SafetyRuns.Run, i: nat, p: Pass, tr: Trace, k: Safety.DeliveryKey, from: Time)
    requires p.Follows(tr)
    requires Reaches(r, i, tr.memories[0].guard, p.world(0).now) && ClockRunsForward(p.world)
    ensures SafetyRuns.AllowsIn(r, i, |r.calls|, k, from, from + 10_000_000_000)
      + DeliveriesInPass(p, tr.log, |tr.log|, k, from, from + 10_000_000_000) <= 4
  {
    var r2 := PassExtendsRun(r, i, p, tr, |tr.log|, k, from, from + 10_000_000_000);
    SafetyRuns.AtMostFourInTenSeconds(r2, i, |r2.calls|, k, from);
  }
}
