/**
 What the ledger guarantees over whole runs of updates, including updates whose save fails
 and updates that stop between the rename and the answer.

 Each list is first shown to behave as independent small state machines, one per inbound
 event and one per provider thread; the run theorems are inductions over those.
 */
module ResponseSurfaceRuns {
  import opened Basics
  import opened Tables
  import opened Text
  import opened CompositeKeys
  import opened ResponseSurfaceLedger

  // ---- the state invariant ----

  predicate WellFormedEvent(r: EventRecord) {
    Present(r.providerId) && Present(r.providerType) && Present(r.surfaceId)
  }

  /** For each thread every record except possibly the last is closed. */
  ghost predicate OnlyLastActive(surfaces: seq<Surface>) {
    forall i, j :: 0 <= i < j < |surfaces| && ThreadOf(surfaces[i]) == ThreadOf(surfaces[j]) ==> !Active(surfaces[i])
  }

  ghost predicate SurfacesInv(surfaces: seq<Surface>) {
    KeysUnique(surfaces, SurfaceIdOf) && OnlyLastActive(surfaces)
  }

  ghost predicate Inv(s: LedgerState) {
    && KeysUnique(s.events, EventKeyOf)
    && (forall r :: r in s.events ==> WellFormedEvent(r))
    && SurfacesInv(s.surfaces)
    && KeysUnique(s.turns, TurnKeyOf)
  }

  /** A created surface gets an unused id; claiming is not done through the status recorder. */
  predicate Legal(s: LedgerState, op: Op) {
    && (op.Create? ==> forall x :: x in s.surfaces ==> SurfaceIdOf(x) != op.freshId)
    && (op.Record? ==> op.status != ClaimedBeforeSubmit)
  }

  /** The bytes that are hashed: each field followed by a zero byte. */
  function DigestInput(d: Digest): string {
    Terminated([d.providerType, d.providerId, d.accountId, d.conversationId, d.eventId], '\0')
  }

  /** Representing a digest by its fields loses nothing while no field holds a zero byte. */
  lemma DigestInputIsInjective(a: Digest, b: Digest)
    requires Free([a.providerType, a.providerId, a.accountId, a.conversationId, a.eventId], '\0')
    requires Free([b.providerType, b.providerId, b.accountId, b.conversationId, b.eventId], '\0')
    ensures DigestInput(a) == DigestInput(b) <==> a == b
  {
    var fa := [a.providerType, a.providerId, a.accountId, a.conversationId, a.eventId];
    var fb := [b.providerType, b.providerId, b.accountId, b.conversationId, b.eventId];
    if DigestInput(a) == DigestInput(b) {
      TerminatedInjective(fa, fb, '\0');
      assert fa[0] == fb[0] && fa[1] == fb[1] && fa[2] == fb[2] && fa[3] == fb[3] && fa[4] == fb[4];
    }
  }

  // ---- one state machine per event ----

  ghost function EventOf(s: LedgerState, k: EventKey): Option<EventRecord> {
    Find(s.events, EventKeyOf, k)
  }

  /** The life of one event, as a machine that knows nothing of any other event. */
  function StepEvent(e: Option<EventRecord>, op: Op, k: EventKey): Option<EventRecord> {
    match op
    case Claim(input, now) =>
      if ValidEvent(input) && KeyOfInput(input) == k && e.None? then
        Some(EventRecord(k.providerId, k.providerType, k.hash, input.surfaceId, ClaimedBeforeSubmit, now))
      else e
    case Record(input, status, now) =>
      if !ValidEvent(input) || KeyOfInput(input) != k then e
      else if e.None? then
        if status == Processed then
          Some(EventRecord(k.providerId, k.providerType, k.hash, input.surfaceId, Processed, now))
        else None
      else Advance(e.value, input.surfaceId, status)
    case Release(input) =>
      if ValidEvent(input) && KeyOfInput(input) == k && e.Some?
         && e.value.surfaceId == input.surfaceId && e.value.status == ClaimedBeforeSubmit
      then None else e
    case RecordByHash(key, surfaceId, status) =>
      if key == k && e.Some? && status.IsTerminal()
         && Present(key.providerId) && Present(key.providerType)
         && Present(surfaceId) then Advance(e.value, surfaceId, status) else e
    case _ => e
  }

  function Advance(r: EventRecord, surfaceId: string, status: EventStatus): Option<EventRecord> {
    Some(if r.surfaceId == surfaceId && !r.status.IsTerminal() then r.(status := status) else r)
  }

  lemma EventIndexIsFind(events: seq<EventRecord>, k: EventKey)
    requires KeysUnique(events, EventKeyOf)
    ensures var i := EventIndex(events, k);
            Find(events, EventKeyOf, k) == if i < |events| then Some(events[i]) else None
  {
    var i := EventIndex(events, k);
    if i < |events| {
      FindIs(events, EventKeyOf, i);
    } else {
      assert forall j :: 0 <= j < |events| ==> EventKeyOf(events[j]) != k;
    }
  }

  /** The position scan of a release finds the event's own record, or nothing. */
  lemma ReleasableIsEvent(events: seq<EventRecord>, input: EventInput)
    requires KeysUnique(events, EventKeyOf)
    ensures var i := ReleasableIndex(events, input);
            var e := Find(events, EventKeyOf, KeyOfInput(input));
            if i < |events| then e == Some(events[i]) && events[i].surfaceId == input.surfaceId
              && events[i].status == ClaimedBeforeSubmit
            else e.None? || e.value.surfaceId != input.surfaceId || e.value.status != ClaimedBeforeSubmit
  {
    var i := ReleasableIndex(events, input);
    if i < |events| {
      FindIs(events, EventKeyOf, i);
    } else {
      EventIndexIsFind(events, KeyOfInput(input));
    }
  }

  lemma TurnIndexIsFind(turns: seq<TurnRecord>, k: (string, string))
    requires KeysUnique(turns, TurnKeyOf)
    ensures var i := TurnIndex(turns, k);
            Find(turns, TurnKeyOf, k) == if i < |turns| then Some(turns[i]) else None
  {
    var i := TurnIndex(turns, k);
    if i < |turns| {
      FindIs(turns, TurnKeyOf, i);
    } else {
      assert forall j :: 0 <= j < |turns| ==> TurnKeyOf(turns[j]) != k;
    }
  }

  lemma ClaimStep(s: LedgerState, input: EventInput, now: Time, k: EventKey)
    requires KeysUnique(s.events, EventKeyOf)
    ensures var after := ClaimEvent(s, input, now).0.events;
      && KeysUnique(after, EventKeyOf)
      && Find(after, EventKeyOf, k) == StepEvent(Find(s.events, EventKeyOf, k), Claim(input, now), k)
  {
    var key := KeyOfInput(input);
    EventIndexIsFind(s.events, key);
    if ValidEvent(input) && EventIndex(s.events, key) == |s.events| {
      Push(s.events, EventKeyOf,
           EventRecord(key.providerId, key.providerType, key.hash, input.surfaceId, ClaimedBeforeSubmit, now), k);
    }
  }

  lemma RecordStep(s: LedgerState, input: EventInput, status: EventStatus, now: Time, k: EventKey)
    requires KeysUnique(s.events, EventKeyOf)
    ensures var after := RecordEvent(s, input, status, now).0.events;
      && KeysUnique(after, EventKeyOf)
      && Find(after, EventKeyOf, k) == StepEvent(Find(s.events, EventKeyOf, k), Record(input, status, now), k)
  {
    var key := KeyOfInput(input);
    EventIndexIsFind(s.events, key);
    var i := EventIndex(s.events, key);
    if ValidEvent(input) {
      if i < |s.events| {
        Replace(s.events, EventKeyOf, i, s.events[i].(status := status), k);
      } else {
        Push(s.events, EventKeyOf,
             EventRecord(key.providerId, key.providerType, key.hash, input.surfaceId, status, now), k);
      }
    }
  }

  lemma ReleaseStep(s: LedgerState, input: EventInput, k: EventKey)
    requires KeysUnique(s.events, EventKeyOf)
    ensures var after := ReleaseClaim(s, input).0.events;
      && KeysUnique(after, EventKeyOf)
      && Find(after, EventKeyOf, k) == StepEvent(Find(s.events, EventKeyOf, k), Release(input), k)
  {
    ReleasableIsEvent(s.events, input);
    var i := ReleasableIndex(s.events, input);
    if i < |s.events| {
      Delete(s.events, EventKeyOf, i, k);
    }
  }

  lemma RecordByHashStep(s: LedgerState, key: EventKey, surfaceId: string, status: EventStatus, k: EventKey)
    requires KeysUnique(s.events, EventKeyOf)
    ensures var after := RecordEventByHash(s, key, surfaceId, status).0.events;
      && KeysUnique(after, EventKeyOf)
      && Find(after, EventKeyOf, k) == StepEvent(Find(s.events, EventKeyOf, k), RecordByHash(key, surfaceId, status), k)
  {
    EventIndexIsFind(s.events, key);
    var i := EventIndex(s.events, key);
    if i < |s.events| {
      Replace(s.events, EventKeyOf, i, s.events[i].(status := status), k);
    }
  }

  /** The event list is exactly a family of independent event machines. */
  lemma EventsRefineMachines(s: LedgerState, op: Op, k: EventKey)
    requires KeysUnique(s.events, EventKeyOf)
    ensures var after := Apply(s, op).events;
      && KeysUnique(after, EventKeyOf)
      && Find(after, EventKeyOf, k) == StepEvent(Find(s.events, EventKeyOf, k), op, k)
  {
    match op
    case Claim(input, now) => ClaimStep(s, input, now, k);
    case Record(input, status, now) => RecordStep(s, input, status, now, k);
    case Release(input) => ReleaseStep(s, input, k);
    case RecordByHash(key, surfaceId, status) => RecordByHashStep(s, key, surfaceId, status, k);
    case _ =>
  }

  lemma EventsStayWellFormed(s: LedgerState, op: Op)
    requires forall r :: r in s.events ==> WellFormedEvent(r)
    ensures forall r :: r in Apply(s, op).events ==> WellFormedEvent(r)
  {
    forall r | r in Apply(s, op).events && r !in s.events
      ensures WellFormedEvent(r)
    {
      match op
      case RecordByHash(k, _, _) => assert WellFormedEvent(s.events[EventIndex(s.events, k)]);
      case Record(input, _, _) =>
        if EventIndex(s.events, KeyOfInput(input)) < |s.events| {
          assert WellFormedEvent(s.events[EventIndex(s.events, KeyOfInput(input))]);
        }
      case _ =>
    }
  }

  // ---- one state machine per provider thread ----

  /** The surface that currently holds a thread. */
  ghost function Owner(s: LedgerState, t: Thread): Option<Surface> {
    if exists i :: 0 <= i < |s.surfaces| && Active(s.surfaces[i]) && ThreadOf(s.surfaces[i]) == t then
      var i :| 0 <= i < |s.surfaces| && Active(s.surfaces[i]) && ThreadOf(s.surfaces[i]) == t;
      Some(s.surfaces[i])
    else None
  }

  function StepOwner(owner: Option<Surface>, op: Op, t: Thread): Option<Surface> {
    match op
    case Create(n, id, now) =>
      if ValidSurface(n) && ThreadOfInput(n) == t && owner.None? then Some(NewRecord(n, id, now)) else owner
    case Close(id) =>
      if Present(id) && owner.Some? && SurfaceIdOf(owner.value) == id && owner.value.facts.status == Open then None
      else owner
    case _ => owner
  }

  /** A thread has at most one active surface, so any active one is its owner. */
  lemma OwnerIs(s: LedgerState, i: nat)
    requires OnlyLastActive(s.surfaces)
    requires i < |s.surfaces| && Active(s.surfaces[i])
    ensures Owner(s, ThreadOf(s.surfaces[i])) == Some(s.surfaces[i])
  {
  }

  lemma ForwardScanFindsOwner(s: LedgerState, t: Thread)
    requires OnlyLastActive(s.surfaces)
    ensures var i := FirstActive(s.surfaces, t);
            Owner(s, t) == if i < |s.surfaces| then Some(s.surfaces[i]) else None
  {
    var i := FirstActive(s.surfaces, t);
    if i < |s.surfaces| {
      OwnerIs(s, i);
    }
  }

  /** A change that leaves the records of a thread alone leaves its owner alone. */
  lemma OwnerSurvives(s: LedgerState, after: LedgerState, t: Thread)
    requires OnlyLastActive(after.surfaces)
    requires |s.surfaces| <= |after.surfaces|
    requires forall i :: 0 <= i < |after.surfaces| && ThreadOf(after.surfaces[i]) == t ==>
      i < |s.surfaces| && after.surfaces[i] == s.surfaces[i]
    requires forall i :: 0 <= i < |s.surfaces| && ThreadOf(s.surfaces[i]) == t ==> after.surfaces[i] == s.surfaces[i]
    ensures Owner(after, t) == Owner(s, t)
  {
    if Owner(s, t).Some? {
      var i :| 0 <= i < |s.surfaces| && Active(s.surfaces[i]) && ThreadOf(s.surfaces[i]) == t
        && Owner(s, t) == Some(s.surfaces[i]);
      OwnerIs(after, i);
    }
  }

  lemma CreateStep(s: LedgerState, n: NewSurface, id: string, now: Time, t: Thread)
    requires SurfacesInv(s.surfaces) && Legal(s, Create(n, id, now))
    ensures SurfacesInv(CreateSurface(s, n, id, now).0.surfaces)
    ensures Owner(CreateSurface(s, n, id, now).0, t) == StepOwner(Owner(s, t), Create(n, id, now), t)
  {
    ForwardScanFindsOwner(s, ThreadOfInput(n));
    if ValidSurface(n) && Owner(s, ThreadOfInput(n)).None? {
      var after := s.(surfaces := s.surfaces + [NewRecord(n, id, now)]);
      OwnerIs(after, |s.surfaces|);
      if t != ThreadOfInput(n) {
        OwnerSurvives(s, after, t);
      }
    }
  }

  /** Once its active surface is closed a thread has no owner. */
  lemma ClosedThreadIsFree(s: LedgerState, c: nat, after: LedgerState)
    requires OnlyLastActive(s.surfaces) && c < |s.surfaces| && Active(s.surfaces[c])
    requires |after.surfaces| == |s.surfaces| && !Active(after.surfaces[c])
    requires forall j :: 0 <= j < |s.surfaces| && j != c ==> after.surfaces[j] == s.surfaces[j]
    ensures Owner(after, ThreadOf(s.surfaces[c])) == None
  {
  }

  lemma CloseStep(s: LedgerState, id: string, t: Thread)
    requires SurfacesInv(s.surfaces)
    ensures SurfacesInv(CloseSurface(s, id).0.surfaces)
    ensures Owner(CloseSurface(s, id).0, t) == StepOwner(Owner(s, t), Close(id), t)
  {
    var after := CloseSurface(s, id).0;
    var c := SurfaceIndex(s.surfaces, id);
    if c < |s.surfaces| && Present(id) && s.surfaces[c].facts.status == Open {
      OwnerIs(s, c);
      assert forall j :: 0 <= j < |s.surfaces| ==>
        SurfaceIdOf(after.surfaces[j]) == SurfaceIdOf(s.surfaces[j])
          && ThreadOf(after.surfaces[j]) == ThreadOf(s.surfaces[j]);
      if t == ThreadOf(s.surfaces[c]) {
        ClosedThreadIsFree(s, c, after);
      } else {
        OwnerSurvives(s, after, t);
      }
    }
  }

  /** The surface list is exactly a family of independent thread machines. */
  lemma SurfacesRefineMachines(s: LedgerState, op: Op, t: Thread)
    requires SurfacesInv(s.surfaces) && Legal(s, op)
    ensures SurfacesInv(Apply(s, op).surfaces)
    ensures Owner(Apply(s, op), t) == StepOwner(Owner(s, t), op, t)
  {
    match op
    case Create(n, id, now) => CreateStep(s, n, id, now, t);
    case Close(id) => CloseStep(s, id, t);
    case _ =>
  }

  /** Backward lookup and forward scan agree: lookup hits iff the thread has an active surface,
      and then reports the very record that a create for this thread would find. */
  lemma ScansAgree(s: LedgerState, t: Thread)
    requires Inv(s) && ValidThread(t)
    ensures LookupSurface(s, t).Ok?
    ensures LookupSurface(s, t).value.Hit? <==> Owner(s, t).Some?
    ensures LookupSurface(s, t).value.Hit? ==> LookupSurface(s, t).value.surface == Owner(s, t).value.facts
    ensures LookupSurface(s, t).value.Hit? ==>
      var i := FirstActive(s.surfaces, t);
      i < |s.surfaces| && LookupSurface(s, t).value.surface == s.surfaces[i].facts
    ensures LookupSurface(s, t).value.Miss? <==> forall x :: x in s.surfaces ==> ThreadOf(x) != t
  {
    ForwardScanFindsOwner(s, t);
    var end := LastOfThreadEnd(s.surfaces, t);
    if end > 0 {
      assert s.surfaces[end - 1] in s.surfaces;
    }
  }

  // ---- continuation turns ----

  function StepTurn(e: Option<TurnRecord>, op: Op, k: (string, string)): Option<TurnRecord> {
    if op.Turn? && ValidTurn(op.turn) && (op.turn.sessionId, op.turn.turnId) == k && e.None? then
      Some(TurnRecord(op.turn.surfaceId, op.turn.sessionId, op.turn.turnId, op.now))
    else e
  }

  lemma TurnsRefineMachines(s: LedgerState, op: Op, k: (string, string))
    requires KeysUnique(s.turns, TurnKeyOf)
    ensures KeysUnique(Apply(s, op).turns, TurnKeyOf)
    ensures Find(Apply(s, op).turns, TurnKeyOf, k) == StepTurn(Find(s.turns, TurnKeyOf, k), op, k)
  {
    if op.Turn? {
      var mine := (op.turn.sessionId, op.turn.turnId);
      TurnIndexIsFind(s.turns, mine);
      if Find(s.turns, TurnKeyOf, mine).None? {
        Push(s.turns, TurnKeyOf, TurnRecord(op.turn.surfaceId, op.turn.sessionId, op.turn.turnId, op.now), k);
      }
    }
  }

  /** Every operation keeps the invariant, whatever becomes of its save. */
  lemma UpdateKeepsInv(s: LedgerState, op: Op, io: SaveOutcome)
    requires Inv(s) && Legal(s, op)
    ensures Inv(Apply(s, op)) && Inv(Next(s, op, io))
  {
    EventsRefineMachines(s, op, EventKey("", "", Digest("", "", "", "", "")));
    EventsStayWellFormed(s, op);
    SurfacesRefineMachines(s, op, Thread("", "", "", ""));
    TurnsRefineMachines(s, op, ("", ""));
  }

  // ---- runs ----

  datatype Update = Update(op: Op, io: SaveOutcome)

  // A run: the stored file before and after every update, and what each caller was told.
  datatype Run = Run(states: seq<LedgerState>, updates: seq<Update>, replies: seq<Reply>) {
    ghost predicate Valid() {
      && |states| == |updates| + 1 == |replies| + 1
      && Inv(states[0])
      && forall i :: 0 <= i < |updates| ==> StepValid(i)
    }

    ghost predicate StepValid(i: nat)
      requires |states| == |updates| + 1 == |replies| + 1 && i < |updates|
    {
      && Legal(states[i], updates[i].op)
      && states[i + 1] == Next(states[i], updates[i].op, updates[i].io)
      && replies[i] == ReplyTo(states[i], updates[i].op, updates[i].io)
    }

    ghost function Event(n: nat, k: EventKey): Option<EventRecord>
      requires n < |states|
    {
      EventOf(states[n], k)
    }

    /** Update `m` released the claim on `k`: the stored record was claimed, and is gone. */
    ghost predicate Released(m: nat, k: EventKey)
      requires Valid() && m < |updates|
    {
      var op, before := updates[m].op, Event(m, k);
      && op.Release? && KeyOfInput(op.input) == k
      && before.Some? && before.value.status == ClaimedBeforeSubmit && before.value.surfaceId == op.input.surfaceId
      && Event(m + 1, k).None?
    }

    ghost predicate Claimed(i: nat, k: EventKey)
      requires Valid() && i < |updates|
    {
      && updates[i].op.Claim? && KeyOfInput(updates[i].op.input) == k
      && replies[i].Claiming? && replies[i].claim.Ok? && replies[i].claim.value.Claimed?
    }

    /** The caller was told that a terminal status has been recorded for `k`. */
    ghost predicate Finished(i: nat, k: EventKey)
      requires Valid() && i < |updates|
    {
      var op := updates[i].op;
      && ((op.Record? && KeyOfInput(op.input) == k) || (op.RecordByHash? && op.key == k))
      && replies[i].Recording? && replies[i].record.Ok? && replies[i].record.value.Recorded?
      && replies[i].record.value.status.IsTerminal()
    }
  }

  lemma NextIsApplyOrNothing(s: LedgerState, op: Op, io: SaveOutcome)
    ensures Next(s, op, io) == if io == FailedBeforeRename then s else Apply(s, op)
  {
  }

  lemma {:induction false} ReachableInv(r: Run, n: nat)
    requires r.Valid() && n <= |r.updates|
    ensures Inv(r.states[n])
  {
    if n == 0 {
    } else {
      ReachableInv(r, n - 1);
      assert r.StepValid(n - 1);
      UpdateKeepsInv(r.states[n - 1], r.updates[n - 1].op, r.updates[n - 1].io);
    }
  }

  lemma EventMoves(r: Run, n: nat, k: EventKey)
    requires r.Valid() && n < |r.updates|
    ensures Legal(r.states[n], r.updates[n].op)
    ensures r.Event(n + 1, k) ==
      if r.updates[n].io == FailedBeforeRename then r.Event(n, k) else StepEvent(r.Event(n, k), r.updates[n].op, k)
  {
    ReachableInv(r, n);
    assert r.StepValid(n);
    NextIsApplyOrNothing(r.states[n], r.updates[n].op, r.updates[n].io);
    EventsRefineMachines(r.states[n], r.updates[n].op, k);
  }

  lemma {:induction false} DisappearingNeedsRelease(r: Run, i: nat, j: nat, k: EventKey) returns (m: nat)
    requires r.Valid() && i <= j <= |r.updates|
    requires r.Event(i, k).Some? && r.Event(j, k).None?
    ensures i <= m < j && r.Released(m, k)
  {
    EventMoves(r, j - 1, k);
    if r.Event(j - 1, k).Some? {
      m := j - 1;
    } else {
      m := DisappearingNeedsRelease(r, i, j - 1, k);
    }
  }

  lemma ClaimReply(s: LedgerState, input: EventInput, now: Time, io: SaveOutcome)
    requires Inv(s)
    ensures var c := ReplyTo(s, Claim(input, now), io).claim;
      c.Ok? && c.value.Claimed? ==> ValidEvent(input) && EventOf(s, KeyOfInput(input)).None? && io == Saved
  {
    EventIndexIsFind(s.events, KeyOfInput(input));
  }

  /** `Claimed` is answered only for an unknown event, and then the claim is durable. */
  lemma ClaimedIsNewAndDurable(r: Run, i: nat, k: EventKey)
    requires r.Valid() && i < |r.updates| && r.Claimed(i, k)
    ensures r.Event(i, k).None?
    ensures r.Event(i + 1, k).Some? && r.Event(i + 1, k).value.status == ClaimedBeforeSubmit
  {
    ReachableInv(r, i);
    assert r.StepValid(i);
    ClaimReply(r.states[i], r.updates[i].op.input, r.updates[i].op.now, r.updates[i].io);
    EventMoves(r, i, k);
  }

  /** Exactly once: two `Claimed` answers for one event have a release of that claim in between,
      over every run, whatever saves fail or stop half way and however often the file is reloaded. */
  lemma ClaimsAreSeparatedByRelease(r: Run, i: nat, j: nat, k: EventKey)
    requires r.Valid() && i < j < |r.updates|
    requires r.Claimed(i, k) && r.Claimed(j, k)
    ensures exists m :: i < m < j && r.Released(m, k)
  {
    ClaimedIsNewAndDurable(r, i, k);
    ClaimedIsNewAndDurable(r, j, k);
    var m := DisappearingNeedsRelease(r, i + 1, j, k);
  }

  /** Past the submit boundary a record stays for ever with its surface, and a terminal status is final. */
  lemma {:induction false} SubmittedIsForEver(r: Run, i: nat, j: nat, k: EventKey)
    requires r.Valid() && i <= j <= |r.updates|
    requires r.Event(i, k).Some? && r.Event(i, k).value.status != ClaimedBeforeSubmit
    ensures r.Event(j, k).Some? && r.Event(j, k).value.status != ClaimedBeforeSubmit
    ensures r.Event(j, k).value.surfaceId == r.Event(i, k).value.surfaceId
    ensures r.Event(j, k).value.receivedAt == r.Event(i, k).value.receivedAt
    ensures r.Event(i, k).value.status.IsTerminal() ==> r.Event(j, k).value.status == r.Event(i, k).value.status
  {
    if i == j {
    } else {
      SubmittedIsForEver(r, i, j - 1, k);
      EventMoves(r, j - 1, k);
    }
  }

  /** Past the submit boundary no claim and no release of the event ever succeeds again. */
  lemma SubmittedNeverClaimedOrReleased(r: Run, i: nat, j: nat, k: EventKey)
    requires r.Valid() && i <= j < |r.updates|
    requires r.Event(i, k).Some? && r.Event(i, k).value.status != ClaimedBeforeSubmit
    ensures !r.Claimed(j, k)
    ensures !r.Released(j, k)
    ensures r.updates[j].op.Release? && KeyOfInput(r.updates[j].op.input) == k ==>
      r.states[j + 1] == r.states[j] && r.replies[j] != Changed(Ok(true))
  {
    SubmittedIsForEver(r, i, j, k);
    if r.Claimed(j, k) {
      ClaimedIsNewAndDurable(r, j, k);
    }
    if r.updates[j].op.Release? {
      ReachableInv(r, j);
      assert r.StepValid(j);
      ReleasableIsEvent(r.states[j].events, r.updates[j].op.input);
    }
  }

  /** Between releases an event keeps the surface it was first recorded for. */
  lemma {:induction false} SurfaceOfEventIsFixed(r: Run, i: nat, j: nat, k: EventKey)
    requires r.Valid() && i <= j <= |r.updates|
    requires r.Event(i, k).Some?
    requires forall m :: i <= m < j ==> !r.Released(m, k)
    ensures r.Event(j, k).Some?
    ensures r.Event(j, k).value.surfaceId == r.Event(i, k).value.surfaceId
    ensures r.Event(j, k).value.receivedAt == r.Event(i, k).value.receivedAt
  {
    if i == j {
    } else {
      SurfaceOfEventIsFixed(r, i, j - 1, k);
      EventMoves(r, j - 1, k);
      assert !r.Released(j - 1, k);
    }
  }

  lemma FinishedReply(s: LedgerState, op: Op, io: SaveOutcome, k: EventKey)
    requires KeysUnique(s.events, EventKeyOf)
    requires (op.Record? && KeyOfInput(op.input) == k) || (op.RecordByHash? && op.key == k)
    ensures var d := ReplyTo(s, op, io).record;
      d.Ok? && d.value.Recorded? && d.value.status.IsTerminal() ==>
        && (EventOf(s, k).Some? ==> !EventOf(s, k).value.status.IsTerminal())
        && StepEvent(EventOf(s, k), op, k).Some? && StepEvent(EventOf(s, k), op, k).value.status.IsTerminal()
        && (io == Saved || Apply(s, op) == s)
  {
    EventIndexIsFind(s.events, k);
  }

  /** Telling a caller that an event is finished means that it was not before, and is for ever. */
  lemma FinishedIsNewAndDurable(r: Run, i: nat, k: EventKey)
    requires r.Valid() && i < |r.updates| && r.Finished(i, k)
    ensures r.Event(i, k).Some? ==> !r.Event(i, k).value.status.IsTerminal()
    ensures r.Event(i + 1, k).Some? && r.Event(i + 1, k).value.status.IsTerminal()
  {
    ReachableInv(r, i);
    assert r.StepValid(i);
    FinishedReply(r.states[i], r.updates[i].op, r.updates[i].io, k);
    EventMoves(r, i, k);
  }

  /** An event is reported finished at most once in any run. */
  lemma FinishedAtMostOnce(r: Run, i: nat, j: nat, k: EventKey)
    requires r.Valid() && i < j < |r.updates|
    requires r.Finished(i, k)
    ensures !r.Finished(j, k)
  {
    FinishedIsNewAndDurable(r, i, k);
    SubmittedIsForEver(r, i + 1, j, k);
    if r.Finished(j, k) {
      FinishedIsNewAndDurable(r, j, k);
    }
  }

  lemma OwnerMoves(r: Run, n: nat, t: Thread)
    requires r.Valid() && n < |r.updates|
    ensures Owner(r.states[n + 1], t) ==
      if r.updates[n].io == FailedBeforeRename then Owner(r.states[n], t)
      else StepOwner(Owner(r.states[n], t), r.updates[n].op, t)
  {
    ReachableInv(r, n);
    assert r.StepValid(n);
    NextIsApplyOrNothing(r.states[n], r.updates[n].op, r.updates[n].io);
    SurfacesRefineMachines(r.states[n], r.updates[n].op, t);
  }

  /** A thread passes from one surface to another only through a close of the first. */
  lemma {:induction false} ThreadMovesOnlyAfterClose(r: Run, i: nat, j: nat, t: Thread) returns (m: nat)
    requires r.Valid() && i <= j <= |r.updates|
    requires Owner(r.states[i], t).Some?
    requires Owner(r.states[j], t) != Owner(r.states[i], t)
    ensures i <= m < j && r.updates[m].op == Close(SurfaceIdOf(Owner(r.states[i], t).value))
    ensures Owner(r.states[m + 1], t).None?
  {
    if Owner(r.states[j - 1], t) == Owner(r.states[i], t) {
      OwnerMoves(r, j - 1, t);
      m := j - 1;
    } else {
      m := ThreadMovesOnlyAfterClose(r, i, j - 1, t);
    }
  }

  lemma TurnMoves(r: Run, n: nat, k: (string, string))
    requires r.Valid() && n < |r.updates|
    ensures var was := Find(r.states[n].turns, TurnKeyOf, k);
      Find(r.states[n + 1].turns, TurnKeyOf, k) ==
        if r.updates[n].io == FailedBeforeRename then was else StepTurn(was, r.updates[n].op, k)
  {
    ReachableInv(r, n);
    assert r.StepValid(n);
    NextIsApplyOrNothing(r.states[n], r.updates[n].op, r.updates[n].io);
    TurnsRefineMachines(r.states[n], r.updates[n].op, k);
  }

  /** A continuation turn, once recorded, belongs to its surface for ever. */
  lemma {:induction false} TurnIsWriteOnce(r: Run, i: nat, j: nat, k: (string, string))
    requires r.Valid() && i <= j <= |r.updates|
    requires Find(r.states[i].turns, TurnKeyOf, k).Some?
    ensures Find(r.states[j].turns, TurnKeyOf, k) == Find(r.states[i].turns, TurnKeyOf, k)
  {
    if i == j {
    } else {
      TurnIsWriteOnce(r, i, j - 1, k);
      TurnMoves(r, j - 1, k);
    }
  }
}
