/** What the ledger answers, told by the fields of its arguments and of its records alone. */
module ResponseSurfaceAnswers {
  import opened Basics
  import opened Tables
  import opened Text
  import opened ResponseSurfaceLedger
  import opened ResponseSurfaceRuns

  // ---- which record belongs to an event ----

  /** The record was written for the event: same provider, and a digest of exactly these five fields. */
  predicate IsEvent(r: EventRecord, e: EventInput) {
    && r.providerId == e.providerId && r.providerType == e.providerType
    && r.hash == Digest(e.providerType, e.providerId, e.accountId, e.conversationId, e.eventId)
  }

  predicate Blank(s: string) {
    Trim(s) == ""
  }

  predicate HasBlankField(e: EventInput) {
    || Blank(e.providerId) || Blank(e.providerType) || Blank(e.accountId) || Blank(e.conversationId)
    || Blank(e.eventId) || Blank(e.surfaceId)
  }

  lemma ValidIffNotBlank(e: EventInput)
    ensures ValidEvent(e) <==> !HasBlankField(e)
  {
    PresentIffTrimNonEmpty(e.providerId);
    PresentIffTrimNonEmpty(e.providerType);
    PresentIffTrimNonEmpty(e.accountId);
    PresentIffTrimNonEmpty(e.conversationId);
    PresentIffTrimNonEmpty(e.eventId);
    PresentIffTrimNonEmpty(e.surfaceId);
  }

  lemma KeyTellsEvent(r: EventRecord, e: EventInput)
    ensures EventKeyOf(r) == KeyOfInput(e) <==> IsEvent(r, e)
  {
  }

  /** The record of an event, or none. */
  ghost function RecordFor(events: seq<EventRecord>, e: EventInput): Option<EventRecord> {
    if exists r :: r in events && IsEvent(r, e) then
      var r :| r in events && IsEvent(r, e);
      Some(r)
    else None
  }

  lemma RecordForIsFind(events: seq<EventRecord>, e: EventInput)
    requires KeysUnique(events, EventKeyOf)
    ensures RecordFor(events, e) == Find(events, EventKeyOf, KeyOfInput(e))
  {
    if Find(events, EventKeyOf, KeyOfInput(e)).Some? {
      var i :| 0 <= i < |events| && EventKeyOf(events[i]) == KeyOfInput(e);
      KeyTellsEvent(events[i], e);
      assert events[i] in events;
    }
    if RecordFor(events, e).Some? {
      var r := RecordFor(events, e).value;
      var i :| 0 <= i < |events| && events[i] == r;
      KeyTellsEvent(r, e);
      FindIs(events, EventKeyOf, i);
    }
  }

  // ---- claiming ----

  /** The whole answer to a claim: it is refused exactly for a blank field, granted exactly for an event
      without a record, and otherwise says how far the recorded event has come. */
  lemma ClaimAnswers(s: LedgerState, e: EventInput, now: Time)
    requires KeysUnique(s.events, EventKeyOf)
    ensures var (after, answer) := ClaimEvent(s, e, now);
      var hash := Digest(e.providerType, e.providerId, e.accountId, e.conversationId, e.eventId);
      var r := RecordFor(s.events, e);
      if HasBlankField(e) then answer == Err(MissingField) && after == s
      else if r.None? then
        && answer == Ok(Claimed(hash))
        && after == s.(events := s.events
             + [EventRecord(e.providerId, e.providerType, hash, e.surfaceId, ClaimedBeforeSubmit, now)])
      else
        && after == s
        && answer == Ok(if r.value.status in {ClaimedBeforeSubmit, SubmittedPossible}
                        then AlreadyProcessing(hash, r.value.surfaceId, r.value.status)
                        else DuplicateProcessed(hash, r.value.surfaceId, r.value.status))
  {
    ValidIffNotBlank(e);
    RecordForIsFind(s.events, e);
    EventIndexIsFind(s.events, KeyOfInput(e));
  }

  /** Same provider, type, account, conversation and event id. */
  predicate SameEvent(a: EventInput, b: EventInput) {
    && a.providerId == b.providerId && a.providerType == b.providerType && a.accountId == b.accountId
    && a.conversationId == b.conversationId && a.eventId == b.eventId
  }

  lemma OtherEventKeepsRecord(s: LedgerState, a: EventInput, b: EventInput, now: Time)
    requires KeysUnique(s.events, EventKeyOf) && !SameEvent(a, b)
    ensures var after := ClaimEvent(s, a, now).0;
      KeysUnique(after.events, EventKeyOf) && RecordFor(after.events, b) == RecordFor(s.events, b)
  {
    ClaimStep(s, a, now, KeyOfInput(b));
    RecordForIsFind(s.events, b);
    RecordForIsFind(ClaimEvent(s, a, now).0.events, b);
  }

  /** Events that differ in any of the five fields do not touch each other: claiming one leaves the
      answer to claiming the other as it was. */
  lemma ClaimsAreIndependent(s: LedgerState, a: EventInput, b: EventInput, t: Time, u: Time)
    requires KeysUnique(s.events, EventKeyOf) && !SameEvent(a, b)
    ensures ClaimEvent(ClaimEvent(s, a, t).0, b, u).1 == ClaimEvent(s, b, u).1
  {
    OtherEventKeepsRecord(s, a, b, t);
    ClaimAnswers(s, b, u);
    ClaimAnswers(ClaimEvent(s, a, t).0, b, u);
  }

  /** The surface takes no part in the identity: an event that was claimed, or was already known, is not
      claimed again for another surface. */
  lemma OtherSurfaceIsNoOtherEvent(s: LedgerState, a: EventInput, b: EventInput, t: Time, u: Time)
    requires KeysUnique(s.events, EventKeyOf) && SameEvent(a, b)
    requires ClaimEvent(s, a, t).1.Ok?
    ensures var second := ClaimEvent(ClaimEvent(s, a, t).0, b, u).1;
      second.Ok? ==> !second.value.Claimed?
  {
    var after := ClaimEvent(s, a, t).0;
    ClaimAnswers(s, a, t);
    ClaimStep(s, a, t, KeyOfInput(a));
    ClaimAnswers(after, b, u);
    if RecordFor(s.events, a).None? {
      assert IsEvent(after.events[|s.events|], b);
    }
  }

  // ---- recording and releasing ----

  /** The whole answer to recording a status. */
  lemma RecordAnswers(s: LedgerState, e: EventInput, status: EventStatus, now: Time)
    requires KeysUnique(s.events, EventKeyOf)
    ensures var (after, answer) := RecordEvent(s, e, status, now);
      var hash := Digest(e.providerType, e.providerId, e.accountId, e.conversationId, e.eventId);
      var r := RecordFor(s.events, e);
      if HasBlankField(e) then answer == Err(MissingField) && after == s
      else if r.None? then
        if status == Processed then
          && answer == Ok(Recorded(hash, Processed))
          && after == s.(events := s.events
               + [EventRecord(e.providerId, e.providerType, hash, e.surfaceId, Processed, now)])
        else answer == Err(NotClaimed) && after == s
      else if r.value.surfaceId != e.surfaceId then answer == Err(OtherSurface) && after == s
      else if r.value.status == status || r.value.status in {Processed, FailedNotified, SubmittedUnknownNotified} then
        answer == Ok(Duplicate(hash, r.value.surfaceId, r.value.status)) && after == s
      else
        && answer == Ok(Recorded(hash, status))
        && RecordFor(after.events, e) == Some(r.value.(status := status))
  {
    ValidIffNotBlank(e);
    RecordForIsFind(s.events, e);
    EventIndexIsFind(s.events, KeyOfInput(e));
    RecordStep(s, e, status, now, KeyOfInput(e));
    RecordForIsFind(RecordEvent(s, e, status, now).0.events, e);
  }

  /** A release succeeds exactly for a claimed event of this surface, whose record is then gone. */
  lemma ReleaseAnswers(s: LedgerState, e: EventInput)
    requires KeysUnique(s.events, EventKeyOf)
    ensures var (after, answer) := ReleaseClaim(s, e);
      var r := RecordFor(s.events, e);
      if HasBlankField(e) then answer == Err(MissingField) && after == s
      else if r.Some? && r.value.surfaceId == e.surfaceId && r.value.status == ClaimedBeforeSubmit then
        answer == Ok(true) && RecordFor(after.events, e).None?
      else answer == Ok(false) && after == s
  {
    ValidIffNotBlank(e);
    RecordForIsFind(s.events, e);
    ReleasableIsEvent(s.events, e);
    ReleaseStep(s, e, KeyOfInput(e));
    RecordForIsFind(ReleaseClaim(s, e).0.events, e);
  }

  /** Only the three final statuses may be handed back by digest. */
  lemma OnlyFinalStatusIsHandedBack(s: LedgerState, k: EventKey, surfaceId: string, status: EventStatus)
    requires !Blank(k.providerId) && !Blank(k.providerType) && !Blank(surfaceId)
    ensures RecordEventByHash(s, k, surfaceId, status).1 == Err(NotTerminal)
      <==> status !in {Processed, FailedNotified, SubmittedUnknownNotified}
  {
    PresentIffTrimNonEmpty(k.providerId);
    PresentIffTrimNonEmpty(k.providerType);
    PresentIffTrimNonEmpty(surfaceId);
  }

  // ---- creating, looking up and closing surfaces ----

  predicate AllGiven(n: NewSurface) {
    && !Blank(n.signalId) && !Blank(n.deliveryId) && !Blank(n.sourceId) && !Blank(n.sourceType)
    && !Blank(n.sourceSessionId) && !Blank(n.providerId) && !Blank(n.providerType) && !Blank(n.accountId)
    && !Blank(n.conversationId) && !Blank(n.messageId) && !Blank(n.threadId)
  }

  lemma ValidIffAllGiven(n: NewSurface)
    ensures ValidSurface(n) <==> AllGiven(n)
    ensures AllGiven(n) ==> ValidThread(Thread(n.providerId, n.accountId, n.conversationId, n.threadId))
  {
    PresentIffTrimNonEmpty(n.signalId);
    PresentIffTrimNonEmpty(n.deliveryId);
    PresentIffTrimNonEmpty(n.sourceId);
    PresentIffTrimNonEmpty(n.sourceType);
    PresentIffTrimNonEmpty(n.sourceSessionId);
    PresentIffTrimNonEmpty(n.providerId);
    PresentIffTrimNonEmpty(n.providerType);
    PresentIffTrimNonEmpty(n.accountId);
    PresentIffTrimNonEmpty(n.conversationId);
    PresentIffTrimNonEmpty(n.messageId);
    PresentIffTrimNonEmpty(n.threadId);
  }

  function Given(value: Option<string>): Option<string> {
    if value.Some? && !Blank(value.value) then value else None
  }

  /** The surface belongs to the session, provider, mode and route of the request. */
  predicate Binds(f: SurfaceFacts, n: NewSurface) {
    && f.sourceId == n.sourceId && f.sourceType == n.sourceType && f.sourceSessionId == n.sourceSessionId
    && f.providerType == n.providerType && f.providerMode == n.providerMode && f.routeHash == Given(n.routeHash)
  }

  /** The surface lies in the thread of the request. */
  predicate LiesIn(f: SurfaceFacts, t: Thread) {
    f.providerId == t.providerId && f.accountId == t.accountId && f.conversationId == t.conversationId
    && f.threadId == t.threadId
  }

  predicate IsFresh(f: SurfaceFacts, n: NewSurface, id: string) {
    && f.surfaceId == id && f.status == Open && f.signalId == n.signalId && f.deliveryId == n.deliveryId
    && f.sourceTurnId == Given(n.sourceTurnId) && f.messageId == n.messageId
  }

  lemma GivenIsPresentOnly(value: Option<string>)
    ensures Given(value) == PresentOnly(value)
  {
    if value.Some? {
      PresentIffTrimNonEmpty(value.value);
    }
  }

  lemma SameBindingIsBinds(x: Surface, n: NewSurface)
    ensures SameBinding(x, n) <==> Binds(x.facts, n)
  {
    GivenIsPresentOnly(n.routeHash);
  }

  lemma OwnerIsLookedUp(s: LedgerState, t: Thread)
    requires Inv(s) && ValidThread(t)
    ensures Owner(s, t).Some? <==> LookupSurface(s, t).Ok? && LookupSurface(s, t).value.Hit?
    ensures Owner(s, t).Some?
      ==> LookupSurface(s, t) == Ok(Hit(Owner(s, t).value.facts)) && LiesIn(Owner(s, t).value.facts, t)
  {
    ScansAgree(s, t);
  }

  /** The whole answer to a create, and what a lookup in the thread says next. */
  lemma CreateAnswers(s: LedgerState, n: NewSurface, id: string, now: Time)
    requires Inv(s) && Legal(s, Create(n, id, now))
    ensures var (after, answer) := CreateSurface(s, n, id, now);
      var t := Thread(n.providerId, n.accountId, n.conversationId, n.threadId);
      if !AllGiven(n) then answer == Err(MissingField) && after == s
      else
        var found := LookupSurface(s, t);
        if found.Ok? && found.value.Hit? && !Binds(found.value.surface, n) then
          answer == Err(ThreadAlreadyBound(found.value.surface.surfaceId)) && after == s
        else
          && answer.Ok? && LookupSurface(after, t) == Ok(Hit(answer.value.facts))
          && LiesIn(answer.value.facts, t) && Binds(answer.value.facts, n)
          && (if found.Ok? && found.value.Hit? then after == s && answer.value.facts == found.value.surface
              else IsFresh(answer.value.facts, n, id) && answer.value.createdAt == now)
  {
    var t := Thread(n.providerId, n.accountId, n.conversationId, n.threadId);
    ValidIffAllGiven(n);
    if AllGiven(n) {
      OwnerIsLookedUp(s, t);
      ForwardScanFindsOwner(s, t);
      GivenIsPresentOnly(n.routeHash);
      GivenIsPresentOnly(n.sourceTurnId);
      UpdateKeepsInv(s, Create(n, id, now), Saved);
      CreateStep(s, n, id, now, t);
      OwnerIsLookedUp(CreateSurface(s, n, id, now).0, t);
      if Owner(s, t).Some? {
        SameBindingIsBinds(Owner(s, t).value, n);
      }
    }
  }

  /** A create in one thread leaves what is looked up in any other thread as it was. */
  lemma CreateLeavesOtherThreads(s: LedgerState, n: NewSurface, id: string, now: Time, q: Thread)
    requires q != Thread(n.providerId, n.accountId, n.conversationId, n.threadId)
    ensures LookupSurface(CreateSurface(s, n, id, now).0, q) == LookupSurface(s, q)
  {
    var after := CreateSurface(s, n, id, now).0;
    if after != s {
      var record := after.surfaces[|s.surfaces|];
      assert ThreadOf(record) != q;
      LastEndPushed(s.surfaces, record, q);
    }
  }

  lemma LastEndPushed(surfaces: seq<Surface>, x: Surface, q: Thread)
    requires ThreadOf(x) != q
    ensures LastOfThreadEnd(surfaces + [x], q) == LastOfThreadEnd(surfaces, q)
  {
    var after := surfaces + [x];
    var i, j := LastOfThreadEnd(surfaces, q), LastOfThreadEnd(after, q);
    assert forall k :: 0 <= k < |surfaces| ==> after[k] == surfaces[k];
    assert j <= |surfaces|;
    assert i <= j;
  }

  /** A lookup is refused exactly for a blank field. */
  lemma LookupRefusedIffBlank(s: LedgerState, q: Thread)
    ensures LookupSurface(s, q) == Err(MissingField)
      <==> Blank(q.providerId) || Blank(q.accountId) || Blank(q.conversationId) || Blank(q.threadId)
  {
    PresentIffTrimNonEmpty(q.providerId);
    PresentIffTrimNonEmpty(q.accountId);
    PresentIffTrimNonEmpty(q.conversationId);
    PresentIffTrimNonEmpty(q.threadId);
  }

  /** Closing the surface that a lookup hits ends it: the next lookup says that it is closed. */
  lemma CloseAnswers(s: LedgerState, t: Thread)
    requires Inv(s) && ValidThread(t) && LookupSurface(s, t).value.Hit?
    requires LookupSurface(s, t).value.surface.status == Open && !Blank(LookupSurface(s, t).value.surface.surfaceId)
    ensures var id := LookupSurface(s, t).value.surface.surfaceId;
      var (after, answer) := CloseSurface(s, id);
      answer == Ok(true) && LookupSurface(after, t) == Ok(ClosedSurface(id))
  {
    var end := LastOfThreadEnd(s.surfaces, t);
    var id := SurfaceIdOf(s.surfaces[end - 1]);
    PresentIffTrimNonEmpty(id);
    assert SurfaceIndex(s.surfaces, id) == end - 1;
    var after := CloseSurface(s, id).0;
    assert forall k :: 0 <= k < |s.surfaces| ==> ThreadOf(after.surfaces[k]) == ThreadOf(s.surfaces[k]);
    SameThreadsSameEnd(s.surfaces, after.surfaces, t);
  }

  /** A close says yes exactly if there is an open surface of that id, and changes nothing otherwise. */
  lemma CloseSaysYesIffOpen(s: LedgerState, id: string)
    requires Inv(s)
    ensures var (after, answer) := CloseSurface(s, id);
      if Blank(id) then answer == Err(MissingField) && after == s
      else
        && answer == Ok(exists x :: x in s.surfaces && x.facts.surfaceId == id && x.facts.status == Open)
        && (answer == Ok(false) ==> after == s)
  {
    PresentIffTrimNonEmpty(id);
    var c := SurfaceIndex(s.surfaces, id);
    if c < |s.surfaces| {
      assert s.surfaces[c] in s.surfaces;
      forall x | x in s.surfaces && x.facts.surfaceId == id
        ensures x == s.surfaces[c]
      {
        var j :| 0 <= j < |s.surfaces| && s.surfaces[j] == x;
        assert SurfaceIdOf(s.surfaces[j]) == SurfaceIdOf(s.surfaces[c]);
      }
    }
  }

  lemma SameThreadsSameEnd(a: seq<Surface>, b: seq<Surface>, t: Thread)
    requires |a| == |b| && forall k :: 0 <= k < |a| ==> ThreadOf(a[k]) == ThreadOf(b[k])
    ensures LastOfThreadEnd(a, t) == LastOfThreadEnd(b, t)
  {
    var i, j := LastOfThreadEnd(a, t), LastOfThreadEnd(b, t);
    assert i <= j;
  }

  // ---- continuation turns ----

  /** The whole answer to recording a continuation turn: new, already recorded for this surface, or taken. */
  lemma TurnAnswers(s: LedgerState, input: TurnInput, now: Time)
    requires KeysUnique(s.turns, TurnKeyOf)
    ensures var (after, answer) := RecordTurn(s, input, now);
      var e := Find(s.turns, TurnKeyOf, (input.sessionId, input.turnId));
      if Blank(input.surfaceId) || Blank(input.sessionId) || Blank(input.turnId) then
        answer == Err(MissingField) && after == s
      else if e.None? then
        && answer == Ok(true)
        && after == s.(turns := s.turns + [TurnRecord(input.surfaceId, input.sessionId, input.turnId, now)])
      else if e.value.surfaceId == input.surfaceId then answer == Ok(false) && after == s
      else answer == Err(OtherSurface) && after == s
  {
    PresentIffTrimNonEmpty(input.surfaceId);
    PresentIffTrimNonEmpty(input.sessionId);
    PresentIffTrimNonEmpty(input.turnId);
    TurnIndexIsFind(s.turns, (input.sessionId, input.turnId));
  }
}
