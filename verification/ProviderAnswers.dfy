/** When a reply is ready to be executed, told by the fields of the reply and of what it belongs to. */
module ProviderAnswers {
  import opened Basics
  import opened Text
  import opened CompositeKeys
  import opened ResponseSurfaceLedger
  import opened ResponseSurfaceAnswers
  import opened ProviderInbound
  import Runs = ResponseSurfaceRuns
  import Bridge = BridgeBindingLedger

  /** The mode is the reply's own and can take replies: over a local connection, without a public endpoint,
      with stable event ids and a surface to reply on. */
  predicate TakesReply(p: Capability, r: ProviderReply) {
    && p.mode == r.mode && p.providerType == r.providerType
    && p.localConnection && !p.publicEndpoint && p.stableEventId && p.replySurface
  }

  function EventFor(r: ProviderReply, surfaceId: string): EventInput {
    EventInput(r.providerId, r.providerType, r.accountId, r.conversationId, r.eventId, surfaceId)
  }

  /** The event of the reply is new, complete, and its claim was saved. */
  ghost predicate IsNewlyClaimed(s: LedgerState, r: ProviderReply, surfaceId: string, io: SaveOutcome) {
    !HasBlankField(EventFor(r, surfaceId)) && RecordFor(s.events, EventFor(r, surfaceId)).None? && io == Saved
  }

  lemma OnlyGrantedClaimsChange(s: LedgerState, e: EventInput, now: Time)
    requires Runs.Inv(s)
    ensures var (after, answer) := ClaimEvent(s, e, now);
      after != s <==> answer.Ok? && answer.value.Claimed?
  {
    ClaimAnswers(s, e, now);
    var after := ClaimEvent(s, e, now).0;
    assert after.events != s.events || after == s;
  }

  /** What the claimer hears: the answer, unless a claim that was granted could not be saved. */
  lemma ClaimIsHeard(s: LedgerState, e: EventInput, now: Time, io: SaveOutcome)
    requires Runs.Inv(s)
    ensures var heard, answer := ReplyTo(s, Claim(e, now), io).claim, ClaimEvent(s, e, now).1;
      heard == if answer.Ok? && answer.value.Claimed? && io != Saved then Err(SaveFailed) else answer
  {
    OnlyGrantedClaimsChange(s, e, now);
  }

  lemma ClaimDecides(s: LedgerState, r: ProviderReply, facts: SurfaceFacts, now: Time, io: SaveOutcome)
    requires Runs.Inv(s)
    ensures var d := Decide(ReplyTo(s, Claim(EventOfReply(r, facts.surfaceId), now), io).claim, r, facts);
      var hash := Digest(r.providerType, r.providerId, r.accountId, r.conversationId, r.eventId);
      && (d.Ok? && d.value.Ready? <==> IsNewlyClaimed(s, r, facts.surfaceId, io))
      && (d.Ok? && d.value.Ready? ==> d.value == Ready(r, facts, hash))
  {
    ClaimIsHeard(s, EventFor(r, facts.surfaceId), now, io);
    ClaimAnswers(s, EventFor(r, facts.surfaceId), now);
  }

  lemma TargetOfSurfaceReply(s: LedgerState, p: Capability, r: ProviderReply)
    ensures var t, found :=
      SurfaceTarget(s, p, r), LookupSurface(s, Thread(r.providerId, r.accountId, r.conversationId, r.threadId));
      && (t.ClaimFor? <==> TakesReply(p, r) && found.Ok? && found.value.Hit?)
      && (t.ClaimFor? ==> found == Ok(Hit(t.facts)))
      && (t.Answer? ==> !(t.result.Ok? && t.result.value.Ready?))
  {
  }

  /** A surface reply becomes ready exactly if its mode takes it, a lookup in its own thread hits, and its
      event is newly claimed; it then carries the surface that was hit. */
  lemma SurfaceReplyIsReadyIff(s: LedgerState, p: Capability, r: ProviderReply, now: Time, io: SaveOutcome)
    requires Runs.Inv(s)
    ensures var d := DecisionOf(s, SurfaceReply(p, r, now), io);
      var found := LookupSurface(s, Thread(r.providerId, r.accountId, r.conversationId, r.threadId));
      var hash := Digest(r.providerType, r.providerId, r.accountId, r.conversationId, r.eventId);
      && (d.Ok? && d.value.Ready? <==>
            TakesReply(p, r) && found.Ok? && found.value.Hit?
              && IsNewlyClaimed(s, r, found.value.surface.surfaceId, io))
      && (d.Ok? && d.value.Ready? ==> d.value == Ready(r, found.value.surface, hash))
  {
    TargetOfSurfaceReply(s, p, r);
    match SurfaceTarget(s, p, r)
    case Answer(_) =>
    case ClaimFor(found) => ClaimDecides(s, r, found, now, io);
  }

  /** What a reply is told whose claim was asked for but not granted, or not saved. */
  lemma ClaimRefusedAnswer(s: LedgerState, r: ProviderReply, facts: SurfaceFacts, now: Time, io: SaveOutcome)
    requires Runs.Inv(s)
    ensures var d := Decide(ReplyTo(s, Claim(EventOfReply(r, facts.surfaceId), now), io).claim, r, facts);
      var e, known := EventFor(r, facts.surfaceId), RecordFor(s.events, EventFor(r, facts.surfaceId));
      if HasBlankField(e) then d == Err(LedgerRefused(MissingField))
      else if known.Some? then
        d == Ok(Skip(if known.value.status in {ClaimedBeforeSubmit, SubmittedPossible}
                     then EventAlreadyProcessing(known.value.surfaceId) else DuplicateEvent(known.value.surfaceId)))
      else io == Saved || d == Err(LedgerRefused(SaveFailed))
  {
    ClaimIsHeard(s, EventFor(r, facts.surfaceId), now, io);
    ClaimAnswers(s, EventFor(r, facts.surfaceId), now);
  }

  /** Why a surface reply is not even claimed, and that an event that is known is skipped with the surface
      it was recorded for. */
  lemma SurfaceReplyRefused(s: LedgerState, p: Capability, r: ProviderReply, now: Time, io: SaveOutcome)
    requires Runs.Inv(s)
    ensures var d := DecisionOf(s, SurfaceReply(p, r, now), io);
      var found := LookupSurface(s, Thread(r.providerId, r.accountId, r.conversationId, r.threadId));
      if p.mode != r.mode || p.providerType != r.providerType then d == Err(ModeMismatch)
      else if !TakesReply(p, r) then d == Ok(Skip(UnsupportedMode))
      else if found.Err? then d == Err(LedgerRefused(MissingField))
      else if found.value.Miss? then d == Ok(Skip(LookupMiss))
      else if found.value.ClosedSurface? then d == Ok(Skip(SurfaceIsClosed(found.value.surfaceId)))
      else
        d == Decide(ReplyTo(s, Claim(EventFor(r, found.value.surface.surfaceId), now), io).claim, r,
                    found.value.surface)
  {
  }

  /** The same for a reply in a bridged thread. */
  lemma ThreadReplyRefused(s: LedgerState, p: Capability, b: Bridge.ThreadBinding, r: ProviderReply, now: Time,
                           io: SaveOutcome)
    ensures var d := DecisionOf(s, ThreadReply(p, b, r, now), io);
      if p.mode != r.mode || p.providerType != r.providerType then d == Err(ModeMismatch)
      else if !IsBindingOf(b, r) then d == Err(BindingMismatch)
      else TakesReply(p, r) || d == Ok(Skip(UnsupportedMode))
  {
  }

  /** The binding is of the reply's own thread. */
  predicate IsBindingOf(b: Bridge.ThreadBinding, r: ProviderReply) {
    && b.key.room.providerId == r.providerId && b.key.room.providerType == r.providerType
    && b.key.room.accountId == r.accountId && b.key.room.conversationId == r.conversationId
    && b.key.threadId == r.threadId
  }

  /** The facts stand for the bound session in the reply's thread. */
  predicate StandFor(f: SurfaceFacts, b: Bridge.ThreadBinding, r: ProviderReply) {
    && f.sourceId == b.source.sourceId && f.sourceType == b.source.sourceType
    && f.sourceSessionId == b.source.sessionId && f.sourceTurnId.None?
    && f.providerId == r.providerId && f.providerType == r.providerType && f.providerMode == r.mode
    && f.accountId == r.accountId && f.conversationId == r.conversationId && f.threadId == r.threadId
    && f.routeHash == b.routeHash && f.status == Open && f.surfaceId == BridgeSurfaceId(b)
  }

  /** A reply in a bridged thread becomes ready exactly if its mode takes it, the binding is of its own
      thread, and its event is newly claimed; it then runs in the bound session. */
  lemma ThreadReplyIsReadyIff(s: LedgerState, p: Capability, b: Bridge.ThreadBinding, r: ProviderReply, now: Time,
                              io: SaveOutcome)
    requires Runs.Inv(s)
    ensures var d := DecisionOf(s, ThreadReply(p, b, r, now), io);
      && ((d.Ok? && d.value.Ready?) <==>
            TakesReply(p, r) && IsBindingOf(b, r) && IsNewlyClaimed(s, r, BridgeSurfaceId(b), io))
      && (d.Ok? && d.value.Ready? ==> d.value.reply == r && StandFor(d.value.surface, b, r))
  {
    match BindingTarget(p, b, r)
    case Answer(_) =>
    case ClaimFor(facts) =>
      ClaimDecides(s, r, facts, now, io);
  }

  /** Same provider, type, account, conversation and event id. */
  predicate SameProviderEvent(a: ProviderReply, b: ProviderReply) {
    && a.providerId == b.providerId && a.providerType == b.providerType && a.accountId == b.accountId
    && a.conversationId == b.conversationId && a.eventId == b.eventId
  }

  lemma ClaimLeavesRest(s: LedgerState, step: Step, io: SaveOutcome)
    requires !step.Other?
    ensures var after := Next(s, OpOf(s, step), io);
      && after.surfaces == s.surfaces
      && (after == s || exists id :: after == ClaimEvent(s, EventFor(step.reply, id), step.now).0)
  {
    match TargetOf(s, step)
    case Answer(_) =>
    case ClaimFor(facts) =>
      assert EventFor(step.reply, facts.surfaceId) == EventOfReply(step.reply, facts.surfaceId);
  }

  /** Replies to different events do not touch each other: what one reply is told is the same before and
      after the other, whichever way either came in. */
  lemma RepliesAreIndependent(s: LedgerState, a: Step, b: Step, first: SaveOutcome, second: SaveOutcome)
    requires Runs.Inv(s) && !a.Other? && !b.Other? && !SameProviderEvent(a.reply, b.reply)
    ensures DecisionOf(Next(s, OpOf(s, a), first), b, second) == DecisionOf(s, b, second)
  {
    var after := Next(s, OpOf(s, a), first);
    ClaimLeavesRest(s, a, first);
    if after != s {
      var id :| after == ClaimEvent(s, EventFor(a.reply, id), a.now).0;
      SameTarget(s, after, b);
      match TargetOf(s, b)
      case Answer(_) =>
      case ClaimFor(facts) => OtherClaimIsAnsweredAlike(s, EventFor(a.reply, id), a.now, b.reply, facts, b.now, second);
    }
  }

  lemma SameTarget(s: LedgerState, after: LedgerState, b: Step)
    requires after.surfaces == s.surfaces && !b.Other?
    ensures TargetOf(after, b) == TargetOf(s, b)
  {
  }

  lemma OtherClaimIsAnsweredAlike(s: LedgerState, e: EventInput, t: Time, r: ProviderReply, facts: SurfaceFacts,
                                  u: Time, io: SaveOutcome)
    requires Runs.Inv(s) && !SameEvent(e, EventFor(r, facts.surfaceId))
    ensures var after, mine := ClaimEvent(s, e, t).0, Claim(EventOfReply(r, facts.surfaceId), u);
      ReplyTo(after, mine, io).claim == ReplyTo(s, mine, io).claim
  {
    var mine := EventFor(r, facts.surfaceId);
    Runs.UpdateKeepsInv(s, Claim(e, t), Saved);
    ClaimIsHeard(s, mine, u, io);
    ClaimIsHeard(ClaimEvent(s, e, t).0, mine, u, io);
    ClaimsAreIndependent(s, e, mine, t, u);
  }

  // ---- the surface that stands for a bridged thread ----

  predicate IsLineFree(b: Bridge.ThreadBinding) {
    && '\n' !in b.key.room.providerId && '\n' !in b.key.room.providerType && '\n' !in b.key.room.accountId
    && '\n' !in b.key.room.conversationId && '\n' !in b.key.threadId
    && '\n' !in b.source.sourceId && '\n' !in b.source.sourceType && '\n' !in b.source.sessionId
  }

  lemma LinesAreFree(b: Bridge.ThreadBinding)
    requires IsLineFree(b)
    ensures Free(BridgeSurfaceLines(b), '\n')
  {
  }

  /** Different threads or sessions have different surfaces, as long as no id holds a line break. */
  lemma BridgeSurfacesDiffer(a: Bridge.ThreadBinding, b: Bridge.ThreadBinding)
    requires IsLineFree(a) && IsLineFree(b)
    ensures BridgeSurfaceId(a) == BridgeSurfaceId(b) <==> a.key == b.key && a.source == b.source
  {
    var x, y := BridgeSurfaceLines(a), BridgeSurfaceLines(b);
    PrefixCancels("bridge-thread-", Terminated(x, '\n'), Terminated(y, '\n'));
    if BridgeSurfaceId(a) == BridgeSurfaceId(b) {
      LinesAreFree(a);
      LinesAreFree(b);
      TerminatedInjective(x, y, '\n');
      LinesTell(a, b);
    }
  }

  lemma LinesTell(a: Bridge.ThreadBinding, b: Bridge.ThreadBinding)
    requires BridgeSurfaceLines(a) == BridgeSurfaceLines(b)
    ensures a.key == b.key && a.source == b.source
  {
    var x, y := BridgeSurfaceLines(a), BridgeSurfaceLines(b);
    assert x[1] == y[1] && x[2] == y[2] && x[3] == y[3] && x[4] == y[4];
    assert x[5] == y[5] && x[6] == y[6] && x[7] == y[7] && x[8] == y[8];
    PrefixCancels("provider.id=", a.key.room.providerId, b.key.room.providerId);
    PrefixCancels("provider.type=", a.key.room.providerType, b.key.room.providerType);
    PrefixCancels("provider.account.id=", a.key.room.accountId, b.key.room.accountId);
    PrefixCancels("provider.conversation.id=", a.key.room.conversationId, b.key.room.conversationId);
    PrefixCancels("provider.thread.id=", a.key.threadId, b.key.threadId);
    PrefixCancels("source.id=", a.source.sourceId, b.source.sourceId);
    PrefixCancels("source.type=", a.source.sourceType, b.source.sourceType);
    PrefixCancels("source.session.id=", a.source.sessionId, b.source.sessionId);
  }
}
