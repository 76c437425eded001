/**
 Accepting replies from a provider: find the session a reply belongs to, then claim the event.

 A reply in a thread with a surface goes through the surface table, one in a bridged thread
 through its thread binding. Both claim in the same ledger.
 */
module ProviderInbound {
  import opened Basics
  import opened CompositeKeys
  import opened ResponseSurfaceLedger
  import Runs = ResponseSurfaceRuns
  import Bridge = BridgeBindingLedger

  // What the catalogue says about a provider mode.
  datatype Capability = Capability(
    mode: string, providerType: string, localConnection: bool, publicEndpoint: bool,
    stableEventId: bool, replySurface: bool)

  datatype ProviderReply = ProviderReply(
    providerId: string, providerType: string, mode: string, accountId: string, conversationId: string,
    threadId: string, eventId: string, messageId: Option<string>, text: string)

  datatype SkipReason =
    | UnsupportedMode
    | LookupMiss
    | SurfaceIsClosed(surfaceId: string)
    | DuplicateEvent(surfaceId: string)
    | EventAlreadyProcessing(surfaceId: string)

  datatype Decision = Ready(reply: ProviderReply, surface: SurfaceFacts, hash: Digest) | Skip(reason: SkipReason)

  datatype InboundError = ModeMismatch | BindingMismatch | LedgerRefused(error: LedgerError)

  predicate AcceptsLocalReplies(p: Capability) {
    p.localConnection && !p.publicEndpoint && p.stableEventId && p.replySurface
  }

  function ThreadOfReply(r: ProviderReply): Thread {
    Thread(r.providerId, r.accountId, r.conversationId, r.threadId)
  }

  /** Neither the text nor the surface takes part in the identity of the event. */
  function EventOfReply(r: ProviderReply, surfaceId: string): EventInput {
    EventInput(r.providerId, r.providerType, r.accountId, r.conversationId, r.eventId, surfaceId)
  }

  function EventKeyOfReply(r: ProviderReply): EventKey {
    KeyOfInput(EventOfReply(r, ""))
  }

  predicate BindingFits(b: Bridge.ThreadBinding, r: ProviderReply) {
    b.key == Bridge.ThreadKey(Bridge.Room(r.providerId, r.providerType, r.accountId, r.conversationId), r.threadId)
  }

  /** The lines that are hashed into the surface id of a bridged thread. */
  function BridgeSurfaceLines(b: Bridge.ThreadBinding): seq<string> {
    ["v=1",
     "provider.id=" + b.key.room.providerId,
     "provider.type=" + b.key.room.providerType,
     "provider.account.id=" + b.key.room.accountId,
     "provider.conversation.id=" + b.key.room.conversationId,
     "provider.thread.id=" + b.key.threadId,
     "source.id=" + b.source.sourceId,
     "source.type=" + b.source.sourceType,
     "source.session.id=" + b.source.sessionId]
  }

  /** The hashed text stands for its digest. */
  function BridgeSurfaceId(b: Bridge.ThreadBinding): string {
    "bridge-thread-" + Terminated(BridgeSurfaceLines(b), '\n')
  }

  function FactsOfBinding(b: Bridge.ThreadBinding, mode: string): SurfaceFacts {
    var room := b.key.room;
    SurfaceFacts(BridgeSurfaceId(b), "bridge-thread-binding", "bridge-thread-binding",
                 b.source.sourceId, b.source.sourceType, b.source.sessionId, None,
                 room.providerId, room.providerType, mode, room.accountId, room.conversationId,
                 b.key.threadId, b.key.threadId, b.routeHash, Open)
  }

  // ---- which ledger operation a reply leads to ----

  // The surface the event is claimed for, or the answer given without claiming.
  datatype Target = ClaimFor(facts: SurfaceFacts) | Answer(result: Result<Decision, InboundError>)

  function SurfaceTarget(s: LedgerState, p: Capability, r: ProviderReply): Target {
    if p.mode != r.mode || p.providerType != r.providerType then Answer(Err(ModeMismatch))
    else if !AcceptsLocalReplies(p) then Answer(Ok(Skip(UnsupportedMode)))
    else
      match LookupSurface(s, ThreadOfReply(r))
      case Err(e) => Answer(Err(LedgerRefused(e)))
      case Ok(Miss) => Answer(Ok(Skip(LookupMiss)))
      case Ok(ClosedSurface(id)) => Answer(Ok(Skip(SurfaceIsClosed(id))))
      case Ok(Hit(facts)) => ClaimFor(facts)
  }

  function BindingTarget(p: Capability, b: Bridge.ThreadBinding, r: ProviderReply): Target {
    if p.mode != r.mode || p.providerType != r.providerType then Answer(Err(ModeMismatch))
    else if !BindingFits(b, r) then Answer(Err(BindingMismatch))
    else if !AcceptsLocalReplies(p) then Answer(Ok(Skip(UnsupportedMode)))
    else ClaimFor(FactsOfBinding(b, p.mode))
  }

  function Decide(claim: Result<ClaimDecision, LedgerError>, r: ProviderReply, facts: SurfaceFacts)
    : Result<Decision, InboundError>
  {
    match claim
    case Err(e) => Err(LedgerRefused(e))
    case Ok(Claimed(hash)) => Ok(Ready(r, facts, hash))
    case Ok(AlreadyProcessing(_, id, _)) => Ok(Skip(EventAlreadyProcessing(id)))
    case Ok(DuplicateProcessed(_, id, _)) => Ok(Skip(DuplicateEvent(id)))
  }

  method ClaimReply(ledger: Ledger, r: ProviderReply, facts: SurfaceFacts, now: Time, io: SaveOutcome)
    returns (d: Result<Decision, InboundError>)
    modifies ledger, ledger.file
    ensures var before, event := old(ledger.State()), EventOfReply(r, facts.surfaceId);
      && ledger.State() == Apply(before, Claim(event, now))
      && ledger.file.contents == OnDisk(before, ledger.State(), old(ledger.file.contents), io)
      && d == Decide(ReplyTo(before, Claim(event, now), io).claim, r, facts)
  {
    var claim := ledger.ClaimInboundEventAt(EventOfReply(r, facts.surfaceId), now, io);
    match claim {
      case Err(e) => d := Err(LedgerRefused(e));
      case Ok(Claimed(hash)) => d := Ok(Ready(r, facts, hash));
      case Ok(AlreadyProcessing(_, id, _)) => d := Ok(Skip(EventAlreadyProcessing(id)));
      case Ok(DuplicateProcessed(_, id, _)) => d := Ok(Skip(DuplicateEvent(id)));
    }
  }

  method LookupAndClaimSurfaceReply(ledger: Ledger, p: Capability, r: ProviderReply, now: Time, io: SaveOutcome)
    returns (d: Result<Decision, InboundError>)
    modifies ledger, ledger.file
    ensures Outcome(old(ledger.State()), ledger.State(), old(ledger.file.contents), ledger.file.contents,
                    SurfaceTarget(old(ledger.State()), p, r), r, now, io, d)
  {
    if p.mode != r.mode || p.providerType != r.providerType {
      return Err(ModeMismatch);
    }
    if !AcceptsLocalReplies(p) {
      return Ok(Skip(UnsupportedMode));
    }
    var lookup := ledger.LookupSurfaceAt(ThreadOfReply(r));
    match lookup {
      case Err(e) => d := Err(LedgerRefused(e));
      case Ok(Miss) => d := Ok(Skip(LookupMiss));
      case Ok(ClosedSurface(id)) => d := Ok(Skip(SurfaceIsClosed(id)));
      case Ok(Hit(facts)) => d := ClaimReply(ledger, r, facts, now, io);
    }
  }

  method LookupAndClaimThreadReply(ledger: Ledger, p: Capability, b: Bridge.ThreadBinding, r: ProviderReply, now: Time,
                                   io: SaveOutcome)
    returns (d: Result<Decision, InboundError>)
    modifies ledger, ledger.file
    ensures Outcome(old(ledger.State()), ledger.State(), old(ledger.file.contents), ledger.file.contents,
                    BindingTarget(p, b, r), r, now, io, d)
  {
    if p.mode != r.mode || p.providerType != r.providerType {
      return Err(ModeMismatch);
    }
    if !BindingFits(b, r) {
      return Err(BindingMismatch);
    }
    if !AcceptsLocalReplies(p) {
      return Ok(Skip(UnsupportedMode));
    }
    d := ClaimReply(ledger, r, FactsOfBinding(b, p.mode), now, io);
  }

  /** A reply either claims its event for the target surface, or leaves ledger and file alone. */
  predicate Outcome(before: LedgerState, after: LedgerState, diskBefore: LedgerState, diskAfter: LedgerState,
                    target: Target, r: ProviderReply, now: Time, io: SaveOutcome, d: Result<Decision, InboundError>) {
    match target
    case Answer(result) => after == before && diskAfter == diskBefore && d == result
    case ClaimFor(facts) =>
      var claim := Claim(EventOfReply(r, facts.surfaceId), now);
      && after == Apply(before, claim)
      && diskAfter == OnDisk(before, after, diskBefore, io)
      && d == Decide(ReplyTo(before, claim, io).claim, r, facts)
  }

  // ---- runs that mix both kinds of replies with every other ledger operation ----

  datatype Step =
    | SurfaceReply(capability: Capability, reply: ProviderReply, now: Time)
    | ThreadReply(capability: Capability, binding: Bridge.ThreadBinding, reply: ProviderReply, now: Time)
    | Other(op: Op)

  /** A reply that claims nothing reads the ledger and no more. */
  function OpOf(s: LedgerState, step: Step): Op {
    match step
    case Other(op) => op
    case SurfaceReply(p, r, now) => OpFor(SurfaceTarget(s, p, r), r, now)
    case ThreadReply(p, b, r, now) => OpFor(BindingTarget(p, b, r), r, now)
  }

  function OpFor(target: Target, r: ProviderReply, now: Time): Op {
    match target
    case Answer(_) => Lookup(ThreadOfReply(r))
    case ClaimFor(facts) => Claim(EventOfReply(r, facts.surfaceId), now)
  }

  function TargetOf(s: LedgerState, step: Step): Target
    requires !step.Other?
  {
    if step.SurfaceReply? then SurfaceTarget(s, step.capability, step.reply)
    else BindingTarget(step.capability, step.binding, step.reply)
  }

  /** What the caller of a reply step is told. */
  function DecisionOf(s: LedgerState, step: Step, io: SaveOutcome): Result<Decision, InboundError>
    requires !step.Other?
  {
    match TargetOf(s, step)
    case Answer(result) => result
    case ClaimFor(facts) => Decide(ReplyTo(s, OpOf(s, step), io).claim, step.reply, facts)
  }

  /** Run on a freshly loaded ledger, a reply is exactly one update of the file. */
  lemma ReplyIsOneUpdate(disk: LedgerState, after: LedgerState, diskAfter: LedgerState, step: Step, io: SaveOutcome,
                         d: Result<Decision, InboundError>)
    requires !step.Other?
    requires Outcome(disk, after, disk, diskAfter, TargetOf(disk, step), step.reply, step.now, io, d)
    ensures diskAfter == Next(disk, OpOf(disk, step), io)
    ensures d == DecisionOf(disk, step, io)
    ensures TargetOf(disk, step).Answer? ==> diskAfter == disk
  {
  }

  ghost predicate FollowsSteps(run: Runs.Run, steps: seq<Step>) {
    && run.Valid() && |steps| == |run.updates|
    && forall i :: 0 <= i < |steps| ==> run.updates[i].op == OpOf(run.states[i], steps[i])
  }

  ghost predicate ReadyAt(run: Runs.Run, steps: seq<Step>, i: nat, k: EventKey)
    requires FollowsSteps(run, steps) && i < |steps|
  {
    && !steps[i].Other? && EventKeyOfReply(steps[i].reply) == k
    && var d := DecisionOf(run.states[i], steps[i], run.updates[i].io); d.Ok? && d.value.Ready?
  }

  lemma ReadyIsClaimed(run: Runs.Run, steps: seq<Step>, i: nat, k: EventKey)
    requires FollowsSteps(run, steps) && i < |steps| && ReadyAt(run, steps, i, k)
    ensures run.Claimed(i, k)
  {
    assert run.StepValid(i);
  }

  /** Replies claim or look up, so a release is another operation. */
  lemma ReleaseIsOther(run: Runs.Run, steps: seq<Step>, m: nat, k: EventKey)
    requires FollowsSteps(run, steps) && m < |steps| && run.Released(m, k)
    ensures steps[m].Other?
  {
    assert run.updates[m].op == OpOf(run.states[m], steps[m]);
  }

  /** One execution per event: over any interleaving of surface replies, thread-binding replies and
      other updates, two `Ready` answers for one provider event have a release in between. */
  lemma ReadyOncePerEvent(run: Runs.Run, steps: seq<Step>, i: nat, j: nat, k: EventKey)
    requires FollowsSteps(run, steps) && i < j < |steps|
    requires ReadyAt(run, steps, i, k) && ReadyAt(run, steps, j, k)
    ensures exists m :: i < m < j && run.Released(m, k) && steps[m].Other?
  {
    ReadyIsClaimed(run, steps, i, k);
    ReadyIsClaimed(run, steps, j, k);
    Runs.ClaimsAreSeparatedByRelease(run, i, j, k);
    var m :| i < m < j && run.Released(m, k);
    ReleaseIsOther(run, steps, m, k);
  }

  /** After an event was submitted, or finished, no reply for it becomes `Ready` again. */
  lemma NeverReadyAfterSubmit(run: Runs.Run, steps: seq<Step>, i: nat, j: nat, k: EventKey)
    requires FollowsSteps(run, steps) && i <= j < |steps|
    requires run.Event(i, k).Some? && run.Event(i, k).value.status != ClaimedBeforeSubmit
    ensures !ReadyAt(run, steps, j, k)
  {
    Runs.SubmittedNeverClaimedOrReleased(run, i, j, k);
    if ReadyAt(run, steps, j, k) {
      ReadyIsClaimed(run, steps, j, k);
    }
  }

  lemma ClaimedIsReady(s: LedgerState, r: ProviderReply, facts: SurfaceFacts, now: Time, io: SaveOutcome)
    ensures var d := Decide(ReplyTo(s, Claim(EventOfReply(r, facts.surfaceId), now), io).claim, r, facts);
      d.Ok? && d.value.Ready? ==> d.value == Ready(r, facts, EventKeyOfReply(r).hash)
  {
  }

  lemma ReadyIsHit(s: LedgerState, p: Capability, r: ProviderReply, now: Time, io: SaveOutcome)
    ensures var d, lookup := DecisionOf(s, SurfaceReply(p, r, now), io), LookupSurface(s, ThreadOfReply(r));
      d.Ok? && d.value.Ready? ==>
        lookup == Ok(Hit(d.value.surface)) && d.value.reply == r && d.value.hash == EventKeyOfReply(r).hash
  {
    match SurfaceTarget(s, p, r)
    case Answer(_) =>
    case ClaimFor(facts) => ClaimedIsReady(s, r, facts, now, io);
  }

  /** A `Ready` surface reply runs in the session that owns the thread at that moment. */
  lemma ReadyBelongsToThreadOwner(s: LedgerState, p: Capability, r: ProviderReply, now: Time, io: SaveOutcome)
    requires Runs.Inv(s)
    ensures var d := DecisionOf(s, SurfaceReply(p, r, now), io);
      d.Ok? && d.value.Ready? ==>
        && Runs.Owner(s, ThreadOfReply(r)).Some?
        && d.value.surface == Runs.Owner(s, ThreadOfReply(r)).value.facts
        && d.value.reply == r && d.value.hash == EventKeyOfReply(r).hash
  {
    ReadyIsHit(s, p, r, now, io);
    if LookupSurface(s, ThreadOfReply(r)).Ok? {
      Runs.ScansAgree(s, ThreadOfReply(r));
    }
  }
}
