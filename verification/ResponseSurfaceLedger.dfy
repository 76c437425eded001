/**
 The durable ledger of response surfaces and inbound events.

 A surface ties a provider thread to a source session. An inbound event is claimed before
 it is submitted to an agent and keeps a terminal status for ever afterwards. The functions
 describe what one operation does to the stored lists; the classes perform the operations.
 */
module ResponseSurfaceLedger {
  import opened Basics
  import opened Tables
  import opened Text

  datatype SurfaceStatus = Open | Closed | Expired

  // What a lookup reports about a surface: everything but its creation time.
  datatype SurfaceFacts = SurfaceFacts(
    surfaceId: string, signalId: string, deliveryId: string,
    sourceId: string, sourceType: string, sourceSessionId: string, sourceTurnId: Option<string>,
    providerId: string, providerType: string, providerMode: string,
    accountId: string, conversationId: string, messageId: string, threadId: string,
    routeHash: Option<string>, status: SurfaceStatus)

  datatype Surface = Surface(facts: SurfaceFacts, createdAt: Time)

  datatype NewSurface = NewSurface(
    signalId: string, deliveryId: string,
    sourceId: string, sourceType: string, sourceSessionId: string, sourceTurnId: Option<string>,
    providerId: string, providerType: string, providerMode: string,
    accountId: string, conversationId: string, messageId: string, threadId: string,
    routeHash: Option<string>)

  // A provider thread, which is also the whole of a surface lookup query.
  datatype Thread = Thread(providerId: string, accountId: string, conversationId: string, threadId: string)

  datatype LookupResult = Hit(surface: SurfaceFacts) | Miss | ClosedSurface(surfaceId: string)

  datatype EventStatus =
    ClaimedBeforeSubmit | SubmittedPossible | Processed | FailedNotified | SubmittedUnknownNotified
  {
    predicate IsProcessing() { ClaimedBeforeSubmit? || SubmittedPossible? }
    predicate IsTerminal() { Processed? || FailedNotified? || SubmittedUnknownNotified? }
  }

  datatype EventInput = EventInput(
    providerId: string, providerType: string, accountId: string, conversationId: string,
    eventId: string, surfaceId: string)

  // A SHA-256 digest, represented by the five fields it is taken over.
  datatype Digest = Digest(
    providerType: string, providerId: string, accountId: string, conversationId: string, eventId: string)

  datatype EventRecord = EventRecord(
    providerId: string, providerType: string, hash: Digest,
    surfaceId: string, status: EventStatus, receivedAt: Time)

  datatype EventKey = EventKey(providerId: string, providerType: string, hash: Digest)

  datatype RecoveryRecord = RecoveryRecord(event: EventRecord, accountId: string, conversationId: string,
                                           threadId: string)

  datatype TurnInput = TurnInput(surfaceId: string, sessionId: string, turnId: string)

  datatype TurnRecord = TurnRecord(surfaceId: string, sessionId: string, turnId: string, recordedAt: Time)

  datatype LedgerState = LedgerState(surfaces: seq<Surface>, events: seq<EventRecord>, turns: seq<TurnRecord>)

  const EMPTY := LedgerState([], [], [])

  datatype ClaimDecision =
    | Claimed(hash: Digest)
    | AlreadyProcessing(hash: Digest, surfaceId: string, status: EventStatus)
    | DuplicateProcessed(hash: Digest, surfaceId: string, status: EventStatus)

  datatype RecordDecision =
    | Recorded(hash: Digest, status: EventStatus)
    | Duplicate(hash: Digest, surfaceId: string, status: EventStatus)

  datatype LedgerError =
    | MissingField
    | ThreadAlreadyBound(surfaceId: string)
    | OtherSurface
    | NotTerminal
    | EventNotFound
    | NotClaimed
    | SaveFailed

  // ---- keys and validation ----

  function EventHash(e: EventInput): Digest {
    Digest(e.providerType, e.providerId, e.accountId, e.conversationId, e.eventId)
  }

  function KeyOfInput(e: EventInput): EventKey {
    EventKey(e.providerId, e.providerType, EventHash(e))
  }

  function EventKeyOf(r: EventRecord): EventKey {
    EventKey(r.providerId, r.providerType, r.hash)
  }

  function SurfaceIdOf(s: Surface): string { s.facts.surfaceId }

  function ThreadOf(s: Surface): Thread {
    Thread(s.facts.providerId, s.facts.accountId, s.facts.conversationId, s.facts.threadId)
  }

  function ThreadOfInput(n: NewSurface): Thread {
    Thread(n.providerId, n.accountId, n.conversationId, n.threadId)
  }

  function TurnKeyOf(t: TurnRecord): (string, string) { (t.sessionId, t.turnId) }

  predicate ValidSurface(n: NewSurface) {
    Present(n.signalId) && Present(n.deliveryId) && Present(n.sourceId) && Present(n.sourceType)
    && Present(n.sourceSessionId) && Present(n.providerId) && Present(n.providerType)
    && Present(n.accountId) && Present(n.conversationId) && Present(n.messageId) && Present(n.threadId)
  }

  predicate ValidThread(q: Thread) {
    Present(q.providerId) && Present(q.accountId) && Present(q.conversationId) && Present(q.threadId)
  }

  predicate ValidEvent(e: EventInput) {
    Present(e.providerId) && Present(e.providerType) && Present(e.accountId) && Present(e.conversationId)
    && Present(e.eventId) && Present(e.surfaceId)
  }

  predicate ValidTurn(t: TurnInput) {
    Present(t.surfaceId) && Present(t.sessionId) && Present(t.turnId)
  }

  function PresentOnly(value: Option<string>): Option<string> {
    if value.Some? && Present(value.value) then value else None
  }

  predicate SameBinding(s: Surface, n: NewSurface) {
    var f := s.facts;
    f.sourceId == n.sourceId && f.sourceType == n.sourceType && f.sourceSessionId == n.sourceSessionId
    && f.providerType == n.providerType && f.providerMode == n.providerMode
    && f.routeHash == PresentOnly(n.routeHash)
  }

  function NewRecord(n: NewSurface, surfaceId: string, now: Time): Surface {
    Surface(
      SurfaceFacts(surfaceId, n.signalId, n.deliveryId, n.sourceId, n.sourceType, n.sourceSessionId,
                   PresentOnly(n.sourceTurnId), n.providerId, n.providerType, n.providerMode,
                   n.accountId, n.conversationId, n.messageId, n.threadId, PresentOnly(n.routeHash), Open),
      now)
  }

  predicate Active(s: Surface) { s.facts.status != Closed }

  function FirstActive(surfaces: seq<Surface>, t: Thread): nat {
    FirstIndex(surfaces, (s: Surface) => Active(s) && ThreadOf(s) == t)
  }

  function LastOfThreadEnd(surfaces: seq<Surface>, t: Thread): nat {
    LastIndexEnd(surfaces, (s: Surface) => ThreadOf(s) == t)
  }

  function EventIndex(events: seq<EventRecord>, k: EventKey): nat {
    FirstIndex(events, (r: EventRecord) => EventKeyOf(r) == k)
  }

  function ReleasableIndex(events: seq<EventRecord>, input: EventInput): nat {
    FirstIndex(events, (r: EventRecord) =>
      EventKeyOf(r) == KeyOfInput(input) && r.surfaceId == input.surfaceId && r.status == ClaimedBeforeSubmit)
  }

  function SurfaceIndex(surfaces: seq<Surface>, id: string): nat {
    FirstIndex(surfaces, (s: Surface) => SurfaceIdOf(s) == id)
  }

  function TurnIndex(turns: seq<TurnRecord>, k: (string, string)): nat {
    FirstIndex(turns, (t: TurnRecord) => TurnKeyOf(t) == k)
  }

  // ---- what each operation does to the lists ----

  function CreateSurface(s: LedgerState, n: NewSurface, freshId: string, now: Time)
    : (LedgerState, Result<Surface, LedgerError>)
  {
    if !ValidSurface(n) then (s, Err(MissingField))
    else
      var i := FirstActive(s.surfaces, ThreadOfInput(n));
      if i < |s.surfaces| then
        if SameBinding(s.surfaces[i], n) then (s, Ok(s.surfaces[i]))
        else (s, Err(ThreadAlreadyBound(SurfaceIdOf(s.surfaces[i]))))
      else
        var record := NewRecord(n, freshId, now);
        (s.(surfaces := s.surfaces + [record]), Ok(record))
  }

  function LookupSurface(s: LedgerState, q: Thread): Result<LookupResult, LedgerError> {
    if !ValidThread(q) then Err(MissingField)
    else
      var end := LastOfThreadEnd(s.surfaces, q);
      if end == 0 then Ok(Miss)
      else
        var f := s.surfaces[end - 1].facts;
        Ok(if f.status == Closed then ClosedSurface(f.surfaceId) else Hit(f))
  }

  function CloseSurface(s: LedgerState, id: string): (LedgerState, Result<bool, LedgerError>) {
    if !Present(id) then (s, Err(MissingField))
    else
      var i := SurfaceIndex(s.surfaces, id);
      if i < |s.surfaces| && s.surfaces[i].facts.status == Open then
        var closed := s.surfaces[i].(facts := s.surfaces[i].facts.(status := Closed));
        (s.(surfaces := s.surfaces[i := closed]), Ok(true))
      else (s, Ok(false))
  }

  function ClaimEvent(s: LedgerState, input: EventInput, now: Time): (LedgerState, Result<ClaimDecision, LedgerError>) {
    if !ValidEvent(input) then (s, Err(MissingField))
    else
      var k := KeyOfInput(input);
      var i := EventIndex(s.events, k);
      if i < |s.events| then
        var r := s.events[i];
        (s, Ok(if r.status.IsProcessing() then AlreadyProcessing(k.hash, r.surfaceId, r.status)
               else DuplicateProcessed(k.hash, r.surfaceId, r.status)))
      else
        var r := EventRecord(k.providerId, k.providerType, k.hash, input.surfaceId, ClaimedBeforeSubmit, now);
        (s.(events := s.events + [r]), Ok(Claimed(k.hash)))
  }

  function RecordEvent(s: LedgerState, input: EventInput, status: EventStatus, now: Time)
    : (LedgerState, Result<RecordDecision, LedgerError>)
  {
    if !ValidEvent(input) then (s, Err(MissingField))
    else
      var k := KeyOfInput(input);
      var i := EventIndex(s.events, k);
      if i < |s.events| then
        var r := s.events[i];
        if r.surfaceId != input.surfaceId then (s, Err(OtherSurface))
        else if r.status == status || r.status.IsTerminal() then (s, Ok(Duplicate(k.hash, r.surfaceId, r.status)))
        else (s.(events := s.events[i := r.(status := status)]), Ok(Recorded(k.hash, status)))
      else if status != Processed then (s, Err(NotClaimed))
      else
        var r := EventRecord(k.providerId, k.providerType, k.hash, input.surfaceId, status, now);
        (s.(events := s.events + [r]), Ok(Recorded(k.hash, status)))
  }

  function ReleaseClaim(s: LedgerState, input: EventInput): (LedgerState, Result<bool, LedgerError>) {
    if !ValidEvent(input) then (s, Err(MissingField))
    else
      var i := ReleasableIndex(s.events, input);
      if i < |s.events| then (s.(events := s.events[..i] + s.events[i + 1..]), Ok(true))
      else (s, Ok(false))
  }

  function RecordEventByHash(s: LedgerState, k: EventKey, surfaceId: string, status: EventStatus)
    : (LedgerState, Result<RecordDecision, LedgerError>)
  {
    if !(Present(k.providerId) && Present(k.providerType) && Present(surfaceId)) then (s, Err(MissingField))
    else if !status.IsTerminal() then (s, Err(NotTerminal))
    else
      var i := EventIndex(s.events, k);
      if i == |s.events| then (s, Err(EventNotFound))
      else
        var r := s.events[i];
        if r.surfaceId != surfaceId then (s, Err(OtherSurface))
        else if r.status == status || r.status.IsTerminal() then (s, Ok(Duplicate(r.hash, r.surfaceId, r.status)))
        else (s.(events := s.events[i := r.(status := status)]), Ok(Recorded(k.hash, status)))
  }

  function RecordTurn(s: LedgerState, input: TurnInput, now: Time): (LedgerState, Result<bool, LedgerError>) {
    if !ValidTurn(input) then (s, Err(MissingField))
    else
      var i := TurnIndex(s.turns, (input.sessionId, input.turnId));
      if i < |s.turns| then
        if s.turns[i].surfaceId != input.surfaceId then (s, Err(OtherSurface)) else (s, Ok(false))
      else (s.(turns := s.turns + [TurnRecord(input.surfaceId, input.sessionId, input.turnId, now)]), Ok(true))
  }

  /** Events still being processed whose surface is in the surface table, in ledger order. */
  function RecoveryRecords(events: seq<EventRecord>, surfaces: seq<Surface>): (r: seq<RecoveryRecord>)
    ensures forall x :: x in r ==> x.event in events && x.event.status.IsProcessing()
  {
    if events == [] then []
    else
      var e := events[0];
      var i := SurfaceIndex(surfaces, e.surfaceId);
      (if e.status.IsProcessing() && i < |surfaces| then
         var f := surfaces[i].facts;
         [RecoveryRecord(e, f.accountId, f.conversationId, f.threadId)]
       else []) + RecoveryRecords(events[1..], surfaces)
  }

  // ---- one update of the stored file ----

  // How writing the temporary file and renaming it over the old one ended.
  datatype SaveOutcome =
    | Saved
    | FailedBeforeRename
    | StoppedAfterRename // the new file is in place but the caller never hears about it

  datatype Op =
    | Create(surface: NewSurface, freshId: string, now: Time)
    | Lookup(query: Thread)
    | Close(surfaceId: string)
    | Claim(input: EventInput, now: Time)
    | Record(input: EventInput, status: EventStatus, now: Time)
    | Release(input: EventInput)
    | RecordByHash(key: EventKey, surfaceId: string, status: EventStatus)
    | Turn(turn: TurnInput, now: Time)

  datatype Reply =
    | Created(result: Result<Surface, LedgerError>)
    | Found(lookup: Result<LookupResult, LedgerError>)
    | Changed(changed: Result<bool, LedgerError>)
    | Claiming(claim: Result<ClaimDecision, LedgerError>)
    | Recording(record: Result<RecordDecision, LedgerError>)

  /** The caller sees the result only if nothing had to be saved or the save completed. */
  function Settle<T>(before: LedgerState, after: LedgerState, r: Result<T, LedgerError>, io: SaveOutcome)
    : Result<T, LedgerError>
  {
    if after != before && io != Saved then Err(SaveFailed) else r
  }

  /** An operation saves exactly when it changed the state. */
  function OnDisk(before: LedgerState, after: LedgerState, disk: LedgerState, io: SaveOutcome): LedgerState {
    if after != before && io != FailedBeforeRename then after else disk
  }

  /** The in-memory effect of an operation. */
  function Apply(s: LedgerState, op: Op): LedgerState {
    match op
    case Create(n, id, now) => CreateSurface(s, n, id, now).0
    case Lookup(_) => s
    case Close(id) => CloseSurface(s, id).0
    case Claim(input, now) => ClaimEvent(s, input, now).0
    case Record(input, status, now) => RecordEvent(s, input, status, now).0
    case Release(input) => ReleaseClaim(s, input).0
    case RecordByHash(k, id, status) => RecordEventByHash(s, k, id, status).0
    case Turn(t, now) => RecordTurn(s, t, now).0
  }

  function ReplyTo(s: LedgerState, op: Op, io: SaveOutcome): Reply {
    var after := Apply(s, op);
    match op
    case Create(n, id, now) => Created(Settle(s, after, CreateSurface(s, n, id, now).1, io))
    case Lookup(q) => Found(LookupSurface(s, q))
    case Close(id) => Changed(Settle(s, after, CloseSurface(s, id).1, io))
    case Claim(input, now) => Claiming(Settle(s, after, ClaimEvent(s, input, now).1, io))
    case Record(input, status, now) => Recording(Settle(s, after, RecordEvent(s, input, status, now).1, io))
    case Release(input) => Changed(Settle(s, after, ReleaseClaim(s, input).1, io))
    case RecordByHash(k, id, status) => Recording(Settle(s, after, RecordEventByHash(s, k, id, status).1, io))
    case Turn(t, now) => Changed(Settle(s, after, RecordTurn(s, t, now).1, io))
  }

  /** The file after one update: each update reloads it, so it is the whole durable state. */
  function Next(disk: LedgerState, op: Op, io: SaveOutcome): LedgerState {
    OnDisk(disk, Apply(disk, op), disk, io)
  }

  // ---- the ledger object ----

  class LedgerFile {
    var contents: LedgerState
    constructor ()
      ensures contents == EMPTY
    {
      contents := EMPTY;
    }
  }

  class Ledger {
    const file: LedgerFile
    var surfaces: seq<Surface>
    var inboundEvents: seq<EventRecord>
    var continuationTurns: seq<TurnRecord>

    function State(): LedgerState
      reads this
    {
      LedgerState(surfaces, inboundEvents, continuationTurns)
    }

    constructor Load(file: LedgerFile)
      ensures this.file == file && State() == file.contents
    {
      this.file := file;
      surfaces, inboundEvents, continuationTurns :=
        file.contents.surfaces, file.contents.events, file.contents.turns;
    }

    method Save(io: SaveOutcome) returns (ok: bool)
      modifies file
      ensures ok == io.Saved?
      ensures file.contents == if io == FailedBeforeRename then old(file.contents) else State()
    {
      if io != FailedBeforeRename {
        file.contents := State();
      }
      ok := io == Saved;
    }

    method CreateSurfaceAt(input: NewSurface, freshId: string, now: Time, io: SaveOutcome)
      returns (r: Result<Surface, LedgerError>)
      modifies this, file
      ensures State() == CreateSurface(old(State()), input, freshId, now).0
      ensures r == Settle(old(State()), State(), CreateSurface(old(State()), input, freshId, now).1, io)
      ensures file.contents == OnDisk(old(State()), State(), old(file.contents), io)
    {
      if !ValidSurface(input) {
        return Err(MissingField);
      }
      var i := FirstActive(surfaces, ThreadOfInput(input));
      if i < |surfaces| {
        if SameBinding(surfaces[i], input) {
          return Ok(surfaces[i]);
        }
        return Err(ThreadAlreadyBound(SurfaceIdOf(surfaces[i])));
      }
      var record := NewRecord(input, freshId, now);
      surfaces := surfaces + [record];
      var ok := Save(io);
      r := if ok then Ok(record) else Err(SaveFailed);
    }

    method LookupSurfaceAt(query: Thread) returns (r: Result<LookupResult, LedgerError>)
      ensures r == LookupSurface(State(), query)
    {
      if !ValidThread(query) {
        return Err(MissingField);
      }
      var end := LastOfThreadEnd(surfaces, query);
      if end == 0 {
        return Ok(Miss);
      }
      var facts := surfaces[end - 1].facts;
      match facts.status
      case Closed => r := Ok(ClosedSurface(facts.surfaceId));
      case _ => r := Ok(Hit(facts));
    }

    method CloseSurfaceById(id: string, io: SaveOutcome) returns (r: Result<bool, LedgerError>)
      modifies this, file
      ensures State() == CloseSurface(old(State()), id).0
      ensures r == Settle(old(State()), State(), CloseSurface(old(State()), id).1, io)
      ensures file.contents == OnDisk(old(State()), State(), old(file.contents), io)
    {
      if !Present(id) {
        return Err(MissingField);
      }
      var changed := false;
      var i := SurfaceIndex(surfaces, id);
      if i < |surfaces| && surfaces[i].facts.status == Open {
        ghost var before := surfaces;
        surfaces := surfaces[i := surfaces[i].(facts := surfaces[i].facts.(status := Closed))];
        assert surfaces[i] != before[i];
        changed := true;
      }
      if changed {
        var ok := Save(io);
        if !ok {
          return Err(SaveFailed);
        }
      }
      r := Ok(changed);
    }

    method ClaimInboundEventAt(input: EventInput, now: Time, io: SaveOutcome)
      returns (r: Result<ClaimDecision, LedgerError>)
      modifies this, file
      ensures State() == ClaimEvent(old(State()), input, now).0
      ensures r == Settle(old(State()), State(), ClaimEvent(old(State()), input, now).1, io)
      ensures file.contents == OnDisk(old(State()), State(), old(file.contents), io)
    {
      if !ValidEvent(input) {
        return Err(MissingField);
      }
      var hash := EventHash(input);
      var i := EventIndex(inboundEvents, KeyOfInput(input));
      if i < |inboundEvents| {
        var existing := inboundEvents[i];
        if existing.status.IsProcessing() {
          return Ok(AlreadyProcessing(hash, existing.surfaceId, existing.status));
        }
        return Ok(DuplicateProcessed(hash, existing.surfaceId, existing.status));
      }
      inboundEvents := inboundEvents
        + [EventRecord(input.providerId, input.providerType, hash, input.surfaceId, ClaimedBeforeSubmit, now)];
      var ok := Save(io);
      r := if ok then Ok(Claimed(hash)) else Err(SaveFailed);
    }

    method RecordInboundEventStatusAt(input: EventInput, status: EventStatus, now: Time, io: SaveOutcome)
      returns (r: Result<RecordDecision, LedgerError>)
      modifies this, file
      ensures State() == RecordEvent(old(State()), input, status, now).0
      ensures r == Settle(old(State()), State(), RecordEvent(old(State()), input, status, now).1, io)
      ensures file.contents == OnDisk(old(State()), State(), old(file.contents), io)
    {
      if !ValidEvent(input) {
        return Err(MissingField);
      }
      var hash := EventHash(input);
      var i := EventIndex(inboundEvents, KeyOfInput(input));
      if i < |inboundEvents| {
        var existing := inboundEvents[i];
        if existing.surfaceId != input.surfaceId {
          return Err(OtherSurface);
        }
        if existing.status == status || existing.status.IsTerminal() {
          return Ok(Duplicate(hash, existing.surfaceId, existing.status));
        }
        inboundEvents := inboundEvents[i := existing.(status := status)];
        assert inboundEvents[i] != old(inboundEvents)[i];
        var ok := Save(io);
        return if ok then Ok(Recorded(hash, status)) else Err(SaveFailed);
      }
      if status != Processed {
        return Err(NotClaimed);
      }
      inboundEvents := inboundEvents
        + [EventRecord(input.providerId, input.providerType, hash, input.surfaceId, status, now)];
      var ok := Save(io);
      r := if ok then Ok(Recorded(hash, status)) else Err(SaveFailed);
    }

    method ReleaseInboundEventClaimAt(input: EventInput, io: SaveOutcome)
      returns (r: Result<bool, LedgerError>)
      modifies this, file
      ensures State() == ReleaseClaim(old(State()), input).0
      ensures r == Settle(old(State()), State(), ReleaseClaim(old(State()), input).1, io)
      ensures file.contents == OnDisk(old(State()), State(), old(file.contents), io)
    {
      if !ValidEvent(input) {
        return Err(MissingField);
      }
      var position := ReleasableIndex(inboundEvents, input);
      if position == |inboundEvents| {
        return Ok(false);
      }
      inboundEvents := inboundEvents[..position] + inboundEvents[position + 1..];
      assert |inboundEvents| < |old(inboundEvents)|;
      var ok := Save(io);
      r := if ok then Ok(true) else Err(SaveFailed);
    }

    method RecordInboundEventStatusByHashAt(key: EventKey, surfaceId: string, status: EventStatus, io: SaveOutcome)
      returns (r: Result<RecordDecision, LedgerError>)
      modifies this, file
      ensures State() == RecordEventByHash(old(State()), key, surfaceId, status).0
      ensures r == Settle(old(State()), State(), RecordEventByHash(old(State()), key, surfaceId, status).1, io)
      ensures file.contents == OnDisk(old(State()), State(), old(file.contents), io)
    {
      if !Present(key.providerId) || !Present(key.providerType) || !Present(surfaceId) {
        return Err(MissingField);
      }
      if !status.IsTerminal() {
        return Err(NotTerminal);
      }
      var i := EventIndex(inboundEvents, key);
      if i == |inboundEvents| {
        return Err(EventNotFound);
      }
      var existing := inboundEvents[i];
      if existing.surfaceId != surfaceId {
        return Err(OtherSurface);
      }
      if existing.status == status || existing.status.IsTerminal() {
        return Ok(Duplicate(existing.hash, existing.surfaceId, existing.status));
      }
      inboundEvents := inboundEvents[i := existing.(status := status)];
      assert inboundEvents[i] != old(inboundEvents)[i];
      var ok := Save(io);
      r := if ok then Ok(Recorded(key.hash, status)) else Err(SaveFailed);
    }

    method RecordContinuationTurnAt(input: TurnInput, now: Time, io: SaveOutcome)
      returns (r: Result<bool, LedgerError>)
      modifies this, file
      ensures State() == RecordTurn(old(State()), input, now).0
      ensures r == Settle(old(State()), State(), RecordTurn(old(State()), input, now).1, io)
      ensures file.contents == OnDisk(old(State()), State(), old(file.contents), io)
    {
      if !ValidTurn(input) {
        return Err(MissingField);
      }
      var i := TurnIndex(continuationTurns, (input.sessionId, input.turnId));
      if i < |continuationTurns| {
        if continuationTurns[i].surfaceId != input.surfaceId {
          return Err(OtherSurface);
        }
        return Ok(false);
      }
      continuationTurns := continuationTurns
        + [TurnRecord(input.surfaceId, input.sessionId, input.turnId, now)];
      var ok := Save(io);
      r := if ok then Ok(true) else Err(SaveFailed);
    }
  }

  class LedgerStore {
    const file: LedgerFile

    constructor (file: LedgerFile)
      ensures this.file == file
    {
      this.file := file;
    }

    /** Reload the file, run one operation, and let that operation save. */
    method Update(op: Op, io: SaveOutcome) returns (reply: Reply)
      modifies file
      ensures file.contents == Next(old(file.contents), op, io)
      ensures reply == ReplyTo(old(file.contents), op, io)
    {
      var ledger := new Ledger.Load(file);
      match op {
        case Create(surface, freshId, now) =>
          var r := ledger.CreateSurfaceAt(surface, freshId, now, io);
          reply := Created(r);
        case Lookup(query) =>
          var r := ledger.LookupSurfaceAt(query);
          reply := Found(r);
        case Close(surfaceId) =>
          var r := ledger.CloseSurfaceById(surfaceId, io);
          reply := Changed(r);
        case Claim(input, now) =>
          var r := ledger.ClaimInboundEventAt(input, now, io);
          reply := Claiming(r);
        case Record(input, status, now) =>
          var r := ledger.RecordInboundEventStatusAt(input, status, now, io);
          reply := Recording(r);
        case Release(input) =>
          var r := ledger.ReleaseInboundEventClaimAt(input, io);
          reply := Changed(r);
        case RecordByHash(key, surfaceId, status) =>
          var r := ledger.RecordInboundEventStatusByHashAt(key, surfaceId, status, io);
          reply := Recording(r);
        case Turn(turn, now) =>
          var r := ledger.RecordContinuationTurnAt(turn, now, io);
          reply := Changed(r);
      }
    }
  }
}
