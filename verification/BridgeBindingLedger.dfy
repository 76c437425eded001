/**
 The ledger that binds chat rooms to project folders and provider threads to agent sessions,
 and that remembers which projects the owner has already been asked about.
 */
module BridgeBindingLedger {
  import opened Basics
  import opened Tables
  import opened Text
  import opened ProjectPaths

  // A provider conversation.
  datatype Room = Room(providerId: string, providerType: string, accountId: string, conversationId: string)

  datatype RoomKey = RoomKey(room: Room, projectPath: string)

  datatype RoomStatus = Connected | Disconnected

  datatype RoomBinding = RoomBinding(key: RoomKey, status: RoomStatus, createdAt: Time, updatedAt: Time)

  datatype DirectChat = DirectChat(room: Room, createdAt: Time, updatedAt: Time)

  // The digest of a provider id and a project path, represented by the two; the record's own
  // provider id and project path are the same two values.
  datatype ProposalId = ProposalId(providerId: string, projectPath: string)

  datatype ProposalStatus = Pending | PromptFailed | Ignored | RoomCreated | BoundToExisting

  datatype Proposal = Proposal(
    id: ProposalId, providerType: string, projectName: string, status: ProposalStatus,
    accountId: Option<string>, promptConversationId: Option<string>, promptMessageId: Option<string>,
    createdRoomId: Option<string>, createdAt: Time, firstSeenAt: Time, lastSeenAt: Time, updatedAt: Time)

  datatype PromptDecision = Prompt(proposal: Proposal) | Skip(reason: ProposalStatus)

  datatype ThreadKey = ThreadKey(room: Room, threadId: string)

  datatype Source = Source(sourceId: string, sourceType: string, sessionId: string)

  datatype ThreadBinding = ThreadBinding(
    key: ThreadKey, projectPath: string, source: Source, routeHash: Option<string>, createdAt: Time)

  datatype ThreadInput = ThreadInput(key: ThreadKey, projectPath: string, source: Source, routeHash: Option<string>)

  datatype SessionQuery = SessionQuery(room: Room, projectPath: string, source: Source)

  datatype BridgeState = BridgeState(
    rooms: seq<RoomBinding>, directChats: seq<DirectChat>, proposals: seq<Proposal>, threads: seq<ThreadBinding>)

  const EMPTY := BridgeState([], [], [], [])

  datatype BridgeError = InvalidInput | ThreadAlreadyBound

  // ---- keys and validation ----

  function RoomKeyOf(r: RoomBinding): RoomKey { r.key }
  function ChatRoomOf(c: DirectChat): Room { c.room }
  function ProposalIdOf(p: Proposal): ProposalId { p.id }
  function ThreadKeyOf(t: ThreadBinding): ThreadKey { t.key }

  predicate ValidRoom(r: Room) {
    PresentAndTrimmed(r.providerId) && PresentAndTrimmed(r.providerType)
    && PresentAndTrimmed(r.accountId) && PresentAndTrimmed(r.conversationId)
  }

  predicate ValidRoomKey(k: RoomKey) {
    ValidRoom(k.room) && IsCleanAbsolute(k.projectPath)
  }

  predicate ValidProposal(id: ProposalId, providerType: string) {
    PresentAndTrimmed(id.providerId) && PresentAndTrimmed(providerType) && IsCleanAbsolute(id.projectPath)
  }

  predicate ValidSource(s: Source) {
    PresentAndTrimmed(s.sourceId) && PresentAndTrimmed(s.sourceType) && PresentAndTrimmed(s.sessionId)
  }

  predicate ValidThread(t: ThreadInput) {
    && ValidRoom(t.key.room) && PresentAndTrimmed(t.key.threadId)
    && IsCleanAbsolute(t.projectPath) && ValidSource(t.source)
    && (t.routeHash.Some? ==> PresentAndTrimmed(t.routeHash.value))
  }

  predicate ValidQuery(q: SessionQuery) {
    ValidRoom(q.room) && IsCleanAbsolute(q.projectPath) && ValidSource(q.source)
  }

  /** `present_owned`: trimmed, or nothing when blank. */
  function PresentOwned(value: Option<string>): Option<string> {
    if value.Some? && Present(value.value) then Some(Trim(value.value)) else None
  }

  /** The last component of the path, or the path itself when it has none. */
  function ProjectName(path: string): string {
    var names := Components(path);
    if names != [] && Present(names[|names| - 1]) then names[|names| - 1] else path
  }

  function RoomIndex(rooms: seq<RoomBinding>, k: RoomKey): nat {
    FirstIndex(rooms, (r: RoomBinding) => r.key == k)
  }

  function ChatIndex(chats: seq<DirectChat>, room: Room): nat {
    FirstIndex(chats, (c: DirectChat) => c.room == room)
  }

  function ProposalIndex(proposals: seq<Proposal>, id: ProposalId): nat {
    FirstIndex(proposals, (p: Proposal) => p.id == id)
  }

  function ThreadIndex(threads: seq<ThreadBinding>, k: ThreadKey): nat {
    FirstIndex(threads, (t: ThreadBinding) => t.key == k)
  }

  // ---- what each operation does to the lists ----

  /** Connecting a project to a room settles its open proposals, except those that made a room. */
  function Settled(p: Proposal, k: RoomKey, now: Time): Proposal {
    if p.id == ProposalId(k.room.providerId, k.projectPath) && p.providerType == k.room.providerType
      && p.status != RoomCreated then
      p.(status := BoundToExisting, accountId := Some(k.room.accountId),
         createdRoomId := Some(k.room.conversationId), updatedAt := now)
    else p
  }

  function SettleAll(proposals: seq<Proposal>, k: RoomKey, now: Time): (r: seq<Proposal>)
    ensures |r| == |proposals|
    ensures forall i :: 0 <= i < |r| ==> r[i] == Settled(proposals[i], k, now)
  {
    seq(|proposals|, i requires 0 <= i < |proposals| => Settled(proposals[i], k, now))
  }

  function ConnectRoom(s: BridgeState, k: RoomKey, now: Time): (BridgeState, Result<RoomBinding, BridgeError>) {
    if !ValidRoomKey(k) then (s, Err(InvalidInput))
    else
      var i := RoomIndex(s.rooms, k);
      var proposals := SettleAll(s.proposals, k, now);
      if i < |s.rooms| then
        var r := s.rooms[i].(status := Connected, updatedAt := now);
        (s.(rooms := s.rooms[i := r], proposals := proposals), Ok(r))
      else
        var r := RoomBinding(k, Connected, now, now);
        (s.(rooms := s.rooms + [r], proposals := proposals), Ok(r))
  }

  function DisconnectRoom(s: BridgeState, k: RoomKey, now: Time)
    : (BridgeState, Result<Option<RoomBinding>, BridgeError>)
  {
    if !ValidRoomKey(k) then (s, Err(InvalidInput))
    else
      var i := RoomIndex(s.rooms, k);
      if i == |s.rooms| then (s, Ok(None))
      else
        var r := s.rooms[i].(status := Disconnected, updatedAt := now);
        (s.(rooms := s.rooms[i := r]), Ok(Some(r)))
  }

  function ConnectedProjects(s: BridgeState, room: Room): seq<RoomBinding> {
    Filter(s.rooms, (r: RoomBinding) => r.key.room == room && r.status == Connected)
  }

  /** Connected rooms whose project folder is the given folder or one of its ancestors. */
  function ConnectedRoomsForTree(s: BridgeState, projectPath: string): seq<RoomBinding> {
    Filter(s.rooms, (r: RoomBinding) => r.status == Connected && StartsWith(projectPath, r.key.projectPath))
  }

  function RememberChat(s: BridgeState, room: Room, now: Time): (BridgeState, Result<DirectChat, BridgeError>) {
    if !ValidRoom(room) then (s, Err(InvalidInput))
    else
      var i := ChatIndex(s.directChats, room);
      if i < |s.directChats| then
        var c := s.directChats[i].(updatedAt := now);
        (s.(directChats := s.directChats[i := c]), Ok(c))
      else
        var c := DirectChat(room, now, now);
        (s.(directChats := s.directChats + [c]), Ok(c))
  }

  function NewProposal(id: ProposalId, providerType: string, now: Time): Proposal {
    Proposal(id, providerType, ProjectName(id.projectPath), Pending, None, None, None, None, now, now, now, now)
  }

  function BeginPrompt(s: BridgeState, id: ProposalId, providerType: string, now: Time)
    : (BridgeState, Result<PromptDecision, BridgeError>)
  {
    if !ValidProposal(id, providerType) then (s, Err(InvalidInput))
    else
      var i := ProposalIndex(s.proposals, id);
      if i == |s.proposals| then
        var p := NewProposal(id, providerType, now);
        (s.(proposals := s.proposals + [p]), Ok(Prompt(p)))
      else
        var seen := s.proposals[i].(lastSeenAt := now, updatedAt := now);
        if seen.status == PromptFailed then
          var p := seen.(status := Pending, projectName := ProjectName(id.projectPath),
                         accountId := None, promptConversationId := None, promptMessageId := None);
          (s.(proposals := s.proposals[i := p]), Ok(Prompt(p)))
        else (s.(proposals := s.proposals[i := seen]), Ok(Skip(seen.status)))
  }

  function BeginManualPrompt(s: BridgeState, id: ProposalId, providerType: string, now: Time)
    : (BridgeState, Result<Proposal, BridgeError>)
  {
    if !ValidProposal(id, providerType) then (s, Err(InvalidInput))
    else
      var i := ProposalIndex(s.proposals, id);
      if i == |s.proposals| then
        var p := NewProposal(id, providerType, now);
        (s.(proposals := s.proposals + [p]), Ok(p))
      else
        var p := s.proposals[i].(status := Pending, projectName := ProjectName(id.projectPath),
                                 accountId := None, promptConversationId := None, promptMessageId := None,
                                 createdRoomId := None, lastSeenAt := now, updatedAt := now);
        (s.(proposals := s.proposals[i := p]), Ok(p))
  }

  // What is written into an existing proposal by its id.
  datatype ProposalMark =
    | PromptSent(account: Option<string>, conversation: Option<string>, message: Option<string>)
    | MarkPromptFailed
    | MarkIgnored
    | CompleteWithRoom(accountId: string, conversationId: string)
  {
    predicate Valid() {
      CompleteWithRoom? ==> PresentAndTrimmed(accountId) && PresentAndTrimmed(conversationId)
    }
  }

  function Marked(p: Proposal, mark: ProposalMark, now: Time): Proposal {
    match mark
    case PromptSent(a, c, m) =>
      p.(accountId := PresentOwned(a), promptConversationId := PresentOwned(c), promptMessageId := PresentOwned(m),
         status := Pending, updatedAt := now)
    case MarkPromptFailed => p.(status := PromptFailed, updatedAt := now)
    case MarkIgnored => p.(status := Ignored, updatedAt := now)
    case CompleteWithRoom(a, c) =>
      p.(accountId := Some(a), createdRoomId := Some(c), status := RoomCreated, updatedAt := now)
  }

  function MarkProposal(s: BridgeState, id: ProposalId, mark: ProposalMark, now: Time)
    : (BridgeState, Result<Option<Proposal>, BridgeError>)
  {
    if !mark.Valid() then (s, Err(InvalidInput))
    else
      var i := ProposalIndex(s.proposals, id);
      if i == |s.proposals| then (s, Ok(None))
      else
        var p := Marked(s.proposals[i], mark, now);
        (s.(proposals := s.proposals[i := p]), Ok(Some(p)))
  }

  predicate SameSession(t: ThreadBinding, input: ThreadInput) {
    ShareTree(t.projectPath, input.projectPath) && t.source == input.source
  }

  function BindThread(s: BridgeState, input: ThreadInput, now: Time)
    : (BridgeState, Result<ThreadBinding, BridgeError>)
  {
    if !ValidThread(input) then (s, Err(InvalidInput))
    else
      var i := ThreadIndex(s.threads, input.key);
      if i == |s.threads| then
        var t := ThreadBinding(input.key, input.projectPath, input.source, input.routeHash, now);
        (s.(threads := s.threads + [t]), Ok(t))
      else
        var t := s.threads[i];
        if SameSession(t, input) && t.routeHash == input.routeHash then (s, Ok(t))
        else if SameSession(t, input) && t.routeHash.None? && input.routeHash.Some? then
          var adopted := t.(routeHash := input.routeHash);
          (s.(threads := s.threads[i := adopted]), Ok(adopted))
        else (s, Err(ThreadAlreadyBound))
  }

  function LookupThread(s: BridgeState, k: ThreadKey): Option<ThreadBinding> {
    var i := ThreadIndex(s.threads, k);
    if i < |s.threads| then Some(s.threads[i]) else None
  }

  predicate SessionMatches(t: ThreadBinding, q: SessionQuery) {
    t.key.room == q.room && ShareTree(t.projectPath, q.projectPath) && t.source == q.source
  }

  function LookupThreadForSession(s: BridgeState, q: SessionQuery): Result<Option<ThreadBinding>, BridgeError> {
    if !ValidQuery(q) then Err(InvalidInput)
    else
      var end := LastIndexEnd(s.threads, (t: ThreadBinding) => SessionMatches(t, q));
      Ok(if end == 0 then None else Some(s.threads[end - 1]))
  }

  // ---- the ledger object ----

  class Ledger {
    var rooms: seq<RoomBinding>
    var directChats: seq<DirectChat>
    var proposals: seq<Proposal>
    var threads: seq<ThreadBinding>

    function State(): BridgeState
      reads this
    {
      BridgeState(rooms, directChats, proposals, threads)
    }

    constructor (state: BridgeState)
      ensures State() == state
    {
      rooms, directChats, proposals, threads := state.rooms, state.directChats, state.proposals, state.threads;
    }

    method MarkProposalsBoundToExisting(k: RoomKey, now: Time)
      modifies this`proposals
      ensures proposals == SettleAll(old(proposals), k, now)
    {
      var i := 0;
      while i < |proposals|
        invariant i <= |proposals| == |old(proposals)|
        invariant forall j :: 0 <= j < i ==> proposals[j] == Settled(old(proposals)[j], k, now)
        invariant forall j :: i <= j < |proposals| ==> proposals[j] == old(proposals)[j]
      {
        var p := proposals[i];
        if p.id == ProposalId(k.room.providerId, k.projectPath) && p.providerType == k.room.providerType
          && p.status != RoomCreated {
          proposals := proposals[i := p.(status := BoundToExisting, accountId := Some(k.room.accountId),
                                         createdRoomId := Some(k.room.conversationId), updatedAt := now)];
        }
        i := i + 1;
      }
    }

    method ConnectRoomProjectAt(k: RoomKey, now: Time) returns (r: Result<RoomBinding, BridgeError>)
      modifies this
      ensures (State(), r) == ConnectRoom(old(State()), k, now)
    {
      if !ValidRoomKey(k) {
        return Err(InvalidInput);
      }
      var i := RoomIndex(rooms, k);
      if i < |rooms| {
        var record := rooms[i].(status := Connected, updatedAt := now);
        rooms := rooms[i := record];
        MarkProposalsBoundToExisting(k, now);
        return Ok(record);
      }
      var record := RoomBinding(k, Connected, now, now);
      MarkProposalsBoundToExisting(k, now);
      rooms := rooms + [record];
      r := Ok(record);
    }

    method DisconnectRoomProjectAt(k: RoomKey, now: Time) returns (r: Result<Option<RoomBinding>, BridgeError>)
      modifies this`rooms
      ensures (State(), r) == DisconnectRoom(old(State()), k, now)
    {
      if !ValidRoomKey(k) {
        return Err(InvalidInput);
      }
      var i := RoomIndex(rooms, k);
      if i == |rooms| {
        return Ok(None);
      }
      var record := rooms[i].(status := Disconnected, updatedAt := now);
      rooms := rooms[i := record];
      r := Ok(Some(record));
    }

    method RememberOwnerDirectChatAt(room: Room, now: Time) returns (r: Result<DirectChat, BridgeError>)
      modifies this`directChats
      ensures (State(), r) == RememberChat(old(State()), room, now)
    {
      if !ValidRoom(room) {
        return Err(InvalidInput);
      }
      var i := ChatIndex(directChats, room);
      if i < |directChats| {
        directChats := directChats[i := directChats[i].(updatedAt := now)];
        return Ok(directChats[i]);
      }
      var record := DirectChat(room, now, now);
      directChats := directChats + [record];
      r := Ok(record);
    }

    method BeginProjectRoomProposalPromptAt(id: ProposalId, providerType: string, now: Time)
      returns (r: Result<PromptDecision, BridgeError>)
      modifies this`proposals
      ensures (State(), r) == BeginPrompt(old(State()), id, providerType, now)
    {
      if !ValidProposal(id, providerType) {
        return Err(InvalidInput);
      }
      var i := ProposalIndex(proposals, id);
      if i < |proposals| {
        var record := proposals[i].(lastSeenAt := now, updatedAt := now);
        match record.status {
          case PromptFailed =>
            record := record.(status := Pending, projectName := ProjectName(id.projectPath),
                              accountId := None, promptConversationId := None, promptMessageId := None);
            r := Ok(Prompt(record));
          case _ =>
            r := Ok(Skip(record.status));
        }
        proposals := proposals[i := record];
        return;
      }
      var record := NewProposal(id, providerType, now);
      proposals := proposals + [record];
      r := Ok(Prompt(record));
    }

    method BeginManualProjectRoomProposalPromptAt(id: ProposalId, providerType: string, now: Time)
      returns (r: Result<Proposal, BridgeError>)
      modifies this`proposals
      ensures (State(), r) == BeginManualPrompt(old(State()), id, providerType, now)
    {
      if !ValidProposal(id, providerType) {
        return Err(InvalidInput);
      }
      var i := ProposalIndex(proposals, id);
      if i < |proposals| {
        var record := proposals[i].(projectName := ProjectName(id.projectPath), status := Pending,
                                    accountId := None, promptConversationId := None, promptMessageId := None,
                                    createdRoomId := None, lastSeenAt := now, updatedAt := now);
        proposals := proposals[i := record];
        return Ok(record);
      }
      var record := NewProposal(id, providerType, now);
      proposals := proposals + [record];
      r := Ok(record);
    }

    method MarkProposalAt(id: ProposalId, mark: ProposalMark, now: Time)
      returns (r: Result<Option<Proposal>, BridgeError>)
      modifies this`proposals
      ensures (State(), r) == MarkProposal(old(State()), id, mark, now)
    {
      if !mark.Valid() {
        return Err(InvalidInput);
      }
      var i := ProposalIndex(proposals, id);
      if i == |proposals| {
        return Ok(None);
      }
      var record := Marked(proposals[i], mark, now);
      proposals := proposals[i := record];
      r := Ok(Some(record));
    }

    method BindThreadSessionAt(input: ThreadInput, now: Time) returns (r: Result<ThreadBinding, BridgeError>)
      modifies this`threads
      ensures (State(), r) == BindThread(old(State()), input, now)
    {
      if !ValidThread(input) {
        return Err(InvalidInput);
      }
      var i := ThreadIndex(threads, input.key);
      if i < |threads| {
        if SameSession(threads[i], input) && threads[i].routeHash == input.routeHash {
          return Ok(threads[i]);
        }
        if SameSession(threads[i], input) && threads[i].routeHash.None? && input.routeHash.Some? {
          threads := threads[i := threads[i].(routeHash := input.routeHash)];
          return Ok(threads[i]);
        }
        return Err(ThreadAlreadyBound);
      }
      var record := ThreadBinding(input.key, input.projectPath, input.source, input.routeHash, now);
      threads := threads + [record];
      r := Ok(record);
    }
  }
}
