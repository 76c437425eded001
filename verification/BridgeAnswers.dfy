/** What the bridge binding ledger answers and writes, told by the fields of its arguments. */
module BridgeAnswers {
  import opened Basics
  import opened Tables
  import opened Text
  import opened ProjectPaths
  import opened BridgeBindingLedger
  import opened BridgeRuns

  // ---- what is accepted ----

  predicate TrimmedText(s: string) {
    s != "" && Trim(s) == s
  }

  predicate RoomIsTrimmed(r: Room) {
    TrimmedText(r.providerId) && TrimmedText(r.providerType) && TrimmedText(r.accountId)
      && TrimmedText(r.conversationId)
  }

  predicate SourceIsTrimmed(s: Source) {
    TrimmedText(s.sourceId) && TrimmedText(s.sourceType) && TrimmedText(s.sessionId)
  }

  lemma RoomIsValidIffTrimmed(r: Room)
    ensures ValidRoom(r) <==> RoomIsTrimmed(r)
  {
    TrimFixpoint(r.providerId);
    TrimFixpoint(r.providerType);
    TrimFixpoint(r.accountId);
    TrimFixpoint(r.conversationId);
  }

  lemma SourceIsValidIffTrimmed(s: Source)
    ensures ValidSource(s) <==> SourceIsTrimmed(s)
  {
    TrimFixpoint(s.sourceId);
    TrimFixpoint(s.sourceType);
    TrimFixpoint(s.sessionId);
  }

  /** A bind is accepted exactly for trimmed fields and a clean folder, if the thread is free or is joined. */
  lemma BindIsAcceptedIff(s: BridgeState, input: ThreadInput, now: Time)
    requires Inv(s)
    ensures BindThread(s, input, now).1 == Err(InvalidInput) <==>
      !(&& RoomIsTrimmed(input.key.room) && TrimmedText(input.key.threadId) && IsCleanAbsolute(input.projectPath)
        && SourceIsTrimmed(input.source) && (input.routeHash.Some? ==> TrimmedText(input.routeHash.value)))
  {
    RoomIsValidIffTrimmed(input.key.room);
    SourceIsValidIffTrimmed(input.source);
    TrimFixpoint(input.key.threadId);
    if input.routeHash.Some? {
      TrimFixpoint(input.routeHash.value);
    }
  }

  // ---- rooms and direct chats ----

  /** The answer to a connect is the record that is stored from then on; a pair that was known before
      keeps its creation time. */
  lemma ConnectAnswers(s: BridgeState, k: RoomKey, now: Time)
    requires Inv(s)
    ensures var (after, answer) := ConnectRoom(s, k, now);
      if !RoomIsTrimmed(k.room) || !IsCleanAbsolute(k.projectPath) then answer == Err(InvalidInput) && after == s
      else
        && answer
          == Ok(RoomBinding(k, Connected, if RoomOf(s, k).Some? then RoomOf(s, k).value.createdAt else now, now))
        && RoomOf(after, k) == Some(answer.value)
  {
    RoomIsValidIffTrimmed(k.room);
    RoomIndexIsFind(s.rooms, k);
    ConnectStep(s, k, now, k);
  }

  lemma DisconnectAnswers(s: BridgeState, k: RoomKey, now: Time)
    requires Inv(s)
    ensures var (after, answer) := DisconnectRoom(s, k, now);
      if !RoomIsTrimmed(k.room) || !IsCleanAbsolute(k.projectPath) then answer == Err(InvalidInput) && after == s
      else if RoomOf(s, k).None? then answer == Ok(None) && after == s
      else
        && answer == Ok(Some(RoomBinding(k, Disconnected, RoomOf(s, k).value.createdAt, now)))
        && RoomOf(after, k) == answer.value
  {
    RoomIsValidIffTrimmed(k.room);
    RoomIndexIsFind(s.rooms, k);
    DisconnectStep(s, k, now, k);
  }

  ghost function ChatOf(s: BridgeState, room: Room): Option<DirectChat> {
    Find(s.directChats, ChatRoomOf, room)
  }

  /** A direct chat is remembered with the time of its latest command; no other chat is touched. */
  lemma RememberAnswers(s: BridgeState, room: Room, now: Time, other: Room)
    requires Inv(s)
    ensures var (after, answer) := RememberChat(s, room, now);
      && after.(directChats := s.directChats) == s
      && if !RoomIsTrimmed(room) then answer == Err(InvalidInput) && after == s
         else
           && answer
             == Ok(DirectChat(room, if ChatOf(s, room).Some? then ChatOf(s, room).value.createdAt else now, now))
           && ChatOf(after, other) == if other == room then Some(answer.value) else ChatOf(s, other)
  {
    RoomIsValidIffTrimmed(room);
    var i := ChatIndex(s.directChats, room);
    if i < |s.directChats| {
      FindIs(s.directChats, ChatRoomOf, i);
      Replace(s.directChats, ChatRoomOf, i, s.directChats[i].(updatedAt := now), other);
    } else {
      assert Find(s.directChats, ChatRoomOf, room).None?;
      Push(s.directChats, ChatRoomOf, DirectChat(room, now, now), other);
    }
  }

  // ---- threads ----

  /** The thread belongs to this room and session, and its folder and the asked one share a path. */
  predicate IsSessionThread(t: ThreadBinding, q: SessionQuery) {
    && t.key.room.providerId == q.room.providerId && t.key.room.providerType == q.room.providerType
    && t.key.room.accountId == q.room.accountId && t.key.room.conversationId == q.room.conversationId
    && t.source.sourceId == q.source.sourceId && t.source.sourceType == q.source.sourceType
    && t.source.sessionId == q.source.sessionId
    && (AtOrBelow(Tidied(t.projectPath), Tidied(q.projectPath))
      || AtOrBelow(Tidied(q.projectPath), Tidied(t.projectPath)))
  }

  lemma MatchIsSessionThread(t: ThreadBinding, q: SessionQuery)
    ensures SessionMatches(t, q) <==> IsSessionThread(t, q)
  {
    ShareTreeIsText(t.projectPath, q.projectPath);
  }

  /** The lookup by session and folder finds the latest binding of the session, if there is any. */
  lemma LatestThreadIsFound(s: BridgeState, q: SessionQuery)
    ensures var found := LookupThreadForSession(s, q);
      if !RoomIsTrimmed(q.room) || !IsCleanAbsolute(q.projectPath)
        || !SourceIsTrimmed(q.source) then found == Err(InvalidInput)
      else if exists t :: t in s.threads && IsSessionThread(t, q) then
        exists i :: 0 <= i < |s.threads| && found == Ok(Some(s.threads[i])) && IsSessionThread(s.threads[i], q)
          && forall j :: i < j < |s.threads| ==> !IsSessionThread(s.threads[j], q)
      else found == Ok(None)
  {
    RoomIsValidIffTrimmed(q.room);
    SourceIsValidIffTrimmed(q.source);
    forall t
      ensures SessionMatches(t, q) <==> IsSessionThread(t, q)
    {
      MatchIsSessionThread(t, q);
    }
    var end := LastIndexEnd(s.threads, (t: ThreadBinding) => SessionMatches(t, q));
    assert end > 0 ==> IsSessionThread(s.threads[end - 1], q);
  }

  // ---- proposals ----

  function TrimmedOrNone(value: Option<string>): Option<string> {
    if value.Some? && Trim(value.value) != "" then Some(Trim(value.value)) else None
  }

  lemma OwnedIsTrimmed(value: Option<string>)
    ensures PresentOwned(value) == TrimmedOrNone(value)
  {
    if value.Some? {
      PresentIffTrimNonEmpty(value.value);
    }
  }

  /** What stays in a proposal whatever is marked. */
  predicate SameProposal(p: Proposal, q: Proposal) {
    && p.id == q.id && p.providerType == q.providerType && p.projectName == q.projectName
    && p.createdAt == q.createdAt && p.firstSeenAt == q.firstSeenAt && p.lastSeenAt == q.lastSeenAt
  }

  /** Which fields each mark writes. */
  lemma MarkWrites(p: Proposal, mark: ProposalMark, now: Time)
    ensures var q := Marked(p, mark, now);
      && SameProposal(p, q) && q.updatedAt == now
      && match mark
         case PromptSent(account, conversation, message) =>
           && q.status == Pending && q.createdRoomId == p.createdRoomId
           && q.accountId == TrimmedOrNone(account) && q.promptConversationId == TrimmedOrNone(conversation)
           && q.promptMessageId == TrimmedOrNone(message)
         case MarkPromptFailed => q == p.(status := PromptFailed, updatedAt := now)
         case MarkIgnored => q == p.(status := Ignored, updatedAt := now)
         case CompleteWithRoom(account, conversation) =>
           && q.status == RoomCreated && q.accountId == Some(account) && q.createdRoomId == Some(conversation)
           && q.promptConversationId == p.promptConversationId && q.promptMessageId == p.promptMessageId
  {
    if mark.PromptSent? {
      OwnedIsTrimmed(mark.account);
      OwnedIsTrimmed(mark.conversation);
      OwnedIsTrimmed(mark.message);
    }
  }

  /** A mark by id is written into the proposal of that id and answered with it; an unknown id is not. */
  lemma MarkAnswers(s: BridgeState, id: ProposalId, mark: ProposalMark, now: Time, other: ProposalId)
    requires Inv(s)
    ensures var (after, answer) := MarkProposal(s, id, mark, now);
      if mark.CompleteWithRoom? && !(TrimmedText(mark.accountId) && TrimmedText(mark.conversationId)) then
        answer == Err(InvalidInput) && after == s
      else if ProposalOf(s, id).None? then answer == Ok(None) && after == s
      else
        && answer == Ok(Some(Marked(ProposalOf(s, id).value, mark, now)))
        && ProposalOf(after, other) == if other == id then answer.value else ProposalOf(s, other)
  {
    if mark.CompleteWithRoom? {
      TrimFixpoint(mark.accountId);
      TrimFixpoint(mark.conversationId);
    }
    ProposalIndexIsFind(s.proposals, id);
    var n := ProposalIndex(s.proposals, id);
    if n < |s.proposals| {
      Replace(s.proposals, ProposalIdOf, n, Marked(s.proposals[n], mark, now), other);
    }
  }

  /** A proposal that was never seen: pending, nothing known about it but its folder. */
  predicate IsNew(p: Proposal, id: ProposalId, providerType: string, now: Time) {
    && p.id == id && p.providerType == providerType && p.status == Pending
    && p.accountId.None? && p.promptConversationId.None? && p.promptMessageId.None? && p.createdRoomId.None?
    && p.createdAt == p.firstSeenAt == p.lastSeenAt == p.updatedAt == now
    && IsNameOf(p.projectName, id.projectPath)
  }

  /** The last name of the path, or the whole path if that is blank or missing. */
  predicate IsNameOf(name: string, path: string) {
    var names := Components(path);
    if names != [] && Trim(names[|names| - 1]) != "" then name == names[|names| - 1] else name == path
  }

  lemma ProjectNameIsName(path: string)
    ensures IsNameOf(ProjectName(path), path)
  {
    var names := Components(path);
    if names != [] {
      PresentIffTrimNonEmpty(names[|names| - 1]);
    }
  }

  predicate IsAskable(id: ProposalId, providerType: string) {
    TrimmedText(id.providerId) && TrimmedText(providerType) && IsCleanAbsolute(id.projectPath)
  }

  lemma AskableIsValid(id: ProposalId, providerType: string)
    ensures IsAskable(id, providerType) <==> ValidProposal(id, providerType)
  {
    TrimFixpoint(id.providerId);
    TrimFixpoint(providerType);
  }

  /** A request that cannot be asked about is refused and changes nothing. */
  lemma UnaskableIsRefused(s: BridgeState, id: ProposalId, providerType: string, now: Time)
    requires !IsAskable(id, providerType)
    ensures BeginPrompt(s, id, providerType, now) == (s, Err(InvalidInput))
    ensures BeginManualPrompt(s, id, providerType, now) == (s, Err(InvalidInput))
  {
    AskableIsValid(id, providerType);
  }

  /** The whole answer to an automatic prompt request. */
  lemma BeginAnswers(s: BridgeState, id: ProposalId, providerType: string, now: Time)
    requires Inv(s) && IsAskable(id, providerType)
    ensures var (after, answer) := BeginPrompt(s, id, providerType, now);
      var was := ProposalOf(s, id);
      && answer.Ok? && ProposalOf(after, id).Some?
      && var p := ProposalOf(after, id).value;
         if was.None? then answer == Ok(Prompt(p)) && IsNew(p, id, providerType, now)
         else if was.value.status == PromptFailed then
           && answer == Ok(Prompt(p)) && IsNameOf(p.projectName, id.projectPath)
           && p == was.value.(status := Pending, projectName := p.projectName, accountId := None,
                              promptConversationId := None, promptMessageId := None, lastSeenAt := now, updatedAt :=
                                now)
         else answer == Ok(Skip(was.value.status)) && p == was.value.(lastSeenAt := now, updatedAt := now)
  {
    AskableIsValid(id, providerType);
    ProjectNameIsName(id.projectPath);
    ProposalIndexIsFind(s.proposals, id);
    BeginKeepsTable(s, id, providerType, now);
  }

  lemma BeginKeepsTable(s: BridgeState, id: ProposalId, providerType: string, now: Time)
    requires Inv(s) && ValidProposal(id, providerType)
    ensures var after, n := BeginPrompt(s, id, providerType, now).0, ProposalIndex(s.proposals, id);
      && n < |after.proposals| && ProposalOf(after, id) == Some(after.proposals[n])
  {
    var after, n := BeginPrompt(s, id, providerType, now).0, ProposalIndex(s.proposals, id);
    ProposalIndexIsFind(s.proposals, id);
    if n < |s.proposals| {
      Replace(s.proposals, ProposalIdOf, n, after.proposals[n], id);
    } else {
      Push(s.proposals, ProposalIdOf, NewProposal(id, providerType, now), id);
    }
  }

  /** The whole answer to a manual prompt request: the proposal is open again, whatever it was. */
  lemma BeginManualAnswers(s: BridgeState, id: ProposalId, providerType: string, now: Time)
    requires Inv(s) && IsAskable(id, providerType)
    ensures var (after, answer) := BeginManualPrompt(s, id, providerType, now);
      var was := ProposalOf(s, id);
      && answer.Ok? && ProposalOf(after, id) == Some(answer.value)
      && var p := answer.value;
         if was.None? then IsNew(p, id, providerType, now)
         else
           && IsNameOf(p.projectName, id.projectPath)
           && p == was.value.(status := Pending, projectName := p.projectName, accountId := None,
                              promptConversationId := None, promptMessageId := None, createdRoomId := None,
                              lastSeenAt := now, updatedAt := now)
  {
    AskableIsValid(id, providerType);
    ProjectNameIsName(id.projectPath);
    ProposalIndexIsFind(s.proposals, id);
    var after, n := BeginManualPrompt(s, id, providerType, now).0, ProposalIndex(s.proposals, id);
    if n < |s.proposals| {
      Replace(s.proposals, ProposalIdOf, n, after.proposals[n], id);
    } else {
      Push(s.proposals, ProposalIdOf, NewProposal(id, providerType, now), id);
    }
  }
}
