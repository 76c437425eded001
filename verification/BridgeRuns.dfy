/** What the bridge binding ledger guarantees over every run of its operations. */
module BridgeRuns {
  import opened Basics
  import opened Tables
  import opened Text
  import opened ProjectPaths
  import opened BridgeBindingLedger

  datatype Op =
    | Connect(key: RoomKey, now: Time)
    | Disconnect(key: RoomKey, now: Time)
    | Remember(room: Room, now: Time)
    | Begin(id: ProposalId, providerType: string, now: Time)
    | BeginManual(id: ProposalId, providerType: string, now: Time)
    | Mark(id: ProposalId, mark: ProposalMark, now: Time)
    | Bind(input: ThreadInput, now: Time)

  function Apply(s: BridgeState, op: Op): BridgeState {
    match op
    case Connect(k, now) => ConnectRoom(s, k, now).0
    case Disconnect(k, now) => DisconnectRoom(s, k, now).0
    case Remember(room, now) => RememberChat(s, room, now).0
    case Begin(id, t, now) => BeginPrompt(s, id, t, now).0
    case BeginManual(id, t, now) => BeginManualPrompt(s, id, t, now).0
    case Mark(id, mark, now) => MarkProposal(s, id, mark, now).0
    case Bind(input, now) => BindThread(s, input, now).0
  }

  ghost predicate Inv(s: BridgeState) {
    && KeysUnique(s.rooms, RoomKeyOf)
    && (forall r :: r in s.rooms ==> ValidRoomKey(r.key))
    && KeysUnique(s.directChats, ChatRoomOf)
    && KeysUnique(s.proposals, ProposalIdOf)
    && KeysUnique(s.threads, ThreadKeyOf)
  }

  // ---- room bindings ----

  ghost function RoomOf(s: BridgeState, k: RoomKey): Option<RoomBinding> {
    Find(s.rooms, RoomKeyOf, k)
  }

  ghost predicate IsConnected(s: BridgeState, k: RoomKey) {
    RoomOf(s, k).Some? && RoomOf(s, k).value.status == Connected
  }

  function StepRoom(e: Option<RoomBinding>, op: Op, k: RoomKey): Option<RoomBinding> {
    match op
    case Connect(key, now) =>
      if key != k || !ValidRoomKey(k) then e
      else if e.None? then Some(RoomBinding(k, Connected, now, now))
      else Some(e.value.(status := Connected, updatedAt := now))
    case Disconnect(key, now) =>
      if key != k || !ValidRoomKey(k) || e.None? then e
      else Some(e.value.(status := Disconnected, updatedAt := now))
    case _ => e
  }

  lemma RoomIndexIsFind(rooms: seq<RoomBinding>, k: RoomKey)
    requires KeysUnique(rooms, RoomKeyOf)
    ensures var i := RoomIndex(rooms, k);
            Find(rooms, RoomKeyOf, k) == if i < |rooms| then Some(rooms[i]) else None
  {
    var i := RoomIndex(rooms, k);
    if i < |rooms| {
      FindIs(rooms, RoomKeyOf, i);
    }
  }

  lemma ConnectStep(s: BridgeState, key: RoomKey, now: Time, k: RoomKey)
    requires KeysUnique(s.rooms, RoomKeyOf)
    ensures var after := ConnectRoom(s, key, now).0;
      KeysUnique(after.rooms, RoomKeyOf) && RoomOf(after, k) == StepRoom(RoomOf(s, k), Connect(key, now), k)
  {
    RoomIndexIsFind(s.rooms, key);
    var i := RoomIndex(s.rooms, key);
    if i < |s.rooms| {
      Replace(s.rooms, RoomKeyOf, i, s.rooms[i].(status := Connected, updatedAt := now), k);
    } else {
      Push(s.rooms, RoomKeyOf, RoomBinding(key, Connected, now, now), k);
    }
  }

  lemma DisconnectStep(s: BridgeState, key: RoomKey, now: Time, k: RoomKey)
    requires KeysUnique(s.rooms, RoomKeyOf)
    ensures var after := DisconnectRoom(s, key, now).0;
      KeysUnique(after.rooms, RoomKeyOf) && RoomOf(after, k) == StepRoom(RoomOf(s, k), Disconnect(key, now), k)
  {
    RoomIndexIsFind(s.rooms, key);
    var i := RoomIndex(s.rooms, key);
    if i < |s.rooms| {
      Replace(s.rooms, RoomKeyOf, i, s.rooms[i].(status := Disconnected, updatedAt := now), k);
    }
  }

  /** The room list is exactly a map from the five-field key. */
  lemma RoomsRefineMap(s: BridgeState, op: Op, k: RoomKey)
    requires KeysUnique(s.rooms, RoomKeyOf)
    ensures KeysUnique(Apply(s, op).rooms, RoomKeyOf)
    ensures RoomOf(Apply(s, op), k) == StepRoom(RoomOf(s, k), op, k)
  {
    match op
    case Connect(key, now) => ConnectStep(s, key, now, k);
    case Disconnect(key, now) => DisconnectStep(s, key, now, k);
    case _ =>
  }

  // ---- project room proposals ----

  ghost function ProposalOf(s: BridgeState, id: ProposalId): Option<Proposal> {
    Find(s.proposals, ProposalIdOf, id)
  }

  function StepStatus(e: Option<ProposalStatus>, op: Op, id: ProposalId): Option<ProposalStatus> {
    match op
    case Begin(i, t, _) =>
      if i != id || !ValidProposal(id, t) then e
      else if e.None? || e.value == PromptFailed then Some(Pending) else e
    case BeginManual(i, t, _) =>
      if i == id && ValidProposal(id, t) then Some(Pending) else e
    case Mark(i, mark, _) =>
      if i != id || !mark.Valid() || e.None? then e
      else Some(match mark
                case PromptSent(_, _, _) => Pending
                case MarkPromptFailed => PromptFailed
                case MarkIgnored => Ignored
                case CompleteWithRoom(_, _) => RoomCreated)
    case _ => e
  }

  ghost function StatusOf(s: BridgeState, id: ProposalId): Option<ProposalStatus> {
    var p := ProposalOf(s, id);
    if p.Some? then Some(p.value.status) else None
  }

  lemma ProposalIndexIsFind(proposals: seq<Proposal>, id: ProposalId)
    requires KeysUnique(proposals, ProposalIdOf)
    ensures var i := ProposalIndex(proposals, id);
            Find(proposals, ProposalIdOf, id) == if i < |proposals| then Some(proposals[i]) else None
  {
    var i := ProposalIndex(proposals, id);
    if i < |proposals| {
      FindIs(proposals, ProposalIdOf, i);
    }
  }

  lemma SettleAllKeepsIds(proposals: seq<Proposal>, k: RoomKey, now: Time, id: ProposalId)
    requires KeysUnique(proposals, ProposalIdOf)
    ensures var after := SettleAll(proposals, k, now);
      && KeysUnique(after, ProposalIdOf)
      && var e := Find(proposals, ProposalIdOf, id);
         Find(after, ProposalIdOf, id) == if e.Some? then Some(Settled(e.value, k, now)) else None
  {
    var after := SettleAll(proposals, k, now);
    assert forall i :: 0 <= i < |after| ==> ProposalIdOf(after[i]) == ProposalIdOf(proposals[i]);
    if i :| 0 <= i < |proposals| && ProposalIdOf(proposals[i]) == id {
      FindIs(proposals, ProposalIdOf, i);
      FindIs(after, ProposalIdOf, i);
    }
  }

  lemma BeginStep(s: BridgeState, i: ProposalId, t: string, now: Time, id: ProposalId)
    requires KeysUnique(s.proposals, ProposalIdOf)
    ensures var after := BeginPrompt(s, i, t, now).0;
      KeysUnique(after.proposals, ProposalIdOf)
        && StatusOf(after, id) == StepStatus(StatusOf(s, id), Begin(i, t, now), id)
  {
    ProposalIndexIsFind(s.proposals, i);
    var n, after := ProposalIndex(s.proposals, i), BeginPrompt(s, i, t, now).0;
    if n == |s.proposals| {
      Push(s.proposals, ProposalIdOf, NewProposal(i, t, now), id);
    } else if ValidProposal(i, t) {
      Replace(s.proposals, ProposalIdOf, n, after.proposals[n], id);
    }
  }

  lemma BeginManualStep(s: BridgeState, i: ProposalId, t: string, now: Time, id: ProposalId)
    requires KeysUnique(s.proposals, ProposalIdOf)
    ensures var after := BeginManualPrompt(s, i, t, now).0;
      KeysUnique(after.proposals, ProposalIdOf)
        && StatusOf(after, id) == StepStatus(StatusOf(s, id), BeginManual(i, t, now), id)
  {
    ProposalIndexIsFind(s.proposals, i);
    var n, after := ProposalIndex(s.proposals, i), BeginManualPrompt(s, i, t, now).0;
    if n == |s.proposals| {
      Push(s.proposals, ProposalIdOf, NewProposal(i, t, now), id);
    } else if ValidProposal(i, t) {
      Replace(s.proposals, ProposalIdOf, n, after.proposals[n], id);
    }
  }

  lemma MarkStep(s: BridgeState, i: ProposalId, mark: ProposalMark, now: Time, id: ProposalId)
    requires KeysUnique(s.proposals, ProposalIdOf)
    ensures var after := MarkProposal(s, i, mark, now).0;
      KeysUnique(after.proposals, ProposalIdOf)
        && StatusOf(after, id) == StepStatus(StatusOf(s, id), Mark(i, mark, now), id)
  {
    ProposalIndexIsFind(s.proposals, i);
    var n := ProposalIndex(s.proposals, i);
    if n < |s.proposals| {
      Replace(s.proposals, ProposalIdOf, n, Marked(s.proposals[n], mark, now), id);
    }
  }

  /** The proposal list is exactly a map from the proposal id; a connect only settles entries. */
  lemma ProposalsRefineMap(s: BridgeState, op: Op, id: ProposalId)
    requires KeysUnique(s.proposals, ProposalIdOf)
    ensures KeysUnique(Apply(s, op).proposals, ProposalIdOf)
    ensures var was, later := StatusOf(s, id), StatusOf(Apply(s, op), id);
      if op.Connect? then later == was || (was.Some? && was.value != RoomCreated && later == Some(BoundToExisting))
      else later == StepStatus(was, op, id)
  {
    match op
    case Connect(k, now) => SettleAllKeepsIds(s.proposals, k, now, id);
    case Begin(i, t, now) => BeginStep(s, i, t, now, id);
    case BeginManual(i, t, now) => BeginManualStep(s, i, t, now, id);
    case Mark(i, mark, now) => MarkStep(s, i, mark, now, id);
    case _ =>
  }

  /** Connecting a room settles the open proposal for its provider and folder, in this room, and
      leaves every other proposal exactly as it was. */
  lemma ConnectSettles(s: BridgeState, k: RoomKey, now: Time, id: ProposalId)
    requires Inv(s) && ValidRoomKey(k)
    ensures var e, later := ProposalOf(s, id), ProposalOf(ConnectRoom(s, k, now).0, id);
      if e.Some? && id == ProposalId(k.room.providerId, k.projectPath)
         && e.value.providerType == k.room.providerType && e.value.status != RoomCreated
      then
        later == Some(e.value.(status := BoundToExisting, accountId := Some(k.room.accountId),
                               createdRoomId := Some(k.room.conversationId), updatedAt := now))
      else later == e
  {
    SettleAllKeepsIds(s.proposals, k, now, id);
  }

  // ---- thread bindings ----

  ghost function ThreadOf(s: BridgeState, k: ThreadKey): Option<ThreadBinding> {
    Find(s.threads, ThreadKeyOf, k)
  }

  function StepThread(e: Option<ThreadBinding>, op: Op, k: ThreadKey): Option<ThreadBinding> {
    if !op.Bind? || op.input.key != k || !ValidThread(op.input) then e
    else if e.None? then Some(ThreadBinding(k, op.input.projectPath, op.input.source, op.input.routeHash, op.now))
    else if SameSession(e.value, op.input)
      && e.value.routeHash.None? then Some(e.value.(routeHash := op.input.routeHash))
    else e
  }

  lemma ThreadIndexIsFind(threads: seq<ThreadBinding>, k: ThreadKey)
    requires KeysUnique(threads, ThreadKeyOf)
    ensures var i := ThreadIndex(threads, k);
            Find(threads, ThreadKeyOf, k) == if i < |threads| then Some(threads[i]) else None
  {
    var i := ThreadIndex(threads, k);
    if i < |threads| {
      FindIs(threads, ThreadKeyOf, i);
    }
  }

  lemma ThreadsRefineMap(s: BridgeState, op: Op, k: ThreadKey)
    requires KeysUnique(s.threads, ThreadKeyOf)
    ensures KeysUnique(Apply(s, op).threads, ThreadKeyOf)
    ensures ThreadOf(Apply(s, op), k) == StepThread(ThreadOf(s, k), op, k)
  {
    if op.Bind? {
      ThreadIndexIsFind(s.threads, op.input.key);
      var i := ThreadIndex(s.threads, op.input.key);
      if i < |s.threads| {
        Replace(s.threads, ThreadKeyOf, i, s.threads[i].(routeHash := op.input.routeHash), k);
      } else {
        Push(s.threads, ThreadKeyOf,
             ThreadBinding(op.input.key, op.input.projectPath, op.input.source, op.input.routeHash, op.now), k);
      }
    }
  }

  lemma ChatsStayUnique(s: BridgeState, op: Op)
    requires KeysUnique(s.directChats, ChatRoomOf)
    ensures KeysUnique(Apply(s, op).directChats, ChatRoomOf)
  {
    if op.Remember? {
      var i := ChatIndex(s.directChats, op.room);
      if i < |s.directChats| {
        Replace(s.directChats, ChatRoomOf, i, s.directChats[i].(updatedAt := op.now), op.room);
      } else {
        Push(s.directChats, ChatRoomOf, DirectChat(op.room, op.now, op.now), op.room);
      }
    }
  }

  lemma RoomKeysStayValid(s: BridgeState, op: Op)
    requires forall r :: r in s.rooms ==> ValidRoomKey(r.key)
    ensures forall r :: r in Apply(s, op).rooms ==> ValidRoomKey(r.key)
  {
  }

  const SOME_KEY := RoomKey(Room("", "", "", ""), "")

  lemma ApplyKeepsInv(s: BridgeState, op: Op)
    requires Inv(s)
    ensures Inv(Apply(s, op))
  {
    RoomsRefineMap(s, op, SOME_KEY);
    RoomKeysStayValid(s, op);
    ChatsStayUnique(s, op);
    ProposalsRefineMap(s, op, ProposalId("", ""));
    ThreadsRefineMap(s, op, ThreadKey(SOME_KEY.room, ""));
  }

  // ---- runs ----

  datatype Run = Run(states: seq<BridgeState>, ops: seq<Op>) {
    ghost predicate Valid() {
      && |states| == |ops| + 1
      && Inv(states[0])
      && forall i :: 0 <= i < |ops| ==> Moved(i)
    }

    ghost predicate Moved(i: nat)
      requires |states| == |ops| + 1 && i < |ops|
    {
      states[i + 1] == Apply(states[i], ops[i])
    }

    /** The automatic prompt for `id` was answered with "send it". */
    ghost predicate Prompted(i: nat, id: ProposalId)
      requires Valid() && i < |ops|
    {
      && ops[i].Begin? && ops[i].id == id
      && var r := BeginPrompt(states[i], id, ops[i].providerType, ops[i].now).1;
         r.Ok? && r.value.Prompt?
    }

    ghost predicate MarkedFailed(i: nat, id: ProposalId)
      requires Valid() && i < |ops|
    {
      ops[i].Mark? && ops[i].id == id && ops[i].mark == MarkPromptFailed && ProposalOf(states[i], id).Some?
    }

    predicate Connects(i: nat, k: RoomKey)
      requires i < |ops|
    {
      ops[i].Connect? && ops[i].key == k && ValidRoomKey(k)
    }

    predicate Disconnects(i: nat, k: RoomKey)
      requires i < |ops|
    {
      ops[i].Disconnect? && ops[i].key == k && ValidRoomKey(k)
    }
  }

  lemma {:induction false} ReachableInv(r: Run, n: nat)
    requires r.Valid() && n <= |r.ops|
    ensures Inv(r.states[n])
  {
    if n == 0 {
    } else {
      ReachableInv(r, n - 1);
      assert r.Moved(n - 1);
      ApplyKeepsInv(r.states[n - 1], r.ops[n - 1]);
    }
  }

  lemma RoomMoves(r: Run, n: nat, k: RoomKey)
    requires r.Valid() && n < |r.ops|
    ensures IsConnected(r.states[n + 1], k) <==>
      r.Connects(n, k) || (IsConnected(r.states[n], k) && !r.Disconnects(n, k))
  {
    ReachableInv(r, n);
    assert r.Moved(n);
    RoomsRefineMap(r.states[n], r.ops[n], k);
  }

  ghost predicate Undisturbed(r: Run, from: nat, to: nat, k: RoomKey)
    requires to <= |r.ops|
  {
    forall l :: from <= l < to ==> !r.Disconnects(l, k)
  }

  /** Before step `n` the last command for the pair was a connect, or there was none and it was connected
      from the start. */
  ghost predicate LastConnects(r: Run, n: nat, k: RoomKey)
    requires r.Valid() && n <= |r.ops|
  {
    || (exists m :: 0 <= m < n && r.Connects(m, k) && Undisturbed(r, m + 1, n, k))
    || (IsConnected(r.states[0], k) && Undisturbed(r, 0, n, k))
  }

  lemma LastConnectsNext(r: Run, n: nat, k: RoomKey)
    requires r.Valid() && n < |r.ops|
    ensures LastConnects(r, n + 1, k) <==> r.Connects(n, k) || (LastConnects(r, n, k) && !r.Disconnects(n, k))
  {
    assert forall from ::
      0 <= from <= n ==> (Undisturbed(r, from, n + 1, k) <==> Undisturbed(r, from, n, k) && !r.Disconnects(n, k));
    if r.Connects(n, k) {
      assert Undisturbed(r, n + 1, n + 1, k);
    }
  }

  /** A project is connected to a room exactly when the last command for the pair was a connect. */
  lemma {:induction false} ConnectedIffLastCommandConnects(r: Run, n: nat, k: RoomKey)
    requires r.Valid() && n <= |r.ops|
    ensures IsConnected(r.states[n], k) <==> LastConnects(r, n, k)
  {
    if n == 0 {
    } else {
      ConnectedIffLastCommandConnects(r, n - 1, k);
      RoomMoves(r, n - 1, k);
      LastConnectsNext(r, n - 1, k);
    }
  }

  lemma ThreadMoves(r: Run, n: nat, k: ThreadKey)
    requires r.Valid() && n < |r.ops|
    ensures ThreadOf(r.states[n + 1], k) == StepThread(ThreadOf(r.states[n], k), r.ops[n], k)
  {
    ReachableInv(r, n);
    assert r.Moved(n);
    ThreadsRefineMap(r.states[n], r.ops[n], k);
  }

  /** A thread keeps its session, its folder and its creation time for ever; its route hash is
      written at most once. */
  lemma {:induction false} ThreadBindingIsWriteOnce(r: Run, i: nat, j: nat, k: ThreadKey)
    requires r.Valid() && i <= j <= |r.ops|
    requires ThreadOf(r.states[i], k).Some?
    ensures var was, later := ThreadOf(r.states[i], k).value, ThreadOf(r.states[j], k);
      && later.Some?
      && later.value.source == was.source && later.value.projectPath == was.projectPath
      && later.value.createdAt == was.createdAt
      && (was.routeHash.Some? ==> later.value.routeHash == was.routeHash)
  {
    if i == j {
    } else {
      ThreadBindingIsWriteOnce(r, i, j - 1, k);
      ThreadMoves(r, j - 1, k);
    }
  }

  predicate CanJoin(t: ThreadBinding, input: ThreadInput) {
    && t.source == input.source && ShareTree(t.projectPath, input.projectPath)
    && (t.routeHash == input.routeHash || t.routeHash.None?)
  }

  /** A bind is rejected, and then changes nothing, exactly when the thread already belongs to
      another session, to an unrelated folder, or to another route. */
  lemma BindIsRejectedIffTaken(s: BridgeState, input: ThreadInput, now: Time)
    requires Inv(s) && ValidThread(input)
    ensures var (after, reply), e := BindThread(s, input, now), ThreadOf(s, input.key);
      && (reply.Err? ==> after == s)
      && (reply.Err? <==> e.Some? && !CanJoin(e.value, input))
  {
    ThreadIndexIsFind(s.threads, input.key);
  }

  lemma BoundIsStored(s: BridgeState, input: ThreadInput, now: Time)
    requires Inv(s) && BindThread(s, input, now).1.Ok?
    ensures ValidThread(input)
    ensures var reply, t := BindThread(s, input, now).1.value, ThreadOf(BindThread(s, input, now).0, input.key);
      && t == Some(reply) && reply.key == input.key && reply.source == input.source
      && ShareTree(reply.projectPath, input.projectPath) && reply.routeHash == input.routeHash
  {
    ThreadIndexIsFind(s.threads, input.key);
    ThreadsRefineMap(s, Bind(input, now), input.key);
  }

  /** A stored thread of the session is found by session and folder, or a later one of the room is. */
  lemma StoredIsFound(s: BridgeState, k: ThreadKey, q: SessionQuery)
    requires Inv(s) && ValidQuery(q)
    requires ThreadOf(s, k).Some? && SessionMatches(ThreadOf(s, k).value, q)
    ensures LookupThread(s, k) == ThreadOf(s, k)
    ensures var found := LookupThreadForSession(s, q);
      found.Ok? && found.value.Some? && SessionMatches(found.value.value, q)
  {
    ThreadIndexIsFind(s.threads, k);
    assert SessionMatches(s.threads[ThreadIndex(s.threads, k)], q);
  }

  /** Right after a successful bind both lookups lead back to the bound session: by thread to the
      thread's own record, by session and folder to a binding in the same conversation. */
  lemma BoundThreadIsFound(s: BridgeState, input: ThreadInput, now: Time)
    requires Inv(s) && BindThread(s, input, now).1.Ok?
    ensures var (after, reply) := BindThread(s, input, now);
      && LookupThread(after, input.key) == Some(reply.value)
      && reply.value.source == input.source && ShareTree(reply.value.projectPath, input.projectPath)
      && reply.value.routeHash == input.routeHash
    ensures var found :=
      LookupThreadForSession(BindThread(s, input, now).0,
                             SessionQuery(input.key.room, input.projectPath, input.source));
      && found.Ok? && found.value.Some?
      && found.value.value.key.room == input.key.room && found.value.value.source == input.source
      && ShareTree(found.value.value.projectPath, input.projectPath)
  {
    ApplyKeepsInv(s, Bind(input, now));
    BoundIsStored(s, input, now);
    StoredIsFound(BindThread(s, input, now).0, input.key,
                  SessionQuery(input.key.room, input.projectPath, input.source));
  }

  predicate NeedsPrompt(status: Option<ProposalStatus>) {
    status.None? || status == Some(PromptFailed)
  }

  lemma PromptReply(s: BridgeState, id: ProposalId, providerType: string, now: Time)
    requires Inv(s)
    ensures var r := BeginPrompt(s, id, providerType, now).1;
      r.Ok? && r.value.Prompt? <==>
        ValidProposal(id, providerType) && NeedsPrompt(StatusOf(s, id))
  {
    ProposalIndexIsFind(s.proposals, id);
  }

  lemma StatusMoves(r: Run, n: nat, id: ProposalId)
    requires r.Valid() && n < |r.ops|
    ensures !NeedsPrompt(StatusOf(r.states[n], id)) && NeedsPrompt(StatusOf(r.states[n + 1], id))
      ==> r.MarkedFailed(n, id)
  {
    ReachableInv(r, n);
    assert r.Moved(n);
    ProposalsRefineMap(r.states[n], r.ops[n], id);
  }

  /** Once known, a proposal can only come to need a prompt through a prompt-failed mark. */
  lemma {:induction false} FailedNeedsMark(r: Run, i: nat, j: nat, id: ProposalId) returns (m: nat)
    requires r.Valid() && i <= j <= |r.ops|
    requires !NeedsPrompt(StatusOf(r.states[i], id)) && NeedsPrompt(StatusOf(r.states[j], id))
    ensures i <= m < j && r.MarkedFailed(m, id)
  {
    StatusMoves(r, j - 1, id);
    if !NeedsPrompt(StatusOf(r.states[j - 1], id)) {
      m := j - 1;
    } else {
      m := FailedNeedsMark(r, i, j - 1, id);
    }
  }

  /** The owner is asked about a project once: two automatic prompts for it are separated by a
      prompt-failed mark, whatever else happens to the proposal in between. */
  lemma PromptsAreSeparatedByFailure(r: Run, i: nat, j: nat, id: ProposalId)
    requires r.Valid() && i < j < |r.ops|
    requires r.Prompted(i, id) && r.Prompted(j, id)
    ensures exists m :: i < m < j && r.MarkedFailed(m, id)
  {
    ReachableInv(r, i);
    PromptReply(r.states[i], id, r.ops[i].providerType, r.ops[i].now);
    assert r.Moved(i);
    ProposalsRefineMap(r.states[i], r.ops[i], id);
    ReachableInv(r, j);
    PromptReply(r.states[j], id, r.ops[j].providerType, r.ops[j].now);
    var m := FailedNeedsMark(r, i + 1, j, id);
  }
}
