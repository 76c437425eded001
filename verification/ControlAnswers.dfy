/** What each control command answers and changes, stated on the handler of all commands. */
module ControlAnswers {
  import opened Basics
  import opened Tables
  import opened Text
  import opened ProjectPaths
  import opened BridgeBindingLedger
  import opened BridgeRuns
  import opened BridgeAnswers
  import opened BridgeControl
  import ChatCommands

  // ---- starting sessions ----

  /** The one folder a room's `/new` may run in: the named one, which exists and is connected to the room,
      or the only one that is connected. */
  ghost predicate MayRunIn(s: BridgeState, room: Room, path: Option<string>, isDir: string -> bool, p: string) {
    && IsConnected(s, RoomKey(room, p))
    && (path.Some? ==> path.value == p && isDir(p))
    && (path.None? ==> forall q :: IsConnected(s, RoomKey(room, q)) ==> q == p)
  }

  /** A room's `/new` changes nothing, and starts a session with the trimmed prompt in a folder exactly if
      the prompt is not blank and it may run in that folder. */
  lemma RoomNewSession(s: BridgeState, m: Incoming, now: Time, isDir: string -> bool, p: string, prompt: string)
    requires Inv(s) && m.command.NewSession?
    ensures Handle(s, m, now, isDir).0 == s
    ensures Handle(s, m, now, isDir).1 == Ok(StartSession(p, prompt)) <==>
      && prompt == Trim(m.command.prompt) && prompt != ""
      && MayRunIn(s, m.room, m.command.newPath, isDir, p)
  {
    PresentIffTrimNonEmpty(m.command.prompt);
    RoomSessionsRunInConnectedProjects(s, m.room, m.command.newPath, m.command.prompt, isDir, p);
  }

  /** A direct `/new` starts a session exactly in a named, clean, existing folder. */
  lemma DirectNewSession(s: BridgeState, m: Incoming, now: Time, isDir: string -> bool, p: string, prompt: string)
    requires Inv(s) && m.command.DirectNewSession?
    ensures Handle(s, m, now, isDir).1 == Ok(StartSession(p, prompt)) <==>
      && RoomIsTrimmed(m.room) && prompt == Trim(m.command.directPrompt) && prompt != ""
      && m.command.directPath == Some(p) && IsCleanAbsolute(p) && isDir(p)
  {
    PresentIffTrimNonEmpty(m.command.directPrompt);
    RoomIsValidIffTrimmed(m.room);
  }

  /** Why a room's `/new` starts nothing. */
  lemma RoomNewSessionRefused(s: BridgeState, m: Incoming, now: Time, isDir: string -> bool)
    requires Inv(s) && m.command.NewSession?
    ensures var answer, path := Handle(s, m, now, isDir).1, m.command.newPath;
      && (Trim(m.command.prompt) == "" ==> answer == Ok(Reply(NeedPrompt)))
      && (Trim(m.command.prompt) != "" && path.Some? ==>
            && (!IsCleanAbsolute(path.value) ==> answer == Ok(Reply(NeedFullPath)))
            && (IsCleanAbsolute(path.value) && !isDir(path.value) ==> answer == Ok(Reply(FolderMissing(path.value))))
            && (IsCleanAbsolute(path.value) && isDir(path.value) && !IsConnected(s, RoomKey(m.room, path.value)) ==>
                  answer == Ok(Reply(NotConnectedTo(path.value)))))
      && (Trim(m.command.prompt) != "" && path.None? && (forall p :: !IsConnected(s, RoomKey(m.room, p))) ==>
            answer == Ok(Reply(NotConnected)))
  {
    PresentIffTrimNonEmpty(m.command.prompt);
    if m.command.newPath.Some? {
      ConnectedListIsExact(s, m.room, m.command.newPath.value);
    } else {
      NothingListedIffNothingConnected(s, m.room);
    }
  }

  /** When several folders are connected and none is named, exactly the connected ones are offered. */
  lemma RoomNewSessionOffers(s: BridgeState, m: Incoming, now: Time, isDir: string -> bool, p: string, q: string,
                             path: string)
    requires Inv(s) && m.command.NewSession? && m.command.newPath.None? && Trim(m.command.prompt) != ""
    requires p != q && IsConnected(s, RoomKey(m.room, p)) && IsConnected(s, RoomKey(m.room, q))
    ensures var answer := Handle(s, m, now, isDir).1;
      && answer.Ok? && answer.value.Reply? && answer.value.notice.ChooseProject?
      && (path in answer.value.notice.paths <==> IsConnected(s, RoomKey(m.room, path)))
  {
    PresentIffTrimNonEmpty(m.command.prompt);
    ConnectedListIsExact(s, m.room, p);
    ConnectedListIsExact(s, m.room, q);
    ConnectedListIsExact(s, m.room, path);
    TwoAreListed(PathsOf(ConnectedProjects(s, m.room)), p, q);
  }

  lemma TwoAreListed(paths: seq<string>, p: string, q: string)
    requires p in paths && q in paths && p != q
    ensures |paths| >= 2
  {
    var i :| 0 <= i < |paths| && paths[i] == p;
    var j :| 0 <= j < |paths| && paths[j] == q;
  }

  /** Why a direct `/new` starts nothing. */
  lemma DirectNewSessionRefused(s: BridgeState, m: Incoming, now: Time, isDir: string -> bool)
    requires Inv(s) && m.command.DirectNewSession? && RoomIsTrimmed(m.room)
    ensures var answer, path := Handle(s, m, now, isDir).1, m.command.directPath;
      if Trim(m.command.directPrompt) == "" then answer == Ok(Reply(NeedPrompt))
      else if path.None? then answer == Ok(Reply(NeedFolder))
      else if !IsCleanAbsolute(path.value) then answer == Ok(Reply(NeedFullPath))
      else isDir(path.value) || answer == Ok(Reply(FolderMissing(path.value)))
  {
    PresentIffTrimNonEmpty(m.command.directPrompt);
    RoomIsValidIffTrimmed(m.room);
  }

  /** No other command starts a session. */
  lemma OnlyNewStartsSessions(s: BridgeState, m: Incoming, now: Time, isDir: string -> bool)
    ensures var answer := Handle(s, m, now, isDir).1;
      answer.Ok? && answer.value.StartSession? ==> m.command.NewSession? || m.command.DirectNewSession?
  {
  }

  // ---- binding and unbinding ----

  /** `/bind` is accepted exactly for a clean, existing folder; the pair is then connected, and otherwise
      nothing changes. */
  lemma BindCommand(s: BridgeState, m: Incoming, now: Time, isDir: string -> bool)
    requires Inv(s) && m.command.BindProject?
    ensures var (after, answer) := Handle(s, m, now, isDir);
      var path := m.command.path;
      if !IsCleanAbsolute(path) then answer == Ok(Reply(NeedFullPath)) && after == s
      else if !isDir(path) then answer == Ok(Reply(FolderMissing(path))) && after == s
      else if !RoomIsTrimmed(m.room) then answer == Err(InvalidInput) && after == s
      else answer == Ok(Reply(NowConnected(path))) && IsConnected(after, RoomKey(m.room, path))
  {
    ConnectAnswers(s, RoomKey(m.room, m.command.path), now);
  }

  lemma StoredRoomIsTrimmed(s: BridgeState, k: RoomKey)
    requires Inv(s) && RoomOf(s, k).Some?
    ensures RoomIsTrimmed(k.room) && IsCleanAbsolute(k.projectPath)
  {
    RoomIsValidIffTrimmed(k.room);
    assert RoomOf(s, k).value in s.rooms;
  }

  /** `/unbind <folder>` leaves the folder disconnected from the room and every other pair alone; it says
      so exactly if the pair was known. */
  lemma UnbindCommand(s: BridgeState, m: Incoming, now: Time, isDir: string -> bool, k: RoomKey)
    requires Inv(s) && m.command.UnbindProject? && m.command.unbindPath.Some?
    ensures var (after, answer) := Handle(s, m, now, isDir);
      var path := m.command.unbindPath.value;
      var key := RoomKey(m.room, path);
      && !IsConnected(after, key)
      && (k != key ==> RoomOf(after, k) == RoomOf(s, k))
      && (answer == Ok(Reply(DisconnectedFrom([path]))) <==> RoomOf(s, key).Some?)
      && (answer == Ok(Reply(NeedFullPath)) <==> !IsCleanAbsolute(path))
  {
    DisconnectedAfter(s, RoomKey(m.room, m.command.unbindPath.value), now, k);
  }

  lemma DisconnectedAfter(s: BridgeState, key: RoomKey, now: Time, k: RoomKey)
    requires Inv(s)
    ensures var (after, answer) := DisconnectRoom(s, key, now);
      && !IsConnected(after, key)
      && (k != key ==> RoomOf(after, k) == RoomOf(s, k))
      && (answer.Ok? && answer.value.Some? <==> RoomOf(s, key).Some?)
      && (RoomOf(s, key).Some? ==> IsCleanAbsolute(key.projectPath))
  {
    DisconnectAnswers(s, key, now);
    DisconnectStep(s, key, now, k);
    if RoomOf(s, key).Some? {
      StoredRoomIsTrimmed(s, key);
    }
  }

  /** A bare `/unbind` leaves no folder connected to the room; it says so exactly if there was one. */
  lemma UnbindAllCommand(s: BridgeState, m: Incoming, now: Time, isDir: string -> bool, k: RoomKey)
    requires Inv(s) && m.command.UnbindProject? && m.command.unbindPath.None?
    ensures var (after, answer) := Handle(s, m, now, isDir);
      && answer.Ok?
      && (k.room == m.room ==> !IsConnected(after, k))
      && (k.room != m.room || !IsConnected(s, k) ==> RoomOf(after, k) == RoomOf(s, k))
      && (answer == Ok(Reply(NotConnected)) <==> forall path :: !IsConnected(s, RoomKey(m.room, path)))
  {
    UnbindAllEmptiesRoom(s, m.room, now, k);
    NothingListedIffNothingConnected(s, m.room);
  }

  lemma NothingListedIffNothingConnected(s: BridgeState, room: Room)
    requires Inv(s)
    ensures ConnectedProjects(s, room) == [] <==> forall path :: !IsConnected(s, RoomKey(room, path))
  {
    var connected := ConnectedProjects(s, room);
    if connected == [] {
      forall path
        ensures !IsConnected(s, RoomKey(room, path))
      {
        ConnectedListIsExact(s, room, path);
      }
    } else {
      var path := PathsOf(connected)[0];
      assert path in PathsOf(connected);
      ConnectedListIsExact(s, room, path);
    }
  }

  /** Every pair of the list is known. */
  ghost predicate AllKnown(s: BridgeState, room: Room, records: seq<RoomBinding>) {
    forall m :: 0 <= m < |records| ==> records[m].key.room == room && RoomOf(s, records[m].key).Some?
  }

  lemma DisconnectKnown(s: BridgeState, room: Room, records: seq<RoomBinding>, n: nat, now: Time)
    requires Inv(s) && AllKnown(s, room, records) && n < |records|
    ensures var (after, one) := DisconnectRoom(s, RoomKey(room, records[n].key.projectPath), now);
      && Inv(after) && AllKnown(after, room, records)
      && one.Ok? && one.value.Some? && one.value.value.key == records[n].key
  {
    var key := records[n].key;
    assert RoomKey(room, key.projectPath) == key;
    DisconnectAnswers(s, key, now);
    StoredRoomIsTrimmed(s, key);
    ApplyKeepsInv(s, Disconnect(key, now));
    forall m | 0 <= m < |records|
      ensures RoomOf(DisconnectRoom(s, key, now).0, records[m].key).Some?
    {
      DisconnectStep(s, key, now, records[m].key);
    }
  }

  ghost predicate SameKeys(done: seq<RoomBinding>, records: seq<RoomBinding>, n: nat)
    requires n <= |records|
  {
    |done| == n && forall m :: 0 <= m < n ==> done[m].key == records[m].key
  }

  /** After `n` records: sound, all pairs still known, and the answers so far are about these records. */
  ghost predicate Progress(after: BridgeState, done: Result<seq<RoomBinding>, BridgeError>, room: Room,
                           records: seq<RoomBinding>, n: nat)
    requires n <= |records|
  {
    Inv(after) && AllKnown(after, room, records) && done.Ok? && SameKeys(done.value, records, n)
  }

  lemma ProgressNext(before: BridgeState, done: Result<seq<RoomBinding>, BridgeError>, room: Room,
                     records: seq<RoomBinding>, n: nat, now: Time)
    requires n < |records| && Progress(before, done, room, records, n)
    ensures var (after, one) := DisconnectRoom(before, RoomKey(room, records[n].key.projectPath), now);
      && one.Ok? && one.value.Some?
      && Progress(after, Ok(done.value + [one.value.value]), room, records, n + 1)
  {
    DisconnectKnown(before, room, records, n, now);
  }

  lemma EachNext(s: BridgeState, room: Room, records: seq<RoomBinding>, n: nat, now: Time,
                 before: BridgeState, done: seq<RoomBinding>, after: BridgeState, one: RoomBinding)
    requires n < |records| && DisconnectEach(s, room, records, n, now) == (before, Ok(done))
    requires DisconnectRoom(before, RoomKey(room, records[n].key.projectPath), now) == (after, Ok(Some(one)))
    ensures DisconnectEach(s, room, records, n + 1, now) == (after, Ok(done + [one]))
  {
  }

  lemma {:induction false} DisconnectEachAnswers(s: BridgeState, room: Room, records: seq<RoomBinding>, n: nat,
                                                 now: Time)
    returns (after: BridgeState, done: seq<RoomBinding>)
    requires Inv(s) && AllKnown(s, room, records) && n <= |records|
    ensures DisconnectEach(s, room, records, n, now) == (after, Ok(done))
    ensures Progress(after, Ok(done), room, records, n)
  {
    if n == 0 {
      after, done := s, [];
    } else {
      var before, front := DisconnectEachAnswers(s, room, records, n - 1, now);
      ProgressNext(before, Ok(front), room, records, n - 1, now);
      var (next, one) := DisconnectRoom(before, RoomKey(room, records[n - 1].key.projectPath), now);
      EachNext(s, room, records, n - 1, now, before, front, next, one.value.value);
      after, done := next, front + [one.value.value];
    }
  }

  lemma UnbindAllReply(s: BridgeState, m: Incoming, now: Time, isDir: string -> bool, done: seq<RoomBinding>)
    requires m.command == UnbindAll() && ConnectedProjects(s, m.room) != []
    requires DisconnectEach(s, m.room, ConnectedProjects(s, m.room), |ConnectedProjects(s, m.room)|, now).1 == Ok(done)
    ensures Handle(s, m, now, isDir).1 == Ok(Reply(DisconnectedFrom(PathsOf(done))))
  {
  }

  function UnbindAll(): Command {
    ChatCommands.UnbindProject(None)
  }

  lemma ConnectedAreKnown(s: BridgeState, room: Room)
    requires Inv(s)
    ensures AllKnown(s, room, ConnectedProjects(s, room))
  {
    var connected := ConnectedProjects(s, room);
    forall i | 0 <= i < |connected|
      ensures connected[i].key.room == room && RoomOf(s, connected[i].key).Some?
    {
      assert connected[i] in connected;
      var j :| 0 <= j < |s.rooms| && s.rooms[j] == connected[i];
      FindIs(s.rooms, RoomKeyOf, j);
    }
  }

  /** The answer to a bare `/unbind` names exactly the folders that were connected. */
  lemma UnbindAllNames(s: BridgeState, m: Incoming, now: Time, isDir: string -> bool, path: string)
    requires Inv(s) && m.command.UnbindProject? && m.command.unbindPath.None?
    requires ConnectedProjects(s, m.room) != []
    ensures var answer := Handle(s, m, now, isDir).1;
      && answer.Ok? && answer.value.Reply? && answer.value.notice.DisconnectedFrom?
      && (path in answer.value.notice.paths <==> IsConnected(s, RoomKey(m.room, path)))
  {
    var connected := ConnectedProjects(s, m.room);
    ConnectedAreKnown(s, m.room);
    var _, done := DisconnectEachAnswers(s, m.room, connected, |connected|, now);
    SameKeysSamePaths(done, connected);
    UnbindAllReply(s, m, now, isDir, done);
    ConnectedListIsExact(s, m.room, path);
  }

  lemma SameKeysSamePaths(done: seq<RoomBinding>, records: seq<RoomBinding>)
    requires SameKeys(done, records, |records|)
    ensures PathsOf(done) == PathsOf(records)
  {
  }

  // ---- status ----

  /** `/status` in a room lists exactly the connected folders, and changes nothing. */
  lemma StatusCommand(s: BridgeState, m: Incoming, now: Time, isDir: string -> bool, path: string)
    requires Inv(s) && m.command.Status?
    ensures var (after, answer) := Handle(s, m, now, isDir);
      && after == s && answer.Ok? && answer.value.Reply? && answer.value.notice.StatusOf?
      && (path in answer.value.notice.paths <==> IsConnected(s, RoomKey(m.room, path)))
  {
    ConnectedListIsExact(s, m.room, path);
  }

  /** Connected to some conversation of the account. */
  ghost predicate ConnectedInAccount(s: BridgeState, room: Room, path: string) {
    exists conversation: string ::
      IsConnected(s, RoomKey(Room(room.providerId, room.providerType, room.accountId, conversation), path))
  }

  /** `/status` in a direct chat lists exactly the folders connected to any conversation of the account. */
  lemma DirectStatusCommand(s: BridgeState, m: Incoming, now: Time, isDir: string -> bool, path: string)
    requires Inv(s) && m.command.DirectStatus? && RoomIsTrimmed(m.room)
    ensures var (after, answer) := Handle(s, m, now, isDir);
      && after.rooms == s.rooms && answer.Ok? && answer.value.Reply? && answer.value.notice.StatusOf?
      && (path in answer.value.notice.paths <==> ConnectedInAccount(s, m.room, path))
  {
    RoomIsValidIffTrimmed(m.room);
    var room := m.room;
    var mine := (r: RoomBinding) =>
      r.key.room.providerId == room.providerId && r.key.room.providerType == room.providerType
      && r.key.room.accountId == room.accountId && r.status == Connected;
    var rows := Filter(s.rooms, mine);
    RowsAreConnected(s, room, rows, path, mine);
  }

  lemma RowsAreConnected(s: BridgeState, room: Room, rows: seq<RoomBinding>, path: string, mine: RoomBinding -> bool)
    requires Inv(s) && rows == Filter(s.rooms, mine)
    requires forall r: RoomBinding :: mine(r) <==> IsAccountRow(r, room)
    ensures path in PathsOf(rows) <==> ConnectedInAccount(s, room, path)
  {
    if path in PathsOf(rows) {
      var i :| 0 <= i < |rows| && PathsOf(rows)[i] == path;
      assert rows[i] in rows;
      RowIsConnected(s, room, rows[i]);
    }
    if ConnectedInAccount(s, room, path) {
      var r := ConnectedHasRow(s, room, path);
      assert r in rows;
      var i :| 0 <= i < |rows| && rows[i] == r;
      assert PathsOf(rows)[i] == path;
    }
  }

  predicate IsAccountRow(r: RoomBinding, room: Room) {
    && r.key.room.providerId == room.providerId && r.key.room.providerType == room.providerType
    && r.key.room.accountId == room.accountId && r.status == Connected
  }

  lemma RowIsConnected(s: BridgeState, room: Room, r: RoomBinding)
    requires Inv(s) && r in s.rooms && IsAccountRow(r, room)
    ensures ConnectedInAccount(s, room, r.key.projectPath)
  {
    var j :| 0 <= j < |s.rooms| && s.rooms[j] == r;
    FindIs(s.rooms, RoomKeyOf, j);
    var c := r.key.room.conversationId;
    assert r.key == RoomKey(Room(room.providerId, room.providerType, room.accountId, c), r.key.projectPath);
  }

  lemma ConnectedHasRow(s: BridgeState, room: Room, path: string) returns (r: RoomBinding)
    requires Inv(s) && ConnectedInAccount(s, room, path)
    ensures r in s.rooms && IsAccountRow(r, room) && r.key.projectPath == path
  {
    var c: string :| IsConnected(s, RoomKey(Room(room.providerId, room.providerType, room.accountId, c), path));
    r := RoomOf(s, RoomKey(Room(room.providerId, room.providerType, room.accountId, c), path)).value;
  }

  // ---- prompts and direct chats ----

  /** A direct request for a project room opens the project's proposal exactly for a clean, existing folder. */
  lemma ProjectRoomCommand(s: BridgeState, m: Incoming, now: Time, isDir: string -> bool)
    requires Inv(s) && m.command.DirectProjectRoomPrompt? && RoomIsTrimmed(m.room)
    ensures var (after, answer) := Handle(s, m, now, isDir);
      var path := m.command.path;
      && after.rooms == s.rooms && after.threads == s.threads
      && (if !IsCleanAbsolute(path) then answer == Ok(Reply(NeedFullPath)) && after.proposals == s.proposals
          else if !isDir(path) then answer == Ok(Reply(FolderMissing(path))) && after.proposals == s.proposals
          else
            && answer.Ok? && answer.value.ProjectRoomPrompt?
            && answer.value.proposal.status == Pending
            && ProposalOf(after, ProposalId(m.room.providerId, path)) == Some(answer.value.proposal))
  {
    RoomIsValidIffTrimmed(m.room);
    RememberAnswers(s, m.room, now, m.room);
    var s1 := RememberChat(s, m.room, now).0;
    ApplyKeepsInv(s, Remember(m.room, now));
    if IsCleanAbsolute(m.command.path) {
      BeginManualAnswers(s1, ProposalId(m.room.providerId, m.command.path), m.room.providerType, now);
    }
  }

  predicate IsRoomCommand(c: Command) {
    || c.BindProject? || c.Help? || c.NewSession? || c.RoomGuidance? || c.Status? || c.UnbindProject? || c.Invalid?
  }

  lemma UnbindKeepsChats(s: BridgeState, room: Room, path: Option<string>, now: Time)
    requires Inv(s)
    ensures UnbindProject(s, room, path, now).0.directChats == s.directChats
  {
    if path.None? {
      UnbindAllEmptiesRoom(s, room, now, RoomKey(room, ""));
    }
  }

  lemma BindKeepsChats(s: BridgeState, room: Room, path: string, now: Time, isDir: string -> bool)
    ensures BindProject(s, room, path, now, isDir).0.directChats == s.directChats
  {
  }

  lemma PromptKeepsChats(s: BridgeState, room: Room, path: string, now: Time, isDir: string -> bool)
    ensures PromptForRoom(s, room, path, now, isDir).0.directChats == s.directChats
  {
  }

  lemma ReactKeepsChats(s: BridgeState, m: Incoming, now: Time, isDir: string -> bool)
    requires Inv(s)
    ensures React(s, m, now, isDir).0.directChats == s.directChats
  {
    match m.command
    case UnbindProject(path) => UnbindKeepsChats(s, m.room, path, now);
    case BindProject(path) => BindKeepsChats(s, m.room, path, now, isDir);
    case DirectProjectRoomPrompt(path) => PromptKeepsChats(s, m.room, path, now, isDir);
    case _ =>
  }

  /** A direct command of a known chat remembers the chat with the time of the command, before anything
      else can fail; a room command never touches a remembered chat. */
  lemma ChatIsRemembered(s: BridgeState, m: Incoming, now: Time, isDir: string -> bool)
    requires Inv(s)
    ensures var after := Handle(s, m, now, isDir).0;
      if IsRoomCommand(m.command) || !RoomIsTrimmed(m.room) then after.directChats == s.directChats
      else ChatOf(after, m.room).Some? && ChatOf(after, m.room).value.updatedAt == now
  {
    RoomIsValidIffTrimmed(m.room);
    RememberAnswers(s, m.room, now, m.room);
    if IsRoomCommand(m.command) {
      ReactKeepsChats(s, m, now, isDir);
    } else {
      ApplyKeepsInv(s, Remember(m.room, now));
      ReactKeepsChats(RememberChat(s, m.room, now).0, m, now, isDir);
    }
  }

  /** Commands that only say something. */
  lemma TalkChangesNothing(s: BridgeState, m: Incoming, now: Time, isDir: string -> bool)
    requires m.command.Help? || m.command.RoomGuidance? || m.command.Invalid?
    ensures var (after, answer) := Handle(s, m, now, isDir);
      after == s && answer == Ok(Reply(if m.command.Invalid? then NotUnderstood else Guidance))
  {
  }
}
