/** Carrying out control commands on the bridge binding ledger. */
module BridgeControl {
  import opened Basics
  import opened Tables
  import opened Text
  import opened ProjectPaths
  import opened BridgeBindingLedger
  import opened BridgeRuns
  import ChatCommands

  type Command = ChatCommands.Command

  // A control command as it arrived: where it was sent and what it asks for.
  datatype Incoming = Incoming(room: Room, threadId: string, command: Command)

  // What is said back; the wording is not modelled.
  datatype Notice =
    | NeedFullPath
    | FolderMissing(path: string)
    | NowConnected(path: string)
    | NotConnected
    | NotConnectedTo(path: string)
    | DisconnectedFrom(paths: seq<string>)
    | NeedPrompt
    | NeedFolder
    | ChooseProject(paths: seq<string>)
    | StatusOf(paths: seq<string>)
    | Guidance
    | NotUnderstood

  datatype ControlOutcome =
    | Reply(notice: Notice)
    | ProjectRoomPrompt(proposal: Proposal)
    | StartSession(projectPath: string, prompt: string)

  type Reaction = (BridgeState, Result<ControlOutcome, BridgeError>)

  function PathsOf(records: seq<RoomBinding>): seq<string> {
    seq(|records|, i requires 0 <= i < |records| => records[i].key.projectPath)
  }

  // ---- what each command does; `isDir` is the file system's answer ----

  function BindProject(s: BridgeState, room: Room, path: string, now: Time, isDir: string -> bool): Reaction {
    if !IsCleanAbsolute(path) then (s, Ok(Reply(NeedFullPath)))
    else if !isDir(path) then (s, Ok(Reply(FolderMissing(path))))
    else
      var (after, r) := ConnectRoom(s, RoomKey(room, path), now);
      (after, if r.Err? then Err(r.error) else Ok(Reply(NowConnected(path))))
  }

  function PromptForRoom(s: BridgeState, room: Room, path: string, now: Time, isDir: string -> bool): Reaction {
    if !IsCleanAbsolute(path) then (s, Ok(Reply(NeedFullPath)))
    else if !isDir(path) then (s, Ok(Reply(FolderMissing(path))))
    else
      var (after, r) := BeginManualPrompt(s, ProposalId(room.providerId, path), room.providerType, now);
      (after, if r.Err? then Err(r.error) else Ok(ProjectRoomPrompt(r.value)))
  }

  /** Disconnecting the first `n` records one after the other. */
  function DisconnectEach(s: BridgeState, room: Room, records: seq<RoomBinding>, n: nat, now: Time)
    : (BridgeState, Result<seq<RoomBinding>, BridgeError>)
    requires n <= |records|
  {
    if n == 0 then (s, Ok([]))
    else
      var (before, done) := DisconnectEach(s, room, records, n - 1, now);
      if done.Err? then (before, done)
      else
        var (after, r) := DisconnectRoom(before, RoomKey(room, records[n - 1].key.projectPath), now);
        (after, if r.Err? then Err(r.error)
                else if r.value.Some? then Ok(done.value + [r.value.value])
                else done)
  }

  function UnbindProject(s: BridgeState, room: Room, path: Option<string>, now: Time): Reaction {
    if path.None? then
      var connected := ConnectedProjects(s, room);
      if connected == [] then (s, Ok(Reply(NotConnected)))
      else
        var (after, r) := DisconnectEach(s, room, connected, |connected|, now);
        (after, if r.Err? then Err(r.error) else Ok(Reply(DisconnectedFrom(PathsOf(r.value)))))
    else if !IsCleanAbsolute(path.value) then (s, Ok(Reply(NeedFullPath)))
    else
      var (after, r) := DisconnectRoom(s, RoomKey(room, path.value), now);
      (after, if r.Err? then Err(r.error)
              else Ok(Reply(if r.value.Some? then DisconnectedFrom([path.value]) else NotConnectedTo(path.value))))
  }

  function ResolveNewSession(s: BridgeState, room: Room, path: Option<string>, prompt: string, isDir: string -> bool)
    : ControlOutcome
  {
    var connected := ConnectedProjects(s, room);
    if !Present(prompt) then Reply(NeedPrompt)
    else if path.Some? then
      if !IsCleanAbsolute(path.value) then Reply(NeedFullPath)
      else if !isDir(path.value) then Reply(FolderMissing(path.value))
      else if path.value !in PathsOf(connected) then Reply(NotConnectedTo(path.value))
      else StartSession(path.value, Trim(prompt))
    else if connected == [] then Reply(NotConnected)
    else if |connected| == 1 then StartSession(connected[0].key.projectPath, Trim(prompt))
    else Reply(ChooseProject(PathsOf(connected)))
  }

  function ResolveDirectNewSession(path: Option<string>, prompt: string, isDir: string -> bool): ControlOutcome {
    if !Present(prompt) then Reply(NeedPrompt)
    else if path.None? then Reply(NeedFolder)
    else if !IsCleanAbsolute(path.value) then Reply(NeedFullPath)
    else if !isDir(path.value) then Reply(FolderMissing(path.value))
    else StartSession(path.value, Trim(prompt))
  }

  function DirectStatus(s: BridgeState, room: Room): Result<ControlOutcome, BridgeError> {
    if !(PresentAndTrimmed(room.providerId) && PresentAndTrimmed(room.providerType)
      && PresentAndTrimmed(room.accountId)) then Err(InvalidInput)
    else Ok(Reply(StatusOf(PathsOf(Filter(s.rooms, (r: RoomBinding) =>
      r.key.room.providerId == room.providerId && r.key.room.providerType == room.providerType
      && r.key.room.accountId == room.accountId && r.status == Connected)))))
  }

  function React(s: BridgeState, m: Incoming, now: Time, isDir: string -> bool): Reaction {
    match m.command
    case DirectProjectRoomPrompt(path) => PromptForRoom(s, m.room, path, now, isDir)
    case DirectNewSession(path, prompt) => (s, Ok(ResolveDirectNewSession(path, prompt, isDir)))
    case DirectStatus => (s, DirectStatus(s, m.room))
    case NewSession(path, prompt) => (s, Ok(ResolveNewSession(s, m.room, path, prompt, isDir)))
    case BindProject(path) => BindProject(s, m.room, path, now, isDir)
    case Status => (s, Ok(Reply(StatusOf(PathsOf(ConnectedProjects(s, m.room))))))
    case UnbindProject(path) => UnbindProject(s, m.room, path, now)
    case Invalid => (s, Ok(Reply(NotUnderstood)))
    case _ => (s, Ok(Reply(Guidance)))
  }

  /** A direct chat is remembered before its command is carried out. */
  function Handle(s: BridgeState, m: Incoming, now: Time, isDir: string -> bool): Reaction {
    if m.command.IsDirect() then
      var (s1, r) := RememberChat(s, m.room, now);
      if r.Err? then (s1, Err(r.error)) else React(s1, m, now, isDir)
    else React(s, m, now, isDir)
  }

  // ---- the handlers ----

  method DisconnectRoomProjects(ledger: Ledger, room: Room, records: seq<RoomBinding>, now: Time)
    returns (r: Result<seq<RoomBinding>, BridgeError>)
    modifies ledger`rooms
    ensures (ledger.State(), r) == DisconnectEach(old(ledger.State()), room, records, |records|, now)
  {
    var disconnected: seq<RoomBinding> := [];
    var i := 0;
    while i < |records|
      invariant i <= |records|
      invariant (ledger.State(), Ok(disconnected)) == DisconnectEach(old(ledger.State()), room, records, i, now)
    {
      var one := ledger.DisconnectRoomProjectAt(RoomKey(room, records[i].key.projectPath), now);
      i := i + 1;
      if one.Err? {
        StopsAtError(old(ledger.State()), room, records, i, |records|, now);
        return Err(one.error);
      }
      if one.value.Some? {
        disconnected := disconnected + [one.value.value];
      }
    }
    r := Ok(disconnected);
  }

  lemma {:induction false} StopsAtError(s: BridgeState, room: Room, records: seq<RoomBinding>, n: nat, m: nat,
                                        now: Time)
    requires n <= m <= |records|
    requires DisconnectEach(s, room, records, n, now).1.Err?
    ensures DisconnectEach(s, room, records, m, now) == DisconnectEach(s, room, records, n, now)
  {
    if n == m {
    } else {
      StopsAtError(s, room, records, n, m - 1, now);
    }
  }

  method HandleProviderControlCommand(ledger: Ledger, m: Incoming, now: Time, isDir: string -> bool)
    returns (r: Result<ControlOutcome, BridgeError>)
    modifies ledger
    ensures (ledger.State(), r) == Handle(old(ledger.State()), m, now, isDir)
  {
    if m.command.IsDirect() {
      var chat := ledger.RememberOwnerDirectChatAt(m.room, now);
      if chat.Err? {
        return Err(chat.error);
      }
    }
    match m.command {
      case DirectProjectRoomPrompt(path) =>
        if !IsCleanAbsolute(path) {
          return Ok(Reply(NeedFullPath));
        }
        if !isDir(path) {
          return Ok(Reply(FolderMissing(path)));
        }
        var begun :=
          ledger.BeginManualProjectRoomProposalPromptAt(ProposalId(m.room.providerId, path), m.room.providerType, now);
        r := if begun.Err? then Err(begun.error) else Ok(ProjectRoomPrompt(begun.value));
      case DirectNewSession(path, prompt) =>
        r := Ok(ResolveDirectNewSession(path, prompt, isDir));
      case DirectStatus =>
        r := DirectStatus(ledger.State(), m.room);
      case NewSession(path, prompt) =>
        r := Ok(ResolveNewSession(ledger.State(), m.room, path, prompt, isDir));
      case BindProject(path) =>
        if !IsCleanAbsolute(path) {
          return Ok(Reply(NeedFullPath));
        }
        if !isDir(path) {
          return Ok(Reply(FolderMissing(path)));
        }
        var bound := ledger.ConnectRoomProjectAt(RoomKey(m.room, path), now);
        r := if bound.Err? then Err(bound.error) else Ok(Reply(NowConnected(path)));
      case Status =>
        r := Ok(Reply(StatusOf(PathsOf(ConnectedProjects(ledger.State(), m.room)))));
      case UnbindProject(path) =>
        r := UnbindRoom(ledger, m.room, path, now);
      case Invalid =>
        r := Ok(Reply(NotUnderstood));
      case _ =>
        r := Ok(Reply(Guidance));
    }
  }

  method UnbindRoom(ledger: Ledger, room: Room, path: Option<string>, now: Time)
    returns (r: Result<ControlOutcome, BridgeError>)
    modifies ledger`rooms
    ensures (ledger.State(), r) == UnbindProject(old(ledger.State()), room, path, now)
  {
    if path.None? {
      var connected := ConnectedProjects(ledger.State(), room);
      if connected == [] {
        return Ok(Reply(NotConnected));
      }
      var done := DisconnectRoomProjects(ledger, room, connected, now);
      return if done.Err? then Err(done.error) else Ok(Reply(DisconnectedFrom(PathsOf(done.value))));
    }
    if !IsCleanAbsolute(path.value) {
      return Ok(Reply(NeedFullPath));
    }
    var one := ledger.DisconnectRoomProjectAt(RoomKey(room, path.value), now);
    if one.Err? {
      return Err(one.error);
    }
    r := Ok(Reply(if one.value.Some? then DisconnectedFrom([path.value]) else NotConnectedTo(path.value)));
  }

  // ---- what the commands guarantee ----

  lemma ConnectedListIsExact(s: BridgeState, room: Room, path: string)
    requires Inv(s)
    ensures path in PathsOf(ConnectedProjects(s, room)) <==> IsConnected(s, RoomKey(room, path))
  {
    var connected, k := ConnectedProjects(s, room), RoomKey(room, path);
    if i :| 0 <= i < |connected| && PathsOf(connected)[i] == path {
      assert connected[i] in s.rooms;
      var j :| 0 <= j < |s.rooms| && s.rooms[j] == connected[i];
      FindIs(s.rooms, RoomKeyOf, j);
    }
    if IsConnected(s, k) {
      assert RoomOf(s, k).value in connected;
      var i :| 0 <= i < |connected| && connected[i] == RoomOf(s, k).value;
      assert PathsOf(connected)[i] == path;
    }
  }

  /** Disconnecting a well-formed key always succeeds, and only its own entry changes. */
  lemma DisconnectOne(s: BridgeState, key: RoomKey, now: Time, k: RoomKey)
    requires Inv(s) && ValidRoomKey(key)
    ensures var (after, r) := DisconnectRoom(s, key, now);
      && Inv(after) && r.Ok? && after.(rooms := s.rooms) == s
      && RoomOf(after, k) == if k == key && RoomOf(s, k).Some?
         then Some(RoomOf(s, k).value.(status := Disconnected, updatedAt := now)) else RoomOf(s, k)
  {
    ApplyKeepsInv(s, Disconnect(key, now));
    RoomsRefineMap(s, Disconnect(key, now), k);
  }

  predicate Among(records: seq<RoomBinding>, n: nat, path: string)
    requires n <= |records|
  {
    exists m :: 0 <= m < n && records[m].key.projectPath == path
  }

  lemma AmongNext(records: seq<RoomBinding>, n: nat, path: string)
    requires 0 < n <= |records|
    ensures Among(records, n, path) <==> Among(records, n - 1, path) || records[n - 1].key.projectPath == path
  {
  }

  lemma {:induction false} DisconnectEachRooms(s: BridgeState, room: Room, records: seq<RoomBinding>, n: nat,
                                               now: Time, k: RoomKey)
    requires Inv(s) && n <= |records|
    requires forall m :: 0 <= m < |records| ==> ValidRoomKey(RoomKey(room, records[m].key.projectPath))
    ensures var (after, done) := DisconnectEach(s, room, records, n, now);
      && Inv(after) && done.Ok? && after.(rooms := s.rooms) == s
      && RoomOf(after, k) == if k.room == room && RoomOf(s, k).Some? && Among(records, n, k.projectPath)
         then Some(RoomOf(s, k).value.(status := Disconnected, updatedAt := now)) else RoomOf(s, k)
  {
    if n == 0 {
    } else {
      DisconnectEachRooms(s, room, records, n - 1, now, k);
      var path := records[n - 1].key.projectPath;
      DisconnectOne(DisconnectEach(s, room, records, n - 1, now).0, RoomKey(room, path), now, k);
      AmongNext(records, n, k.projectPath);
    }
  }

  /** A bare `/unbind` always succeeds, leaves the room with no connected project, and touches
      neither another room nor any other table. */
  lemma UnbindAllEmptiesRoom(s: BridgeState, room: Room, now: Time, k: RoomKey)
    requires Inv(s)
    ensures var (after, reply) := UnbindProject(s, room, None, now);
      && Inv(after) && reply.Ok? && after.(rooms := s.rooms) == s
      && (k.room == room ==> !IsConnected(after, k))
      && (k.room != room || !IsConnected(s, k) ==> RoomOf(after, k) == RoomOf(s, k))
  {
    var connected := ConnectedProjects(s, room);
    assert forall m :: 0 <= m < |connected| ==>
      connected[m] in connected && RoomKey(room, connected[m].key.projectPath) == connected[m].key
        && connected[m] in s.rooms;
    DisconnectEachRooms(s, room, connected, |connected|, now, k);
    ConnectedListIsExact(s, k.room, k.projectPath);
    assert k.room == room ==> (k.projectPath in PathsOf(connected) <==> Among(connected, |connected|, k.projectPath));
    assert RoomKey(k.room, k.projectPath) == k;
  }

  lemma UnbindAllLeavesNoProject(s: BridgeState, room: Room, now: Time)
    requires Inv(s)
    ensures ConnectedProjects(UnbindProject(s, room, None, now).0, room) == []
  {
    var after := UnbindProject(s, room, None, now).0;
    var left := ConnectedProjects(after, room);
    if left != [] {
      var r := left[0];
      assert r in left;
      UnbindAllEmptiesRoom(s, room, now, r.key);
      var j :| 0 <= j < |after.rooms| && after.rooms[j] == r;
      FindIs(after.rooms, RoomKeyOf, j);
    }
  }

  lemma ConnectedPathsDiffer(s: BridgeState, room: Room)
    requires Inv(s)
    ensures var paths := PathsOf(ConnectedProjects(s, room));
      |paths| >= 2 ==> paths[0] != paths[1] && paths[0] in paths && paths[1] in paths
  {
    var connected := ConnectedProjects(s, room);
    if |connected| >= 2 {
      FilterKeepsUnique(s.rooms, RoomKeyOf, (r: RoomBinding) => r.key.room == room && r.status == Connected);
      assert RoomKeyOf(connected[0]) != RoomKeyOf(connected[1]);
      assert connected[0] in connected && connected[1] in connected;
    }
  }

  /** A room `/new` starts a session exactly when the prompt is not blank and the project is
      determined: the named folder exists and is connected to this room, or no folder is named and
      precisely one is connected. The session's project is then connected to the room. */
  lemma RoomSessionsRunInConnectedProjects(s: BridgeState, room: Room, path: Option<string>, prompt: string,
                                           isDir: string -> bool, p: string)
    requires Inv(s)
    ensures ResolveNewSession(s, room, path, prompt, isDir) == StartSession(p, Trim(prompt)) <==>
      && Present(prompt)
      && IsConnected(s, RoomKey(room, p))
      && (path.Some? ==> path.value == p && isDir(p))
      && (path.None? ==> forall q :: IsConnected(s, RoomKey(room, q)) ==> q == p)
  {
    var connected := ConnectedProjects(s, room);
    var paths := PathsOf(connected);
    ConnectedListIsExact(s, room, p);
    if IsConnected(s, RoomKey(room, p)) {
      assert RoomOf(s, RoomKey(room, p)).value in s.rooms;
      assert IsCleanAbsolute(p);
    }
    forall q
      ensures q in paths <==> IsConnected(s, RoomKey(room, q))
    {
      ConnectedListIsExact(s, room, q);
    }
    ConnectedPathsDiffer(s, room);
    if |connected| == 1 {
      assert paths == [connected[0].key.projectPath];
    }
  }

  lemma PromptBindsNothing(s: BridgeState, room: Room, path: string, now: Time, isDir: string -> bool)
    requires Inv(s)
    ensures var after := PromptForRoom(s, room, path, now, isDir).0;
      Inv(after) && after.threads == s.threads && after.rooms == s.rooms
  {
    ApplyKeepsInv(s, BeginManual(ProposalId(room.providerId, path), room.providerType, now));
  }

  lemma DirectCommandsBindNothing(s: BridgeState, m: Incoming, now: Time, isDir: string -> bool)
    requires Inv(s) && m.command.IsDirect()
    ensures var after := Handle(s, m, now, isDir).0;
      Inv(after) && after.threads == s.threads && after.rooms == s.rooms
  {
    ApplyKeepsInv(s, Remember(m.room, now));
    if m.command.DirectProjectRoomPrompt? {
      PromptBindsNothing(RememberChat(s, m.room, now).0, m.room, m.command.path, now, isDir);
    }
  }

  lemma BindStaysInRoom(s: BridgeState, room: Room, path: string, now: Time, isDir: string -> bool, k: RoomKey)
    requires Inv(s)
    ensures var after := BindProject(s, room, path, now, isDir).0;
      Inv(after) && after.threads == s.threads && (k.room != room ==> RoomOf(after, k) == RoomOf(s, k))
  {
    ApplyKeepsInv(s, Connect(RoomKey(room, path), now));
    RoomsRefineMap(s, Connect(RoomKey(room, path), now), k);
  }

  lemma UnbindStaysInRoom(s: BridgeState, room: Room, path: Option<string>, now: Time, k: RoomKey)
    requires Inv(s)
    ensures var after := UnbindProject(s, room, path, now).0;
      Inv(after) && after.threads == s.threads && (k.room != room ==> RoomOf(after, k) == RoomOf(s, k))
  {
    if path.None? {
      UnbindAllEmptiesRoom(s, room, now, k);
    } else {
      ApplyKeepsInv(s, Disconnect(RoomKey(room, path.value), now));
      RoomsRefineMap(s, Disconnect(RoomKey(room, path.value), now), k);
    }
  }

  /** A command only ever changes bindings of the room it was sent to, a direct command changes
      none at all, and no command touches a thread binding. */
  lemma CommandsStayInTheirRoom(s: BridgeState, m: Incoming, now: Time, isDir: string -> bool, k: RoomKey)
    requires Inv(s)
    ensures var after := Handle(s, m, now, isDir).0;
      && Inv(after) && after.threads == s.threads
      && (k.room != m.room || m.command.IsDirect() ==> RoomOf(after, k) == RoomOf(s, k))
  {
    match m.command
    case BindProject(path) => BindStaysInRoom(s, m.room, path, now, isDir, k);
    case UnbindProject(path) => UnbindStaysInRoom(s, m.room, path, now, k);
    case _ =>
      if m.command.IsDirect() {
        DirectCommandsBindNothing(s, m, now, isDir);
      }
  }
}
