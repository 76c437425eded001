/** When a resolution has one target for every conversation, and when it has not. */
module TargetResolution {
  import opened Basics
  import opened Tables
  import opened Text
  import opened CompositeKeys
  import opened Deduplication
  import opened ProjectPaths
  import opened BridgeBindingLedger
  import opened BridgeRuns
  import opened Router

  /** The rooms that are considered: connected, of this provider, and bound to the folder of the signal or
      to a folder that the signal's path goes on behind with a slash. */
  lemma RoomsAreConnectedAncestors(q: Query, r: RoomBinding)
    ensures var base := r.key.projectPath;
      && (r in q.Rooms() <==>
            && r in q.state.rooms && r.status == Connected
            && r.key.room.providerId == q.provider.id && r.key.room.providerType == q.provider.providerType
            && AtOrBelow(Tidied(q.path), Tidied(base)))
      && (Tidy(q.path) && Tidy(base) ==> (AtOrBelow(Tidied(q.path), Tidied(base)) <==> AtOrBelow(q.path, base)))
  {
    StartsWithIsAtOrBelow(q.path, r.key.projectPath);
    if Tidy(q.path) && Tidy(r.key.projectPath) {
      TidyStartsWith(q.path, r.key.projectPath);
    }
  }

  /** The session's thread in a room, as the ledger records it. */
  ghost predicate IsThreadOf(t: ThreadBinding, q: Query, room: Room)
    requires q.signal.sessionId.Some?
  {
    && t.key.room == Room(q.provider.id, q.provider.providerType, room.accountId, room.conversationId)
    && t.source == Source(q.signal.sourceId, q.signal.sourceType, q.signal.sessionId.value)
    && (AtOrBelow(Tidied(t.projectPath), Tidied(q.path)) || AtOrBelow(Tidied(q.path), Tidied(t.projectPath)))
  }

  /** A room is answered in a thread exactly if the ledger has one of this session and folder tree in it,
      and then in the latest; otherwise in the room itself. */
  lemma TargetIsLatestThread(q: Query, room: Room)
    requires q.Target(room).Ok?
    ensures var t := q.Target(room).value;
      if q.signal.sessionId.None? || Trim(q.signal.sessionId.value) == "" then t == Conversation(room.conversationId)
      else if exists b :: b in q.state.threads && IsThreadOf(b, q, room) then
        exists i :: 0 <= i < |q.state.threads| && IsThreadOf(q.state.threads[i], q, room)
          && (forall j :: i < j < |q.state.threads| ==> !IsThreadOf(q.state.threads[j], q, room))
          && t == ProviderThread(room.accountId, room.conversationId, q.state.threads[i].key.threadId)
      else t == Conversation(room.conversationId)
  {
    if q.signal.sessionId.Some? {
      PresentIffTrimNonEmpty(q.signal.sessionId.value);
      var query := SessionQuery(
        Room(q.provider.id, q.provider.providerType, room.accountId, room.conversationId), q.path,
        Source(q.signal.sourceId, q.signal.sourceType, q.signal.sessionId.value));
      forall i | 0 <= i < |q.state.threads|
        ensures SessionMatches(q.state.threads[i], query) <==> IsThreadOf(q.state.threads[i], q, room)
      {
        ShareTreeIsText(q.state.threads[i].projectPath, q.path);
      }
      if ValidQuery(query) {
        var end := LastIndexEnd(q.state.threads, (t: ThreadBinding) => SessionMatches(t, query));
        assert end > 0 ==> IsThreadOf(q.state.threads[end - 1], q, room);
      }
    }
  }

  // ---- keys and pairs ----

  /** What comes after provider id and type in a delivery key. */
  function KeyTail(t: Target, room: Room): string {
    room.accountId + ['\n'] + (room.conversationId + ['\n'] + (if t.ProviderThread? then t.threadId else ""))
  }

  /** The thread a session is looked up in lies in the very conversation of the room. */
  lemma TargetLiesInRoom(q: Query, room: Room)
    requires q.Target(room).Ok?
    ensures var t := q.Target(room).value;
      && !t.Static?
      && (t.Conversation? ==> t.conversationId == room.conversationId)
      && (t.ProviderThread? ==> t.accountId == room.accountId && t.toConversationId == room.conversationId)
  {
  }

  lemma JoinedNext(field: string, rest: seq<string>)
    requires rest != []
    ensures Joined([field] + rest, '\n') == field + ['\n'] + Joined(rest, '\n')
  {
    assert ([field] + rest)[1..] == rest;
  }

  lemma JoinedFive(a: string, b: string, c: string, d: string, e: string)
    ensures Joined([a, b, c, d, e], '\n') == a + ['\n'] + (b + ['\n'] + (c + ['\n'] + (d + ['\n'] + e)))
  {
    JoinedNext(d, [e]);
    JoinedNext(c, [d, e]);
    JoinedNext(b, [c, d, e]);
    JoinedNext(a, [b, c, d, e]);
    assert [d] + [e] == [d, e] && [c] + [d, e] == [c, d, e];
    assert [b] + [c, d, e] == [b, c, d, e] && [a] + [b, c, d, e] == [a, b, c, d, e];
  }

  lemma KeySplits(q: Query, room: Room)
    requires q.Target(room).Ok?
    ensures q.Key(room) == room.providerId + ['\n'] + (room.providerType + ['\n'] + KeyTail(q.Target(room).value, room))
  {
    TargetLiesInRoom(q, room);
    var t := q.Target(room).value;
    var thread := if t.ProviderThread? then t.threadId else "";
    JoinedFive(room.providerId, room.providerType, room.accountId, room.conversationId, thread);
  }

  /** Rooms of one provider have equal keys exactly when the rest of their keys is equal. */
  lemma SameKeyIffSameTail(q: Query, x: Room, y: Room)
    requires x.providerId == y.providerId && x.providerType == y.providerType
    requires q.Target(x).Ok? && q.Target(y).Ok?
    ensures q.Key(x) == q.Key(y) <==> KeyTail(q.Target(x).value, x) == KeyTail(q.Target(y).value, y)
  {
    KeySplits(q, x);
    KeySplits(q, y);
    PrefixCancels(x.providerType + ['\n'], KeyTail(q.Target(x).value, x), KeyTail(q.Target(y).value, y));
    PrefixCancels(x.providerId + ['\n'], x.providerType + ['\n'] + KeyTail(q.Target(x).value, x),
                  y.providerType + ['\n'] + KeyTail(q.Target(y).value, y));
  }

  predicate LineFree(room: Room) {
    '\n' !in room.accountId && '\n' !in room.conversationId
  }

  /** Two considered rooms whose account and conversation ids hold no line break share a delivery key
      exactly when they are the same account and conversation, whatever thread ids there are. */
  lemma SameKeyIffSamePair(q: Query, a: RoomBinding, b: RoomBinding)
    requires a in q.Rooms() && b in q.Rooms()
    requires LineFree(a.key.room) && LineFree(b.key.room)
    requires q.Target(a.key.room).Ok? && q.Target(b.key.room).Ok?
    ensures q.Key(a.key.room) == q.Key(b.key.room) <==> Pair(a.key.room) == Pair(b.key.room)
  {
    var x, y := a.key.room, b.key.room;
    SameKeyIffSameTail(q, x, y);
    if q.Key(x) == q.Key(y) {
      var t, u := q.Target(x).value, q.Target(y).value;
      var tail, other := x.conversationId + ['\n'] + (if t.ProviderThread? then t.threadId else ""),
                         y.conversationId + ['\n'] + (if u.ProviderThread? then u.threadId else "");
      HeadsAgree(x.accountId, tail, y.accountId, other, '\n');
      HeadsAgree(x.conversationId, tail[|x.conversationId| + 1..], y.conversationId, other[|y.conversationId| + 1..],
                 '\n');
    }
  }

  // ---- the exact condition ----

  /** Whenever the search skips a room because its key was seen, the pair was seen too. */
  ghost predicate KeysTellPairsApart(q: Query) {
    |q.Keys()| == |q.Pairs()| && TellApart(q.Keys(), q.Pairs())
  }

  lemma PairsDetermineKeys(q: Query)
    ensures |q.Keys()| == |q.Pairs()| == |q.Rooms()| && TellApart(q.Pairs(), q.Keys())
  {
    forall i, j | 0 <= i < |q.Keys()| && 0 <= j < |q.Keys()| && q.Pairs()[i] == q.Pairs()[j]
      ensures q.Keys()[i] == q.Keys()[j]
    {
      assert q.Rooms()[i] in q.Rooms() && q.Rooms()[j] in q.Rooms();
      assert RoomsOf(q.Rooms())[i] == RoomsOf(q.Rooms())[j];
    }
  }

  lemma NeverStatic(q: Query, r: Result<seq<Target>, Failure>)
    requires IsResolution(q, r) && r.Ok?
    ensures forall t :: t in r.value ==> !t.Static?
  {
    forall i | 0 <= i < |r.value|
      ensures !r.value[i].Static?
    {
      TargetLiesInRoom(q, RoomsOf(q.Rooms())[Firsts(q.Keys(), |q.Keys()|)[i]]);
    }
  }

  /** Target resolution: the number of targets is the number of different (account, conversation)
      pairs among the considered rooms if and only if the delivery keys tell the pairs apart; every
      pair is then covered exactly once. No target is ever static. */
  lemma OneTargetPerConversation(q: Query, r: Result<seq<Target>, Failure>)
    requires IsResolution(q, r) && r.Ok?
    ensures |r.value| == |set p | p in q.Pairs()| <==> KeysTellPairsApart(q)
    ensures KeysTellPairsApart(q) ==> IsOnePerPair(q, r.value)
    ensures forall t :: t in r.value ==> !t.Static?
  {
    NeverStatic(q, r);
    PairsDetermineKeys(q);
    CountsAgree(q.Keys(), q.Pairs());
  }

  /** The targets are those of a choice of rooms that has every pair exactly once. */
  ghost predicate IsOnePerPair(q: Query, targets: seq<Target>) {
    var chosen := Firsts(q.Keys(), |q.Keys()|);
    && |q.Keys()| == |q.Pairs()| && |chosen| == |targets| == |set p | p in q.Pairs()|
    && CoversOnce(q.Pairs(), |q.Pairs()|, chosen)
    && forall i :: 0 <= i < |chosen| ==> Ok(targets[i]) == q.Target(RoomsOf(q.Rooms())[chosen[i]])
  }

  /** Ids without line breaks in the considered rooms are enough; nothing is asked of thread ids, of
      provider ids, or of any other room. */
  lemma LineFreeRoomsAreToldApart(q: Query)
    requires forall r :: r in q.Rooms() ==> LineFree(r.key.room)
    requires forall i :: 0 <= i < |RoomsOf(q.Rooms())| ==> q.Resolves(RoomsOf(q.Rooms())[i])
    ensures KeysTellPairsApart(q)
  {
    forall i, j | 0 <= i < |q.Keys()| && 0 <= j < |q.Keys()| && q.Keys()[i] == q.Keys()[j]
      ensures q.Pairs()[i] == q.Pairs()[j]
    {
      assert q.Resolves(RoomsOf(q.Rooms())[i]) && q.Resolves(RoomsOf(q.Rooms())[j]);
      SameKeyIffSamePair(q, q.Rooms()[i], q.Rooms()[j]);
    }
  }

  // ---- equal targets ----

  /** The room that the `i`-th target was resolved for. */
  function ChosenRoom(q: Query, i: nat): Room
    requires i < |Firsts(q.Keys(), |q.Keys()|)| && |q.Keys()| == |RoomsOf(q.Rooms())|
  {
    RoomsOf(q.Rooms())[Firsts(q.Keys(), |q.Keys()|)[i]]
  }

  /** Two targets are equal exactly when both are plain conversations with one id; the rooms they
      come from then differ in their account, which a conversation target does not name. */
  lemma EqualTargetsDifferInAccount(q: Query, r: Result<seq<Target>, Failure>, i: nat, j: nat)
    requires IsResolution(q, r) && r.Ok? && i < j < |r.value|
    ensures |q.Keys()| == |RoomsOf(q.Rooms())| && |Firsts(q.Keys(), |q.Keys()|)| == |r.value|
    ensures var a, b := ChosenRoom(q, i), ChosenRoom(q, j);
      && (r.value[i] == r.value[j] <==>
            r.value[i].Conversation? && r.value[j].Conversation? && a.conversationId == b.conversationId)
      && (r.value[i] == r.value[j] ==> a.accountId != b.accountId)
  {
    var a, b := ChosenRoom(q, i), ChosenRoom(q, j);
    FirstsCount(q.Keys());
    assert q.Key(a) == q.Keys()[Firsts(q.Keys(), |q.Keys()|)[i]]
      && q.Key(b) == q.Keys()[Firsts(q.Keys(), |q.Keys()|)[j]];
    assert q.Key(a) != q.Key(b);
    TargetLiesInRoom(q, a);
    TargetLiesInRoom(q, b);
    ConsideredRoomsShareProvider(q, Firsts(q.Keys(), |q.Keys()|)[i], Firsts(q.Keys(), |q.Keys()|)[j]);
    SameKeyIffSameTail(q, a, b);
  }

  lemma ConsideredRoomsShareProvider(q: Query, i: nat, j: nat)
    requires i < |RoomsOf(q.Rooms())| && j < |RoomsOf(q.Rooms())|
    ensures var a, b := RoomsOf(q.Rooms())[i], RoomsOf(q.Rooms())[j];
      a.providerId == b.providerId && a.providerType == b.providerType
  {
    assert q.Rooms()[i] in q.Rooms() && q.Rooms()[j] in q.Rooms();
  }

  /** Both rooms are considered, share the conversation id but not the account, and neither has a
      thread of the session. */
  ghost predicate AccountsShareConversation(q: Query, i: nat, j: nat)
    requires i < |RoomsOf(q.Rooms())| && j < |RoomsOf(q.Rooms())|
  {
    var a, b := RoomsOf(q.Rooms())[i], RoomsOf(q.Rooms())[j];
    && a.accountId != b.accountId && a.conversationId == b.conversationId
    && q.Target(a).Ok? && q.Target(a).value.Conversation? && q.Target(b).Ok? && q.Target(b).value.Conversation?
  }

  lemma SharedIsTargetedTwice(q: Query, r: Result<seq<Target>, Failure>, i: nat, j: nat) returns (c: nat, d: nat)
    requires IsResolution(q, r) && r.Ok? && KeysTellPairsApart(q)
    requires i < |q.Rooms()| && j < |q.Rooms()| && AccountsShareConversation(q, i, j)
    ensures c < d < |r.value| && r.value[c] == r.value[d]
  {
    c := ChosenFor(q, r, i);
    d := ChosenFor(q, r, j);
    TargetLiesInRoom(q, RoomsOf(q.Rooms())[i]);
    TargetLiesInRoom(q, RoomsOf(q.Rooms())[j]);
    if d < c {
      c, d := d, c;
    }
  }

  /** While the keys tell the pairs apart, a conversation is targeted twice if and only if two of its
      accounts have rooms with the same conversation id and no thread of the session. */
  lemma TargetedTwiceIffAccountsShare(q: Query, r: Result<seq<Target>, Failure>)
    requires IsResolution(q, r) && r.Ok? && KeysTellPairsApart(q)
    ensures (exists i, j :: 0 <= i < j < |r.value| && r.value[i] == r.value[j])
      <==> (exists i, j :: 0 <= i < |q.Rooms()| && 0 <= j < |q.Rooms()| && AccountsShareConversation(q, i, j))
  {
    if i, j :| 0 <= i < j < |r.value| && r.value[i] == r.value[j] {
      EqualTargetsDifferInAccount(q, r, i, j);
      var chosen := Firsts(q.Keys(), |q.Keys()|);
      assert AccountsShareConversation(q, chosen[i], chosen[j]);
    } else if i, j :| 0 <= i < |q.Rooms()| && 0 <= j < |q.Rooms()| && AccountsShareConversation(q, i, j) {
      var c, d := SharedIsTargetedTwice(q, r, i, j);
      assert false;
    }
  }

  /** The position of the target that covers the `i`-th room. */
  lemma ChosenFor(q: Query, r: Result<seq<Target>, Failure>, i: nat) returns (c: nat)
    requires IsResolution(q, r) && r.Ok? && KeysTellPairsApart(q) && i < |q.Rooms()|
    ensures |q.Keys()| == |RoomsOf(q.Rooms())| && |Firsts(q.Keys(), |q.Keys()|)| == |r.value|
    ensures c < |r.value| && Ok(r.value[c]) == q.Target(RoomsOf(q.Rooms())[i])
    ensures ChosenRoom(q, c) == RoomsOf(q.Rooms())[i]
  {
    OneTargetPerConversation(q, r);
    var chosen := Firsts(q.Keys(), |q.Keys()|);
    assert Covered(q.Pairs(), i, chosen);
    c :| 0 <= c < |chosen| && q.Pairs()[chosen[c]] == q.Pairs()[i];
    ConsideredRoomsShareProvider(q, chosen[c], i);
  }

  // ---- ledgers for which a conversation is lost, or targeted twice ----

  const ROOT: string := "/"

  const ROOT_SIGNAL := Signal("signal", "source", "type", None, Some(ROOT), None, "")

  /** A ledger that two commands produce: the root folder is connected to one room, then to another. */
  function TwoRooms(x: Room, y: Room): BridgeState {
    BridgeRuns.Apply(BridgeRuns.Apply(EMPTY, Connect(RoomKey(x, ROOT), 1)), Connect(RoomKey(y, ROOT), 2))
  }

  function RootQuery(s: BridgeState, room: Room): Query {
    Query(s, ROOT_SIGNAL, Provider(room.providerId, room.providerType), ROOT)
  }

  lemma RootIsClean()
    ensures IsCleanAbsolute(ROOT)
  {
  }

  lemma ConnectAppends(s: BridgeState, k: RoomKey, now: Time)
    requires BridgeRuns.Inv(s) && ValidRoomKey(k) && forall r :: r in s.rooms ==> r.key != k
    ensures var after := BridgeRuns.Apply(s, Connect(k, now));
      && BridgeRuns.Inv(after)
      && after.rooms == s.rooms + [RoomBinding(k, Connected, now, now)]
  {
    ApplyKeepsInv(s, Connect(k, now));
  }

  lemma TwoRoomsAreBound(x: Room, y: Room)
    requires ValidRoom(x) && ValidRoom(y) && x != y
    ensures AreBoth(TwoRooms(x, y), x, y)
  {
    RootIsClean();
    var s1 := BridgeRuns.Apply(EMPTY, Connect(RoomKey(x, ROOT), 1));
    ConnectAppends(EMPTY, RoomKey(x, ROOT), 1);
    ConnectAppends(s1, RoomKey(y, ROOT), 2);
  }

  /** A sound ledger that binds the root folder to these two rooms and nothing else. */
  ghost predicate AreBoth(s: BridgeState, x: Room, y: Room) {
    && BridgeRuns.Inv(s)
    && s.rooms == [RoomBinding(RoomKey(x, ROOT), Connected, 1, 1), RoomBinding(RoomKey(y, ROOT), Connected, 2, 2)]
  }

  lemma BothAreConnected(s: BridgeState, x: Room, y: Room)
    requires AreBoth(s, x, y)
    ensures IsConnected(s, RoomKey(x, ROOT)) && IsConnected(s, RoomKey(y, ROOT))
  {
    FindIs(s.rooms, RoomKeyOf, 0);
    FindIs(s.rooms, RoomKeyOf, 1);
  }

  lemma BothAreConsidered(q: Query, first: RoomBinding, second: RoomBinding)
    requires q.state.rooms == [first, second]
    requires forall r :: r in q.state.rooms ==>
      && r.status == Connected && r.key.projectPath == q.path
      && r.key.room.providerId == q.provider.id && r.key.room.providerType == q.provider.providerType
    ensures q.Rooms() == [first, second]
  {
    FilterAll(q.state.rooms, (r: RoomBinding) => r.status == Connected && StartsWith(q.path, r.key.projectPath));
    assert ConnectedRoomsForTree(q.state, q.path) == q.state.rooms;
    FilterAll(q.state.rooms, (r: RoomBinding) =>
        r.key.room.providerId == q.provider.id && r.key.room.providerType == q.provider.providerType);
  }

  lemma {:induction false} FilterAll<T(!new)>(xs: seq<T>, p: T -> bool)
    requires forall x :: x in xs ==> p(x)
    ensures Filter(xs, p) == xs
  {
    if xs == [] {
    } else {
      FilterAll(xs[1..], p);
    }
  }

  lemma FirstsOfTwo(keys: seq<string>)
    requires |keys| == 2
    ensures Firsts(keys, 2) == if keys[0] == keys[1] then [0] else [0, 1]
  {
    assert Firsts(keys, 0) == [];
    assert Firsts(keys, 1) == [0];
    assert keys[..1] == [keys[0]];
  }

  lemma KeysOfTwo(q: Query, x: Room, y: Room)
    requires RoomsOf(q.Rooms()) == [x, y]
    ensures q.Keys() == [q.Key(x), q.Key(y)] && q.Pairs() == [Pair(x), Pair(y)]
  {
  }

  function TargetsOfTwo(q: Query, x: Room, y: Room): seq<Target>
    requires q.Resolves(x) && q.Resolves(y)
  {
    if q.Key(x) == q.Key(y) then [q.Target(x).value] else [q.Target(x).value, q.Target(y).value]
  }

  lemma ResolvedOfTwo(q: Query, x: Room, y: Room, r: Result<seq<Target>, Failure>)
    requires RoomsOf(q.Rooms()) == [x, y] && q.Keys() == [q.Key(x), q.Key(y)]
    requires q.Resolves(x) && q.Resolves(y) && IsResolution(q, r)
    ensures r == Ok(TargetsOfTwo(q, x, y))
  {
    FirstsOfTwo(q.Keys());
    assert r.Ok? && Ok(r.value[0]) == q.Target(x);
    if q.Key(x) == q.Key(y) {
      assert r.value == TargetsOfTwo(q, x, y);
    } else {
      assert Ok(r.value[1]) == q.Target(y);
      assert r.value == TargetsOfTwo(q, x, y);
    }
  }

  lemma TargetsOfTwoResolve(q: Query, x: Room, y: Room)
    requires RoomsOf(q.Rooms()) == [x, y] && q.Keys() == [q.Key(x), q.Key(y)]
    requires q.Resolves(x) && q.Resolves(y)
    ensures IsResolution(q, Ok(TargetsOfTwo(q, x, y)))
  {
    FirstsOfTwo(q.Keys());
    assert q.Resolves([x, y][0]) && q.Resolves([x, y][1]);
  }

  /** The one possible outcome of the resolution. */
  ghost predicate ResolvesTo(q: Query, targets: seq<Target>) {
    forall r :: IsResolution(q, r) <==> r == Ok(targets)
  }

  function OwnConversations(x: Room, y: Room): seq<Target> {
    if KeyTail(Conversation(x.conversationId), x) == KeyTail(Conversation(y.conversationId), y)
    then [Conversation(x.conversationId)]
    else [Conversation(x.conversationId), Conversation(y.conversationId)]
  }

  /** Without a session each of two rooms resolves to its own conversation. */
  lemma RoomsResolveAlone(q: Query, x: Room, y: Room)
    requires q.signal.sessionId.None? && RoomsOf(q.Rooms()) == [x, y]
    requires x.providerId == y.providerId && x.providerType == y.providerType
    ensures q.Pairs() == [Pair(x), Pair(y)] && ResolvesTo(q, OwnConversations(x, y))
  {
    assert q.Target(x) == Ok(Conversation(x.conversationId)) && q.Target(y) == Ok(Conversation(y.conversationId));
    KeysOfTwo(q, x, y);
    SameKeyIffSameTail(q, x, y);
    TargetsOfTwoResolve(q, x, y);
    forall r | IsResolution(q, r)
      ensures r == Ok(OwnConversations(x, y))
    {
      ResolvedOfTwo(q, x, y, r);
    }
  }

  lemma BothResolve(s: BridgeState, x: Room, y: Room)
    requires AreBoth(s, x, y)
    requires x.providerId == y.providerId && x.providerType == y.providerType
    ensures RootQuery(s, x).Pairs() == [Pair(x), Pair(y)] && ResolvesTo(RootQuery(s, x), OwnConversations(x, y))
  {
    BothAreConsidered(RootQuery(s, x), s.rooms[0], s.rooms[1]);
    assert RoomsOf(s.rooms) == [x, y];
    RoomsResolveAlone(RootQuery(s, x), x, y);
  }

  const MERGED: (Room, Room) := (Room("p", "t", "a\nb", "c"), Room("p", "t", "a", "b\nc"))

  lemma MergedRooms()
    ensures var (x, y) := MERGED;
      && ValidRoom(x) && ValidRoom(y) && Pair(x) != Pair(y)
      && KeyTail(Conversation(x.conversationId), x) == KeyTail(Conversation(y.conversationId), y)
  {
    var (x, y) := MERGED;
    assert |x.accountId| != |y.accountId|;
    assert KeyTail(Conversation(x.conversationId), x) == ['a', '\n', 'b', '\n', 'c', '\n'];
    assert KeyTail(Conversation(y.conversationId), y) == ['a', '\n', 'b', '\n', 'c', '\n'];
  }

  lemma TwoPairs(pairs: seq<(string, string)>, x: (string, string), y: (string, string))
    requires pairs == [x, y] && x != y
    ensures |set p | p in pairs| == 2
  {
    assert (set p | p in pairs) == {x, y};
  }

  /** A line break inside an id defeats the keys: two connected rooms, one target. */
  lemma NewlinesMergeRooms()
    ensures var (x, y) := MERGED; var s := TwoRooms(x, y);
      && IsConnected(s, RoomKey(x, ROOT)) && IsConnected(s, RoomKey(y, ROOT))
      && |set p | p in RootQuery(s, x).Pairs()| == 2
      && ResolvesTo(RootQuery(s, x), [Conversation(x.conversationId)])
  {
    MergedRooms();
    var s := TwoRooms(MERGED.0, MERGED.1);
    TwoRoomsAreBound(MERGED.0, MERGED.1);
    BothAreConnected(s, MERGED.0, MERGED.1);
    BothResolve(s, MERGED.0, MERGED.1);
    TwoPairs(RootQuery(s, MERGED.0).Pairs(), Pair(MERGED.0), Pair(MERGED.1));
  }

  const SHARED: (Room, Room) := (Room("p", "t", "a", "c"), Room("p", "t", "b", "c"))

  lemma SharedRooms()
    ensures var (x, y) := SHARED;
      && ValidRoom(x) && ValidRoom(y) && x.conversationId == y.conversationId
      && KeyTail(Conversation(x.conversationId), x) != KeyTail(Conversation(y.conversationId), y)
  {
    var (x, y) := SHARED;
    assert KeyTail(Conversation(x.conversationId), x)[0] == 'a' && KeyTail(Conversation(y.conversationId), y)[0] == 'b';
  }

  /** One conversation id in two accounts: two connected rooms, one target twice. */
  lemma AccountsGetOneTargetTwice()
    ensures var (x, y) := SHARED; var s := TwoRooms(x, y);
      && IsConnected(s, RoomKey(x, ROOT)) && IsConnected(s, RoomKey(y, ROOT))
      && ResolvesTo(RootQuery(s, x), [Conversation(x.conversationId), Conversation(x.conversationId)])
  {
    SharedRooms();
    var s := TwoRooms(SHARED.0, SHARED.1);
    TwoRoomsAreBound(SHARED.0, SHARED.1);
    BothAreConnected(s, SHARED.0, SHARED.1);
    BothResolve(s, SHARED.0, SHARED.1);
  }
}
