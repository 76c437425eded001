/** Keeping the first of every group of equal keys. */
module Deduplication {
  import opened Basics

  /** The positions among the first `n` whose key does not occur earlier. */
  function Firsts<K(==)>(keys: seq<K>, n: nat): (r: seq<nat>)
    requires n <= |keys|
    ensures |r| <= n
    ensures forall i :: 0 <= i < |r| ==> r[i] < n
  {
    if n == 0 then []
    else
      var before := Firsts(keys, n - 1);
      if keys[n - 1] in keys[..n - 1] then before else before + [n - 1]
  }

  /** The chosen positions carry every value, and no value twice. */
  ghost predicate CoversOnce<P>(values: seq<P>, n: nat, chosen: seq<nat>)
    requires n <= |values| && forall i :: 0 <= i < |chosen| ==> chosen[i] < n
  {
    && (forall i, j :: 0 <= i < j < |chosen| ==> values[chosen[i]] != values[chosen[j]])
    && (forall m :: 0 <= m < n ==> Covered(values, m, chosen))
  }

  ghost predicate Covered<P>(values: seq<P>, m: nat, chosen: seq<nat>)
    requires m < |values| && forall i :: 0 <= i < |chosen| ==> chosen[i] < |values|
  {
    exists i :: 0 <= i < |chosen| && values[chosen[i]] == values[m]
  }

  lemma {:induction false} FirstsCoverOnce<K, P>(values: seq<P>, keys: seq<K>, n: nat)
    requires n <= |keys| == |values|
    requires forall i, j :: 0 <= i < |keys| && 0 <= j < |keys| ==> (keys[i] == keys[j] <==> values[i] == values[j])
    ensures CoversOnce(values, n, Firsts(keys, n))
  {
    if n == 0 {
    } else {
      FirstsCoverOnce(values, keys, n - 1);
      var before, after := Firsts(keys, n - 1), Firsts(keys, n);
      if keys[n - 1] in keys[..n - 1] {
        var m :| 0 <= m < n - 1 && keys[..n - 1][m] == keys[n - 1];
        assert Covered(values, m, before);
      } else {
        assert after[|before|] == n - 1;
        forall i | 0 <= i < |before|
          ensures values[before[i]] != values[n - 1]
        {
          assert keys[..n - 1][before[i]] in keys[..n - 1];
        }
        forall m | 0 <= m < n
          ensures Covered(values, m, after)
        {
          if m < n - 1 {
            assert Covered(values, m, before);
            var i :| 0 <= i < |before| && values[before[i]] == values[m];
            assert after[i] == before[i];
          }
        }
      }
    }
  }

  lemma {:induction false} DistinctCount<P>(items: seq<P>)
    requires forall i, j :: 0 <= i < j < |items| ==> items[i] != items[j]
    ensures |set x | x in items| == |items|
  {
    if items == [] {
    } else {
      var rest := items[..|items| - 1];
      DistinctCount(rest);
      assert (set x | x in items) == (set x | x in rest) + {items[|items| - 1]};
    }
  }

  /** A choice that covers every value once has as many positions as there are values. */
  lemma CoveringCount<P>(values: seq<P>, chosen: seq<nat>)
    requires forall i :: 0 <= i < |chosen| ==> chosen[i] < |values|
    requires CoversOnce(values, |values|, chosen)
    ensures |chosen| == |set x | x in values|
  {
    var items := seq(|chosen|, i requires 0 <= i < |chosen| => values[chosen[i]]);
    DistinctCount(items);
    forall p
      ensures p in items <==> p in values
    {
      if p in values {
        var m :| 0 <= m < |values| && values[m] == p;
        assert Covered(values, m, chosen);
        var i :| 0 <= i < |chosen| && values[chosen[i]] == values[m];
        assert items[i] == p;
      }
    }
    assert (set x | x in items) == (set x | x in values);
  }

  /** There are as many chosen positions as different keys, and no two of them share a key. */
  lemma FirstsCount<K>(keys: seq<K>)
    ensures var chosen := Firsts(keys, |keys|);
      && CoversOnce(keys, |keys|, chosen)
      && |chosen| == |set k | k in keys|
  {
    FirstsCoverOnce(keys, keys, |keys|);
    CoveringCount(keys, Firsts(keys, |keys|));
  }

  /** Equal keys stand for equal values only. */
  ghost predicate TellApart<K, P>(keys: seq<K>, values: seq<P>)
    requires |keys| == |values|
  {
    forall i, j :: 0 <= i < |keys| && 0 <= j < |keys| && keys[i] == keys[j] ==> values[i] == values[j]
  }

  /** One key for two values loses a value. */
  lemma ClashLosesValue<K, P>(keys: seq<K>, values: seq<P>, i: nat, j: nat)
    requires i < |keys| == |values| && j < |keys|
    requires TellApart(values, keys)
    requires keys[i] == keys[j] && values[i] != values[j]
    ensures |Firsts(keys, |keys|)| < |set p | p in values|
  {
    var chosen := Firsts(keys, |keys|);
    FirstsCount(keys);
    var items := seq(|chosen|, c requires 0 <= c < |chosen| => values[chosen[c]]);
    DistinctCount(items);
    var kept, all := set p | p in items, set p | p in values;
    var lost := if values[i] in kept then j else i;
    assert forall c, d :: 0 <= c < d < |items| ==> keys[chosen[c]] != keys[chosen[d]];
    assert values[lost] in all;
    ProperSubsetSize(kept, all, values[lost]);
  }

  /** The choice has as many positions as there are values if and only if the keys tell the values
      apart, and then it carries every value once. */
  lemma CountsAgree<K, P>(keys: seq<K>, values: seq<P>)
    requires |keys| == |values| && TellApart(values, keys)
    ensures |Firsts(keys, |keys|)| == |set p | p in values| <==> TellApart(keys, values)
    ensures TellApart(keys, values) ==> CoversOnce(values, |values|, Firsts(keys, |keys|))
  {
    if TellApart(keys, values) {
      FirstsCoverOnce(values, keys, |keys|);
      CoveringCount(values, Firsts(keys, |keys|));
    } else {
      var i, j :| 0 <= i < |keys| && 0 <= j < |keys| && keys[i] == keys[j] && values[i] != values[j];
      ClashLosesValue(keys, values, i, j);
    }
  }

  lemma ProperSubsetSize<T>(a: set<T>, b: set<T>, x: T)
    requires a <= b && x in b && x !in a
    ensures |a| < |b|
  {
    SubsetSize(a, b - {x});
  }
}

/** Where a signal is delivered, and the accounting of one routing pass. */
module Router {
  import opened Basics
  import opened Text
  import opened CompositeKeys
  import opened Deduplication
  import opened ProjectPaths
  import opened BridgeBindingLedger
  import Safety = DeliverySafety

  // The parts of a signal that routing looks at.
  datatype Signal = Signal(
    id: string, sourceId: string, sourceType: string, sessionId: Option<string>,
    projectPath: Option<string>, durationMs: Option<nat>, fingerprint: Safety.Fingerprint)

  datatype Provider = Provider(id: string, providerType: string)

  datatype Target =
    | Static
    | Conversation(conversationId: string)
    | ProviderThread(accountId: string, toConversationId: string, threadId: string)
  {
    function TargetId(): Option<string> {
      match this
      case Static => None
      case Conversation(id) => Some(id)
      case ProviderThread(_, _, id) => Some(id)
    }
  }

  datatype Failure = MissingProvider | LedgerFailed | GuardFailed | SendFailed

  // ---- one room's target ----

  function Path(signal: Signal): Option<string> {
    if signal.projectPath.Some? && IsCleanAbsolute(signal.projectPath.value) then signal.projectPath else None
  }

  /** The thread that already carries this session in the room, or else the room itself. */
  function TargetForRoom(s: BridgeState, signal: Signal, provider: Provider, path: string, room: Room)
    : Result<Target, Failure>
  {
    if signal.sessionId.None? || !Present(signal.sessionId.value) then Ok(Conversation(room.conversationId))
    else
      var query := SessionQuery(
        Room(provider.id, provider.providerType, room.accountId, room.conversationId), path,
        Source(signal.sourceId, signal.sourceType, signal.sessionId.value));
      match LookupThreadForSession(s, query)
      case Err(_) => Err(LedgerFailed)
      case Ok(Some(b)) => Ok(ProviderThread(b.key.room.accountId, b.key.room.conversationId, b.key.threadId))
      case Ok(None) => Ok(Conversation(room.conversationId))
  }

  function BridgeDeliveryKey(target: Target, room: Room): string {
    match target
    case Static => "static"
    case Conversation(conversation) =>
      Joined([room.providerId, room.providerType, room.accountId, conversation, ""], '\n')
    case ProviderThread(_, conversation, thread) =>
      Joined([room.providerId, room.providerType, room.accountId, conversation, thread], '\n')
  }

  // A lookup against a ledger that does not change while the targets are collected.
  datatype Query = Query(state: BridgeState, signal: Signal, provider: Provider, path: string) {
    function Rooms(): seq<RoomBinding> {
      Filter(ConnectedRoomsForTree(state, path), (r: RoomBinding) =>
        r.key.room.providerId == provider.id && r.key.room.providerType == provider.providerType)
    }

    function Target(room: Room): Result<Target, Failure> {
      TargetForRoom(state, signal, provider, path, room)
    }

    predicate Resolves(room: Room) {
      Target(room).Ok?
    }

    function Key(room: Room): string {
      if Target(room).Ok? then BridgeDeliveryKey(Target(room).value, room) else ""
    }

    /** The delivery keys of the considered rooms, in ledger order. */
    function Keys(): seq<string> {
      Mapped(RoomsOf(Rooms()), room => Key(room))
    }

    /** The account and conversation of every considered room. */
    function Pairs(): seq<(string, string)> {
      Mapped(RoomsOf(Rooms()), Pair)
    }
  }

  function RoomsOf(bindings: seq<RoomBinding>): (rooms: seq<Room>)
    ensures |rooms| == |bindings|
  {
    seq(|bindings|, i requires 0 <= i < |bindings| => bindings[i].key.room)
  }

  function Mapped<A, B>(xs: seq<A>, f: A -> B): (r: seq<B>)
    ensures |r| == |xs|
    ensures forall i :: 0 <= i < |xs| ==> r[i] == f(xs[i])
  {
    seq(|xs|, i requires 0 <= i < |xs| => f(xs[i]))
  }

  /** One target for every room whose key was not seen before; the first failure ends the search. */
  method CollectTargets(rooms: seq<Room>, resolve: Room -> Result<Target, Failure>, keyOf: (Target, Room) -> string,
                        ghost keys: seq<string>)
    returns (r: Result<seq<Target>, Failure>)
    requires |keys| == |rooms|
    requires forall i ::
      0 <= i < |rooms| && resolve(rooms[i]).Ok? ==> keys[i] == keyOf(resolve(rooms[i]).value, rooms[i])
    ensures r.Ok? <==> forall i :: 0 <= i < |rooms| ==> resolve(rooms[i]).Ok?
    ensures r.Ok? ==>
      var firsts := Firsts(keys, |rooms|);
      |r.value| == |firsts| && forall i :: 0 <= i < |firsts| ==> Ok(r.value[i]) == resolve(rooms[firsts[i]])
    ensures r.Ok? ==> (r.value == [] <==> rooms == [])
  {
    var seen: set<string> := {};
    var targets: seq<Target> := [];
    var i := 0;
    while i < |rooms|
      invariant i <= |rooms|
      invariant forall j :: 0 <= j < i ==> resolve(rooms[j]).Ok?
      invariant forall key :: key in seen <==> key in keys[..i]
      invariant |targets| == |Firsts(keys, i)|
      invariant targets == [] <==> i == 0
      invariant forall j :: 0 <= j < |targets| ==> Ok(targets[j]) == resolve(rooms[Firsts(keys, i)[j]])
    {
      var target := resolve(rooms[i]);
      if target.Err? {
        return Err(target.error);
      }
      var key := keyOf(target.value, rooms[i]);
      assert keys[..i + 1] == keys[..i] + [key];
      if key !in seen {
        seen := seen + {key};
        targets := targets + [target.value];
      }
      i := i + 1;
    }
    r := Ok(targets);
  }

  /** A resolution succeeds exactly when every room resolves, and then holds the target of the
      first room of every delivery key, in ledger order. */
  ghost predicate IsResolution(q: Query, r: Result<seq<Target>, Failure>) {
    var rooms := RoomsOf(q.Rooms());
    && (r.Ok? <==> forall i :: 0 <= i < |rooms| ==> q.Resolves(rooms[i]))
    && (r.Ok? ==>
          var firsts := Firsts(q.Keys(), |rooms|);
          |r.value| == |firsts| && forall i :: 0 <= i < |firsts| ==> Ok(r.value[i]) == q.Target(rooms[firsts[i]]))
  }

  /** The targets of a provider when rooms are bound to the signal's folder or an ancestor of it. */
  method BoundTargets(q: Query) returns (r: Result<seq<Target>, Failure>)
    ensures IsResolution(q, r)
    ensures r.Ok? ==> (r.value == [] <==> q.Rooms() == [])
  {
    var rooms := RoomsOf(q.Rooms());
    r := CollectTargets(rooms, room => q.Target(room), BridgeDeliveryKey, q.Keys());
  }

  // ---- what is told apart ----

  function Pair(room: Room): (string, string) {
    (room.accountId, room.conversationId)
  }
}
