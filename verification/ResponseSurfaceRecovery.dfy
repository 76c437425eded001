/** Finishing, after a restart, the events that were being processed when the program stopped. */
module ResponseSurfaceRecovery {
  import opened Basics
  import opened Tables
  import opened Text
  import opened ResponseSurfaceLedger
  import opened ResponseSurfaceRuns

  ghost predicate HasSurface(s: LedgerState, surfaceId: string) {
    exists x :: x in s.surfaces && SurfaceIdOf(x) == surfaceId
  }

  predicate Unfinished(s: LedgerState, e: EventRecord) {
    e in s.events && e.status.IsProcessing()
  }

  lemma SurfaceScanDecides(s: LedgerState, surfaceId: string)
    ensures SurfaceIndex(s.surfaces, surfaceId) < |s.surfaces| <==> HasSurface(s, surfaceId)
  {
    var i := SurfaceIndex(s.surfaces, surfaceId);
    if i < |s.surfaces| {
      assert s.surfaces[i] in s.surfaces;
    }
  }

  /** The recovery list holds exactly the unfinished events whose surface is still in the table. */
  lemma {:induction false} RecoveryListIsExact(s: LedgerState, events: seq<EventRecord>, e: EventRecord)
    ensures (exists r :: r in RecoveryRecords(events, s.surfaces) && r.event == e)
      <==> e in events && e.status.IsProcessing() && HasSurface(s, e.surfaceId)
  {
    if events == [] {
    } else {
      RecoveryListIsExact(s, events[1..], e);
      SurfaceScanDecides(s, events[0].surfaceId);
      var rest := RecoveryRecords(events[1..], s.surfaces);
      var all := RecoveryRecords(events, s.surfaces);
      assert forall r :: r in rest ==> r in all;
      assert e in events <==> e == events[0] || e in events[1..];
      if e == events[0] && e.status.IsProcessing() && HasSurface(s, e.surfaceId) {
        assert all[0].event == e && all[0] in all;
      }
    }
  }

  function RecoveryKey(r: RecoveryRecord): EventKey { EventKeyOf(r.event) }

  lemma {:induction false} RecoveryKeysUnique(events: seq<EventRecord>, surfaces: seq<Surface>)
    requires KeysUnique(events, EventKeyOf)
    ensures KeysUnique(RecoveryRecords(events, surfaces), RecoveryKey)
  {
    if events == [] {
    } else {
      RecoveryKeysUnique(events[1..], surfaces);
      var rest := RecoveryRecords(events[1..], surfaces);
      forall r | r in rest
        ensures RecoveryKey(r) != EventKeyOf(events[0])
      {
        var j :| 0 <= j < |events[1..]| && events[1..][j] == r.event;
        assert events[j + 1] == r.event;
      }
    }
  }

  /** Handing one record back with a terminal status. */
  function Finish(s: LedgerState, r: RecoveryRecord, status: EventStatus)
    : (LedgerState, Result<RecordDecision, LedgerError>)
  {
    RecordEventByHash(s, RecoveryKey(r), r.event.surfaceId, status)
  }

  /** The ledger after the first `n` records have been considered; only those selected by `sent`
      are handed back. */
  function Recovered(s: LedgerState, records: seq<RecoveryRecord>, n: nat,
                     sent: RecoveryRecord -> bool, statusFor: RecoveryRecord -> EventStatus): LedgerState
    requires n <= |records|
  {
    if n == 0 then s
    else
      var before, r := Recovered(s, records, n - 1, sent, statusFor), records[n - 1];
      if sent(r) then Finish(before, r, statusFor(r)).0 else before
  }

  /** The stored events match the records that are going to be handed back. */
  ghost predicate Pending(s: LedgerState, records: seq<RecoveryRecord>) {
    && KeysUnique(records, RecoveryKey)
    && forall m :: 0 <= m < |records| ==>
      EventOf(s, RecoveryKey(records[m])) == Some(records[m].event) && records[m].event.status.IsProcessing()
  }

  lemma RecoveryListIsPending(s: LedgerState)
    requires Inv(s)
    ensures Pending(s, RecoveryRecords(s.events, s.surfaces))
  {
    var records := RecoveryRecords(s.events, s.surfaces);
    RecoveryKeysUnique(s.events, s.surfaces);
    forall m | 0 <= m < |records|
      ensures EventOf(s, RecoveryKey(records[m])) == Some(records[m].event) && records[m].event.status.IsProcessing()
    {
      assert records[m] in records;
      InTableIffFound(s.events, records[m].event);
    }
  }

  lemma InTableIffFound(events: seq<EventRecord>, e: EventRecord)
    requires KeysUnique(events, EventKeyOf)
    ensures e in events <==> Find(events, EventKeyOf, EventKeyOf(e)) == Some(e)
  {
    if e in events {
      var i :| 0 <= i < |events| && events[i] == e;
      FindIs(events, EventKeyOf, i);
    }
  }

  lemma FinishOne(s: LedgerState, r: RecoveryRecord, status: EventStatus, k: EventKey)
    requires Inv(s) && status.IsTerminal()
    requires EventOf(s, RecoveryKey(r)) == Some(r.event) && r.event.status.IsProcessing()
    ensures var (after, reply) := Finish(s, r, status);
      && Inv(after) && after.surfaces == s.surfaces && after.turns == s.turns
      && reply == Ok(Recorded(r.event.hash, status))
      && EventOf(after, k) == if k == RecoveryKey(r) then Some(r.event.(status := status)) else EventOf(s, k)
  {
    var op := RecordByHash(RecoveryKey(r), r.event.surfaceId, status);
    EventIndexIsFind(s.events, RecoveryKey(r));
    assert WellFormedEvent(s.events[EventIndex(s.events, RecoveryKey(r))]);
    UpdateKeepsInv(s, op, Saved);
    EventsRefineMachines(s, op, k);
  }

  /** Which of the first `n` records, if any, is handed back for the event `k`. */
  function HandedBack(records: seq<RecoveryRecord>, n: nat, sent: RecoveryRecord -> bool, k: EventKey): (r: Option<nat>)
    requires n <= |records|
    ensures r.Some? ==> r.value < n && sent(records[r.value]) && RecoveryKey(records[r.value]) == k
    ensures r.None? ==> forall m :: 0 <= m < n && sent(records[m]) ==> RecoveryKey(records[m]) != k
  {
    if n == 0 then None
    else if sent(records[n - 1]) && RecoveryKey(records[n - 1]) == k then Some(n - 1)
    else HandedBack(records, n - 1, sent, k)
  }

  /** Of the first `n` records the selected ones are finished for `k`, and nothing else changed. */
  ghost predicate FinishedUpTo(s: LedgerState, after: LedgerState, records: seq<RecoveryRecord>, n: nat,
                               sent: RecoveryRecord -> bool, statusFor: RecoveryRecord -> EventStatus, k: EventKey)
    requires n <= |records|
  {
    var m := HandedBack(records, n, sent, k);
    && Inv(after) && after.surfaces == s.surfaces && after.turns == s.turns
    && EventOf(after, k) ==
       if m.Some? then Some(records[m.value].event.(status := statusFor(records[m.value]))) else EventOf(s, k)
  }

  lemma FinishNext(s: LedgerState, before: LedgerState, records: seq<RecoveryRecord>, n: nat,
                   sent: RecoveryRecord -> bool, statusFor: RecoveryRecord -> EventStatus, k: EventKey)
    requires n < |records| && FinishedUpTo(s, before, records, n, sent, statusFor, k)
    requires statusFor(records[n]).IsTerminal()
    requires EventOf(before, RecoveryKey(records[n])) == Some(records[n].event)
      && records[n].event.status.IsProcessing()
    ensures var after := if sent(records[n]) then Finish(before, records[n], statusFor(records[n])).0 else before;
      FinishedUpTo(s, after, records, n + 1, sent, statusFor, k)
  {
    if sent(records[n]) {
      FinishOne(before, records[n], statusFor(records[n]), k);
    }
  }

  /** Handing pending records back finishes exactly the selected ones and touches no other event. */
  lemma {:induction false} RecoveredEvents(s: LedgerState, records: seq<RecoveryRecord>, n: nat,
                                           sent: RecoveryRecord -> bool, statusFor: RecoveryRecord -> EventStatus,
                                             k: EventKey)
    requires Inv(s) && Pending(s, records) && n <= |records|
    requires forall r :: statusFor(r).IsTerminal()
    ensures FinishedUpTo(s, Recovered(s, records, n, sent, statusFor), records, n, sent, statusFor, k)
    decreases n, 0
  {
    if n == 0 {
    } else {
      RecoveredEvents(s, records, n - 1, sent, statusFor, k);
      StillPending(s, records, n - 1, sent, statusFor);
      FinishNext(s, Recovered(s, records, n - 1, sent, statusFor), records, n - 1, sent, statusFor, k);
    }
  }

  /** Until its turn comes a record matches what is stored. */
  lemma {:induction false} StillPending(s: LedgerState, records: seq<RecoveryRecord>, n: nat,
                                        sent: RecoveryRecord -> bool, statusFor: RecoveryRecord -> EventStatus)
    requires Inv(s) && Pending(s, records) && n < |records|
    requires forall r :: statusFor(r).IsTerminal()
    ensures EventOf(Recovered(s, records, n, sent, statusFor), RecoveryKey(records[n])) == Some(records[n].event)
    decreases n, 1
  {
    RecoveredEvents(s, records, n, sent, statusFor, RecoveryKey(records[n]));
  }

  /** Handing back record `n`, in its turn, is answered `Recorded`. */
  ghost predicate IsRecorded(s: LedgerState, records: seq<RecoveryRecord>, n: nat,
                               sent: RecoveryRecord -> bool, statusFor: RecoveryRecord -> EventStatus)
    requires n < |records|
  {
    Finish(Recovered(s, records, n, sent, statusFor), records[n], statusFor(records[n])).1
    == Ok(Recorded(records[n].event.hash, statusFor(records[n])))
  }

  /** No record of the recovery list is refused. */
  lemma RecoveryNeverFails(s: LedgerState, records: seq<RecoveryRecord>, n: nat,
                           sent: RecoveryRecord -> bool, statusFor: RecoveryRecord -> EventStatus)
    requires Inv(s) && records == RecoveryRecords(s.events, s.surfaces) && n < |records|
    requires forall r :: statusFor(r).IsTerminal()
    ensures IsRecorded(s, records, n, sent, statusFor)
  {
    var k := RecoveryKey(records[n]);
    RecoveryListIsPending(s);
    RecoveredEvents(s, records, n, sent, statusFor, k);
    FinishOne(Recovered(s, records, n, sent, statusFor), records[n], statusFor(records[n]), k);
  }

  /** The ledger after the whole recovery list has been considered. */
  function RecoveredAll(s: LedgerState, sent: RecoveryRecord -> bool, statusFor: RecoveryRecord -> EventStatus)
    : LedgerState
  {
    var records := RecoveryRecords(s.events, s.surfaces);
    Recovered(s, records, |records|, sent, statusFor)
  }

  const EVERYTHING: RecoveryRecord -> bool := (r: RecoveryRecord) => true

  lemma UnfinishedAfterRecovery(s: LedgerState, statusFor: RecoveryRecord -> EventStatus, e: EventRecord)
    requires Inv(s)
    requires forall r :: statusFor(r).IsTerminal()
    ensures var after := RecoveredAll(s, EVERYTHING, statusFor);
      && after.surfaces == s.surfaces
      && (Unfinished(after, e) <==> Unfinished(s, e) && !HasSurface(s, e.surfaceId))
  {
    var records, k := RecoveryRecords(s.events, s.surfaces), EventKeyOf(e);
    RecoveryListIsPending(s);
    RecoveredEvents(s, records, |records|, EVERYTHING, statusFor, k);
    InTableIffFound(s.events, e);
    InTableIffFound(RecoveredAll(s, EVERYTHING, statusFor).events, e);
    RecoveryListIsExact(s, s.events, e);
    if m :| 0 <= m < |records| && RecoveryKey(records[m]) == k {
      assert records[m] in records;
      RecoveryListIsExact(s, s.events, records[m].event);
    } else {
      assert forall r :: r in records ==> RecoveryKey(r) != k;
    }
  }

  /** Recovery drains: afterwards the recovery list is empty, and what is still unfinished is
      exactly what was unfinished before and has no surface in the table. */
  lemma RecoveryDrains(s: LedgerState, statusFor: RecoveryRecord -> EventStatus)
    requires Inv(s)
    requires forall r :: statusFor(r).IsTerminal()
    ensures var after := RecoveredAll(s, EVERYTHING, statusFor);
      && RecoveryRecords(after.events, after.surfaces) == []
      && forall e :: Unfinished(after, e) <==> Unfinished(s, e) && !HasSurface(s, e.surfaceId)
  {
    var after := RecoveredAll(s, EVERYTHING, statusFor);
    forall e
      ensures Unfinished(after, e) <==> Unfinished(s, e) && !HasSurface(s, e.surfaceId)
    {
      UnfinishedAfterRecovery(s, statusFor, e);
    }
    var left := RecoveryRecords(after.events, after.surfaces);
    if left != [] {
      var e := left[0].event;
      assert left[0] in left;
      RecoveryListIsExact(after, after.events, e);
      UnfinishedAfterRecovery(s, statusFor, e);
    }
  }

  /** The terminal status that a restart gives to an unfinished event. */
  const RESTART_STATUS: RecoveryRecord -> EventStatus :=
    (r: RecoveryRecord) => if r.event.status == ClaimedBeforeSubmit then FailedNotified else SubmittedUnknownNotified

  predicate IsAddressOf(f: SurfaceFacts, r: RecoveryRecord) {
    && f.surfaceId == r.event.surfaceId
    && f.accountId == r.accountId && f.conversationId == r.conversationId && f.threadId == r.threadId
  }

  /** A record is addressed to the thread of its own surface. */
  lemma {:induction false} RecoveryIsAddressedToSurface(events: seq<EventRecord>, surfaces: seq<Surface>,
                                                        r: RecoveryRecord)
    requires r in RecoveryRecords(events, surfaces)
    ensures exists x :: x in surfaces && IsAddressOf(x.facts, r)
  {
    if r in RecoveryRecords(events[1..], surfaces) {
      RecoveryIsAddressedToSurface(events[1..], surfaces, r);
    } else {
      assert surfaces[SurfaceIndex(surfaces, events[0].surfaceId)] in surfaces;
    }
  }

  /** A restart gives a notified event that was only claimed the status of a failure, one that may have
      been submitted the status of an unknown outcome, and leaves an event without a notice alone. */
  lemma RestartOutcome(s: LedgerState, sent: RecoveryRecord -> bool, r: RecoveryRecord)
    requires Inv(s) && r in RecoveryRecords(s.events, s.surfaces)
    ensures EventOf(RecoveredAll(s, sent, RESTART_STATUS), RecoveryKey(r)) ==
      Some(if !sent(r) then r.event
           else if r.event.status == ClaimedBeforeSubmit then r.event.(status := FailedNotified)
           else r.event.(status := SubmittedUnknownNotified))
  {
    var records := RecoveryRecords(s.events, s.surfaces);
    RecoveryListIsPending(s);
    RecoveredEvents(s, records, |records|, sent, RESTART_STATUS, RecoveryKey(r));
    var n :| 0 <= n < |records| && records[n] == r;
    var m := HandedBack(records, |records|, sent, RecoveryKey(r));
    assert m.Some? ==> m.value == n;
  }

  method FinishThroughStore(store: LedgerStore, r: RecoveryRecord, status: EventStatus, io: SaveOutcome)
    returns (ok: bool)
    requires Finish(store.file.contents, r, status).1.Ok?
    modifies store.file
    ensures io == Saved ==> ok
    ensures ok ==> store.file.contents == Finish(old(store.file.contents), r, status).0
  {
    var reply := store.Update(RecordByHash(RecoveryKey(r), r.event.surfaceId, status), io);
    ok := reply.record.Ok?;
  }

  method FinishEach(store: LedgerStore, records: seq<RecoveryRecord>, sent: RecoveryRecord -> bool,
                    saves: nat -> SaveOutcome)
    returns (ok: bool)
    requires forall n :: 0 <= n < |records| ==> IsRecorded(store.file.contents, records, n, sent, RESTART_STATUS)
    modifies store.file
    ensures (forall n :: saves(n) == Saved) ==> ok
    ensures ok ==> store.file.contents == Recovered(old(store.file.contents), records, |records|, sent, RESTART_STATUS)
  {
    var i := 0;
    while i < |records|
      invariant i <= |records|
      invariant store.file.contents == Recovered(old(store.file.contents), records, i, sent, RESTART_STATUS)
    {
      if sent(records[i]) {
        assert IsRecorded(old(store.file.contents), records, i, sent, RESTART_STATUS);
        ok := FinishThroughStore(store, records[i], RESTART_STATUS(records[i]), saves(i));
        if !ok {
          return;
        }
      }
      i := i + 1;
    }
    ok := true;
  }

  /**
   The restart loop: every record whose notice was delivered is handed back to the store.
   `sent` says for which records a notice could be sent; a failing save ends the loop.
   */
  method ReconcileUnfinished(store: LedgerStore, sent: RecoveryRecord -> bool, saves: nat -> SaveOutcome)
    returns (ok: bool)
    requires Inv(store.file.contents)
    modifies store.file
    ensures (forall n :: saves(n) == Saved) ==> ok
    ensures ok ==> store.file.contents == RecoveredAll(old(store.file.contents), sent, RESTART_STATUS)
  {
    var records := RecoveryRecords(store.file.contents.events, store.file.contents.surfaces);
    forall n | 0 <= n < |records|
      ensures IsRecorded(store.file.contents, records, n, sent, RESTART_STATUS)
    {
      RecoveryNeverFails(store.file.contents, records, n, sent, RESTART_STATUS);
    }
    ok := FinishEach(store, records, sent, saves);
  }

  // ---- the restart loop beside the running service ----

  /** Update `j` of the run hands the record back with a terminal status. */
  ghost predicate HandsBack(run: Run, j: nat, r: RecoveryRecord)
    requires run.Valid() && j < |run.updates|
  {
    var op := run.updates[j].op;
    op.RecordByHash? && op.key == RecoveryKey(r) && op.surfaceId == r.event.surfaceId && op.status.IsTerminal()
  }

  lemma HandBackReply(s: LedgerState, k: EventKey, surfaceId: string, status: EventStatus, io: SaveOutcome)
    requires Inv(s) && status.IsTerminal() && Present(k.providerId) && Present(k.providerType) && Present(surfaceId)
    ensures var reply, e := ReplyTo(s, RecordByHash(k, surfaceId, status), io).record, EventOf(s, k);
      && (reply == Err(EventNotFound) <==> e.None?)
      && (reply == Err(OtherSurface) <==> e.Some? && e.value.surfaceId != surfaceId)
      && (e.Some? && e.value.surfaceId == surfaceId ==> reply.Ok? || (reply == Err(SaveFailed) && io != Saved))
      && (reply.Ok? ==> io == Saved || Apply(s, RecordByHash(k, surfaceId, status)) == s)
  {
    EventIndexIsFind(s.events, k);
  }

  /** A record of a list that was read at update `i` is handed back at update `j`, with any updates of the
      running service in between. Unless the claim was released meanwhile the answer is `Recorded` or
      `Duplicate`, if the save completes; it is "not found" exactly when the event is gone, and only a
      release makes it so. */
  lemma HandBackIsAnswered(run: Run, i: nat, j: nat, r: RecoveryRecord)
    requires run.Valid() && i <= j < |run.updates| && HandsBack(run, j, r)
    requires r in RecoveryRecords(run.states[i].events, run.states[i].surfaces)
    ensures run.replies[j].Recording?
    ensures var reply, k := run.replies[j].record, RecoveryKey(r);
      && (reply == Err(EventNotFound) <==> run.Event(j, k).None?)
      && (reply.Ok? || (reply == Err(SaveFailed) && run.updates[j].io != Saved) || ReleasedBetween(run, i, j, k))
      && (reply == Err(EventNotFound) ==> ReleasedBetween(run, i, j, k))
  {
    var k := RecoveryKey(r);
    ReachableInv(run, i);
    ReachableInv(run, j);
    InTableIffFound(run.states[i].events, r.event);
    assert run.StepValid(j);
    HandBackReply(run.states[j], k, r.event.surfaceId, run.updates[j].op.status, run.updates[j].io);
    if run.Event(j, k).None? {
      var m := DisappearingNeedsRelease(run, i, j, k);
    } else if !ReleasedBetween(run, i, j, k) {
      SurfaceOfEventIsFixed(run, i, j, k);
    }
  }

  ghost predicate ReleasedBetween(run: Run, i: nat, j: nat, k: EventKey)
    requires run.Valid() && j <= |run.updates|
  {
    exists m :: i <= m < j && run.Released(m, k)
  }

  /** A hand-back that is answered without an error leaves its event finished in the file. */
  lemma HandBackFinishes(run: Run, j: nat, r: RecoveryRecord)
    requires run.Valid() && j < |run.updates| && HandsBack(run, j, r) && WellFormedEvent(r.event)
    requires run.replies[j].Recording? && run.replies[j].record.Ok?
    ensures run.Event(j + 1, RecoveryKey(r)).Some? && run.Event(j + 1, RecoveryKey(r)).value.status.IsTerminal()
  {
    ReachableInv(run, j);
    assert run.StepValid(j);
    HandBackReply(run.states[j], RecoveryKey(r), r.event.surfaceId, run.updates[j].op.status, run.updates[j].io);
    EventMoves(run, j, RecoveryKey(r));
  }

  /** A record that was handed back successfully is finished from then on, whatever else happens. */
  lemma HandedBackIsFinished(run: Run, i: nat, j: nat, n: nat, r: RecoveryRecord)
    requires run.Valid() && i <= j < n <= |run.updates| && HandsBack(run, j, r)
    requires r in RecoveryRecords(run.states[i].events, run.states[i].surfaces)
    requires run.replies[j].Recording? && run.replies[j].record.Ok?
    ensures run.Event(n, RecoveryKey(r)).Some? && run.Event(n, RecoveryKey(r)).value.status.IsTerminal()
  {
    ReachableInv(run, i);
    HandBackFinishes(run, j, r);
    SubmittedIsForEver(run, j + 1, n, RecoveryKey(r));
  }
}
