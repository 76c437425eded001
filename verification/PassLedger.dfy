/** What one routing pass does to the bridge ledger: it asks owners and binds threads. */
module PassLedger {
  import opened Basics
  import opened Tables
  import opened Text
  import opened Router
  import opened RoutingPass
  import opened BridgeRuns
  import Bridge = BridgeBindingLedger

  // ---- a pass as a run of ledger operations ----

  function ApplyAll(s: Bridge.BridgeState, ops: seq<Op>): Bridge.BridgeState {
    if ops == [] then s else BridgeRuns.Apply(ApplyAll(s, ops[..|ops| - 1]), ops[|ops| - 1])
  }

  lemma {:induction false} ApplyAllAppend(s: Bridge.BridgeState, a: seq<Op>, b: seq<Op>)
    ensures ApplyAll(s, a + b) == ApplyAll(ApplyAll(s, a), b)
  {
    if b == [] {
      assert a + b == a;
    } else {
      var front := b[..|b| - 1];
      ApplyAllAppend(s, a, front);
      assert (a + b)[..|a + b| - 1] == a + front;
    }
  }

  lemma ApplyAllOne(s: Bridge.BridgeState, op: Op)
    ensures ApplyAll(s, [op]) == BridgeRuns.Apply(s, op)
  {
    assert [op][..0] == [];
    assert ApplyAll(s, []) == s;
  }

  /** A pass never connects or disconnects a room. */
  predicate FromPass(op: Op) {
    op.Begin? || op.Mark? || op.Bind?
  }

  type PassOp = op: Op | FromPass(op) witness Begin(Bridge.ProposalId("", ""), "", 0)

  /** The ledger, if there is one, is taken from `before` to `after` by operations of a pass. */
  ghost predicate Moves(before: Option<Bridge.BridgeState>, after: Option<Bridge.BridgeState>, ops: seq<PassOp>) {
    && (before.Some? <==> after.Some?)
    && (before.Some? ==> after.value == ApplyAll(before.value, ops))
  }

  lemma MovesOn(a: Option<Bridge.BridgeState>, b: Option<Bridge.BridgeState>, c: Option<Bridge.BridgeState>,
                first: seq<PassOp>, second: seq<PassOp>)
    requires Moves(a, b, first) && Moves(b, c, second)
    ensures Moves(a, c, first + second)
  {
    if a.Some? {
      ApplyAllAppend(a.value, first, second);
    }
  }

  lemma MovesNot(a: Option<Bridge.BridgeState>)
    ensures Moves(a, a, [])
  {
  }

  lemma MovesOnce(s: Bridge.BridgeState, op: PassOp)
    ensures Moves(Some(s), Some(BridgeRuns.Apply(s, op)), [op])
  {
    ApplyAllOne(s, op);
  }

  lemma AttemptLedger(m: Memory, signal: Signal, provider: Provider, target: Target, w: World)
    ensures var after := Attempt(m, signal, provider, target, w).0.ledger;
      after == m.ledger || (m.ledger.Some? && after == Some(AfterDelivery(m.ledger.value, signal, w)))
  {
  }

  lemma DeliveryMoves(start: Option<Bridge.BridgeState>, s: Option<Bridge.BridgeState>,
                      after: Option<Bridge.BridgeState>,
                      signal: Signal, w: World, before: seq<PassOp>)
    returns (ops: seq<PassOp>)
    requires Moves(start, s, before)
    requires after == s || (s.Some? && after == Some(AfterDelivery(s.value, signal, w)))
    ensures Moves(start, after, ops)
  {
    ops := before;
    if after != s {
      var op := Bind(w.surface.value.(projectPath := Path(signal).value), w.now);
      MovesOnce(s.value, op);
      MovesOn(start, s, after, before, [op]);
      ops := before + [op];
    }
  }

  lemma {:induction false} BatchMoves(b: Batch, m: Memory, n: nat) returns (ops: seq<PassOp>)
    requires n <= |b.targets|
    ensures Moves(m.ledger, b.Run(m, n).0.ledger, ops)
  {
    if n == 0 {
      ops := [];
    } else {
      var mid, w := b.Run(m, n - 1).0, b.world(b.first + n - 1);
      var before := BatchMoves(b, m, n - 1);
      AttemptLedger(mid, b.signal, b.provider, b.targets[n - 1], w);
      ops := DeliveryMoves(m.ledger, mid.ledger, b.Run(m, n).0.ledger, b.signal, w, before);
    }
  }

  lemma PromptMoves(s: Bridge.BridgeState, provider: Provider, path: string, now: Time, o: PromptOutcome)
    returns (ops: seq<PassOp>)
    ensures Moves(Some(s), Some(PromptForRoom(s, provider, path, now, o).0), ops)
  {
    ops := [];
    if !o.CannotPrompt? {
      var id := Bridge.ProposalId(provider.id, path);
      var begin := Begin(id, provider.providerType, now);
      var asked, reply := BridgeRuns.Apply(s, begin), Bridge.BeginPrompt(s, id, provider.providerType, now).1;
      MovesOnce(s, begin);
      ops := [begin];
      if reply.Ok? && reply.value.Prompt? {
        var mark := Mark(id, MarkFor(o), now);
        MovesOnce(asked, mark);
        MovesOn(Some(s), Some(asked), Some(BridgeRuns.Apply(asked, mark)), [begin], [mark]);
        ops := [begin] + [mark];
      }
    }
  }

  /** How a prompt that was to be sent is recorded. */
  function MarkFor(o: PromptOutcome): Bridge.ProposalMark {
    if o.PromptDelivered? then Bridge.PromptSent(o.account, o.conversation, o.message) else Bridge.MarkPromptFailed
  }

  lemma FindingMoves(signal: Signal, provider: Provider, before: Option<Bridge.BridgeState>,
                     after: Option<Bridge.BridgeState>,
                     hasStatic: bool, now: Time, o: PromptOutcome, r: Result<seq<Target>, Failure>)
    returns (ops: seq<PassOp>)
    requires TargetsFound(signal, provider, before, after, hasStatic, now, o, r)
    ensures Moves(before, after, ops)
  {
    MovesNot(before);
    ops := [];
    if before != after {
      ops := PromptMoves(before.value, provider, Path(signal).value, now, o);
    }
  }

  lemma VisitMoves(p: Pass, n: nat, attempted: nat, before: Memory, after: Memory, visit: Visit)
    returns (ops: seq<PassOp>)
    requires p.Fits(n, attempted, before, after, visit)
    ensures Moves(before.ledger, after.ledger, ops)
  {
    if visit.providerId !in p.registered {
      MovesNot(before.ledger);
      ops := [];
    } else {
      var found, r := p.FoundIn(n, attempted, before, after, visit);
      ops := FindingMoves(p.signal, p.registered[visit.providerId], before.ledger, found.ledger,
                          p.hasStatic(visit.providerId), p.world(attempted).now, p.prompts(n), r);
      if visit.Visited? {
        var batch := p.BatchFor(visit.providerId, visit.targets, attempted);
        var more := BatchMoves(batch, found, |visit.targets|);
        MovesOn(before.ledger, found.ledger, after.ledger, ops, more);
        ops := ops + more;
      }
    }
  }

  lemma {:induction false} PassMoves(p: Pass, tr: Trace, n: nat) returns (ops: seq<PassOp>)
    requires p.Follows(tr) && n <= |tr.log|
    ensures Moves(tr.memories[0].ledger, tr.memories[n].ledger, ops)
  {
    if n == 0 {
      MovesNot(tr.memories[0].ledger);
      ops := [];
    } else {
      var before := PassMoves(p, tr, n - 1);
      assert p.StepFits(tr, n - 1);
      var next := VisitMoves(p, n - 1, TallyOf(tr.log[..n - 1]).attempted, tr.memories[n - 1], tr.memories[n],
                             tr.log[n - 1]);
      MovesOn(tr.memories[0].ledger, tr.memories[n - 1].ledger, tr.memories[n].ledger, before, next);
      ops := before + next;
    }
  }

  lemma OpsAreRun(s: Bridge.BridgeState, ops: seq<Op>) returns (r: BridgeRuns.Run)
    requires BridgeRuns.Inv(s)
    ensures r.Valid() && r.ops == ops && r.states[0] == s && r.states[|ops|] == ApplyAll(s, ops)
  {
    r := BridgeRuns.Run(seq(|ops| + 1, i requires 0 <= i <= |ops| => ApplyAll(s, ops[..i])), ops);
    assert ops[..|ops|] == ops;
    forall i | 0 <= i < |ops|
      ensures r.Moved(i)
    {
      assert ops[..i + 1][..i] == ops[..i];
    }
  }

  /** Up to every visit a pass is a run of the bridge ledger, so all that holds for runs holds for
      passes; its operations ask owners and bind threads. */
  lemma PassIsRun(p: Pass, tr: Trace, n: nat) returns (r: BridgeRuns.Run)
    requires p.Follows(tr) && n <= |tr.log|
    requires tr.memories[0].ledger.Some? && BridgeRuns.Inv(tr.memories[0].ledger.value)
    ensures r.Valid() && tr.memories[n].ledger == Some(r.states[|r.ops|]) && tr.memories[0].ledger == Some(r.states[0])
    ensures forall op :: op in r.ops ==> FromPass(op)
    ensures BridgeRuns.Inv(tr.memories[n].ledger.value)
  {
    var ops := PassMoves(p, tr, n);
    r := OpsAreRun(tr.memories[0].ledger.value, ops);
    ReachableInv(r, |ops|);
    assert forall k :: 0 <= k < |ops| ==> FromPass(ops[k]);
  }

  lemma {:induction false} OpsKeepRooms(s: Bridge.BridgeState, ops: seq<PassOp>)
    ensures ApplyAll(s, ops).rooms == s.rooms
  {
    if ops == [] {
    } else {
      OpsKeepRooms(s, ops[..|ops| - 1]);
      assert FromPass(ops[|ops| - 1]);
    }
  }

  /** A pass never changes a room binding. */
  lemma PassKeepsRooms(p: Pass, tr: Trace, n: nat)
    requires p.Follows(tr) && n <= |tr.log|
    ensures tr.memories[n].ledger.Some? <==> tr.memories[0].ledger.Some?
    ensures tr.memories[n].ledger.Some? ==> tr.memories[n].ledger.value.rooms == tr.memories[0].ledger.value.rooms
  {
    var ops := PassMoves(p, tr, n);
    if tr.memories[0].ledger.Some? {
      OpsKeepRooms(tr.memories[0].ledger.value, ops);
    }
  }

  // ---- the owner is asked once ----

  /** The prompt is really sent: the provider can prompt and the ledger says so. */
  ghost predicate Sends(s: Bridge.BridgeState, provider: Provider, path: string, now: Time, o: PromptOutcome) {
    var r := Bridge.BeginPrompt(s, Bridge.ProposalId(provider.id, path), provider.providerType, now).1;
    !o.CannotPrompt? && r.Ok? && r.value.Prompt?
  }

  lemma SendsIffNeeded(s: Bridge.BridgeState, provider: Provider, path: string, now: Time, o: PromptOutcome)
    requires BridgeRuns.Inv(s)
    ensures var asked := Bridge.ProposalId(provider.id, path);
      Sends(s, provider, path, now, o) <==>
        !o.CannotPrompt? && Bridge.ValidProposal(asked, provider.providerType) && NeedsPrompt(StatusOf(s, asked))
  {
    PromptReply(s, Bridge.ProposalId(provider.id, path), provider.providerType, now);
  }

  lemma SentIsTwoSteps(s: Bridge.BridgeState, provider: Provider, path: string, now: Time, o: PromptOutcome)
    requires Sends(s, provider, path, now, o)
    ensures var asked := Bridge.ProposalId(provider.id, path);
      PromptForRoom(s, provider, path, now, o).0 ==
        BridgeRuns.Apply(BridgeRuns.Apply(s, Begin(asked, provider.providerType, now)), Mark(asked, MarkFor(o), now))
  {
  }

  lemma SentIsRecorded(s: Bridge.BridgeState, provider: Provider, path: string, now: Time, o: PromptOutcome,
                       id: Bridge.ProposalId)
    requires BridgeRuns.Inv(s) && Sends(s, provider, path, now, o)
    ensures var asked := Bridge.ProposalId(provider.id, path);
      StatusOf(PromptForRoom(s, provider, path, now, o).0, id) ==
        if id == asked then Some(if o.PromptDelivered? then Bridge.Pending else Bridge.PromptFailed)
        else StatusOf(s, id)
  {
    var asked := Bridge.ProposalId(provider.id, path);
    SentIsTwoSteps(s, provider, path, now, o);
    SendsIffNeeded(s, provider, path, now, o);
    AskedThenMarked(s, asked, provider.providerType, MarkFor(o), now, id);
  }

  lemma AskedIsKnown(s: Bridge.BridgeState, asked: Bridge.ProposalId, providerType: string, now: Time,
                     id: Bridge.ProposalId)
    requires BridgeRuns.Inv(s) && Bridge.ValidProposal(asked, providerType)
    ensures var s1 := BridgeRuns.Apply(s, Begin(asked, providerType, now));
      && KeysUnique(s1.proposals, Bridge.ProposalIdOf) && StatusOf(s1, asked).Some?
      && (id != asked ==> StatusOf(s1, id) == StatusOf(s, id))
  {
    BeginStep(s, asked, providerType, now, id);
    BeginStep(s, asked, providerType, now, asked);
  }

  lemma AskedThenMarked(s: Bridge.BridgeState, asked: Bridge.ProposalId, providerType: string,
                        mark: Bridge.ProposalMark, now: Time,
                        id: Bridge.ProposalId)
    requires BridgeRuns.Inv(s) && Bridge.ValidProposal(asked, providerType) && mark.Valid()
    ensures var begin, marking := Begin(asked, providerType, now), Mark(asked, mark, now);
      StatusOf(BridgeRuns.Apply(BridgeRuns.Apply(s, begin), marking), id) ==
        if id == asked then StepStatus(Some(Bridge.Pending), marking, asked) else StatusOf(s, id)
  {
    AskedIsKnown(s, asked, providerType, now, id);
    MarkStep(BridgeRuns.Apply(s, Begin(asked, providerType, now)), asked, mark, now, id);
  }

  lemma UnsentChangesNoStatus(s: Bridge.BridgeState, provider: Provider, path: string, now: Time, o: PromptOutcome,
                              id: Bridge.ProposalId)
    requires BridgeRuns.Inv(s) && !Sends(s, provider, path, now, o)
    ensures StatusOf(PromptForRoom(s, provider, path, now, o).0, id) == StatusOf(s, id)
  {
    var asked := Bridge.ProposalId(provider.id, path);
    PromptReply(s, asked, provider.providerType, now);
    BeginStep(s, asked, provider.providerType, now, id);
  }

  /** A prompt is sent only for a proposal that needs one; afterwards the proposal is pending if the
      prompt was delivered and failed if it was not. Nothing else changes any proposal's status. */
  lemma PromptDecides(s: Bridge.BridgeState, provider: Provider, path: string, now: Time, o: PromptOutcome,
                      id: Bridge.ProposalId)
    requires BridgeRuns.Inv(s)
    ensures var asked := Bridge.ProposalId(provider.id, path);
      && (Sends(s, provider, path, now, o) <==>
            !o.CannotPrompt? && Bridge.ValidProposal(asked, provider.providerType) && NeedsPrompt(StatusOf(s, asked)))
      && StatusOf(PromptForRoom(s, provider, path, now, o).0, id) ==
         if id == asked && Sends(s, provider, path, now, o)
         then Some(if o.PromptDelivered? then Bridge.Pending else Bridge.PromptFailed)
         else StatusOf(s, id)
  {
    SendsIffNeeded(s, provider, path, now, o);
    if Sends(s, provider, path, now, o) {
      SentIsRecorded(s, provider, path, now, o, id);
    } else {
      UnsentChangesNoStatus(s, provider, path, now, o, id);
    }
  }

  /** The `n`-th visit sends a prompt for the proposal. */
  ghost predicate Asks(p: Pass, tr: Trace, n: nat, id: Bridge.ProposalId)
    requires tr.Sized() && n < |tr.log|
  {
    && tr.log[n].providerId in p.registered && tr.memories[n].ledger.Some? && Path(p.signal).Some?
    && var s, provider, path := tr.memories[n].ledger.value, p.registered[tr.log[n].providerId], Path(p.signal).value;
    && Query(s, p.signal, provider, path).Rooms() == [] && !p.hasStatic(tr.log[n].providerId)
    && id == Bridge.ProposalId(provider.id, path)
    && Sends(s, provider, path, p.world(TallyOf(tr.log[..n]).attempted).now, p.prompts(n))
  }

  ghost predicate SameProposals(before: Option<Bridge.BridgeState>, after: Option<Bridge.BridgeState>) {
    (before.Some? <==> after.Some?) && (before.Some? ==> after.value.proposals == before.value.proposals)
  }

  lemma {:induction false} BatchKeepsProposals(b: Batch, m: Memory, n: nat)
    requires n <= |b.targets|
    ensures SameProposals(m.ledger, b.Run(m, n).0.ledger)
  {
    if n == 0 {
    } else {
      BatchKeepsProposals(b, m, n - 1);
    }
  }

  /** What a visit does to the status of a proposal is what its prompt does to it. */
  lemma VisitDecides(p: Pass, tr: Trace, n: nat, id: Bridge.ProposalId)
    requires p.Follows(tr) && n < |tr.log|
    requires tr.memories[n].ledger.Some? && BridgeRuns.Inv(tr.memories[n].ledger.value)
    ensures tr.memories[n + 1].ledger.Some?
    ensures var was, later := StatusOf(tr.memories[n].ledger.value, id), StatusOf(tr.memories[n + 1].ledger.value, id);
      if Asks(p, tr, n, id) then
        NeedsPrompt(was) && later == Some(if p.prompts(n).PromptDelivered? then Bridge.Pending else Bridge.PromptFailed)
      else later == was
  {
    assert p.StepFits(tr, n);
    var visit, attempted, before, after :=
      tr.log[n], TallyOf(tr.log[..n]).attempted, tr.memories[n], tr.memories[n + 1];
    if visit.providerId in p.registered {
      var found, r := p.FoundIn(n, attempted, before, after, visit);
      if Path(p.signal).Some? {
        PromptDecides(before.ledger.value, p.registered[visit.providerId], Path(p.signal).value,
                      p.world(attempted).now, p.prompts(n), id);
      }
      if visit.Visited? {
        BatchKeepsProposals(p.BatchFor(visit.providerId, visit.targets, attempted), found, |visit.targets|);
      }
    }
  }

  /** A proposal that needs no prompt needs none in the rest of the pass. */
  lemma {:induction false} StaysSettled(p: Pass, tr: Trace, m: nat, n: nat, id: Bridge.ProposalId)
    requires p.Follows(tr) && m <= n <= |tr.log|
    requires tr.memories[0].ledger.Some? && BridgeRuns.Inv(tr.memories[0].ledger.value)
    requires tr.memories[m].ledger.Some? && !NeedsPrompt(StatusOf(tr.memories[m].ledger.value, id))
    ensures tr.memories[n].ledger.Some? && !NeedsPrompt(StatusOf(tr.memories[n].ledger.value, id))
  {
    if m == n {
    } else {
      StaysSettled(p, tr, m, n - 1, id);
      var _ := PassIsRun(p, tr, n - 1);
      VisitDecides(p, tr, n - 1, id);
    }
  }

  /** At most one prompt about a project is delivered through a provider in a pass, even if several
      routes list the provider: after a delivered prompt the rest of the pass does not ask again. */
  lemma DeliveredPromptIsLast(p: Pass, tr: Trace, m: nat, n: nat, id: Bridge.ProposalId)
    requires p.Follows(tr) && m < n < |tr.log|
    requires tr.memories[0].ledger.Some? && BridgeRuns.Inv(tr.memories[0].ledger.value)
    requires Asks(p, tr, m, id) && p.prompts(m).PromptDelivered?
    ensures !Asks(p, tr, n, id)
  {
    var _ := PassIsRun(p, tr, m);
    VisitDecides(p, tr, m, id);
    StaysSettled(p, tr, m + 1, n, id);
    var _ := PassIsRun(p, tr, n);
    VisitDecides(p, tr, n, id);
  }

  // ---- a bound thread is used again ----

  /** What a delivered message bound, every later message of the session uses: in every later state of
      any run the session's target in the room is a thread of that very conversation. */
  lemma DeliveredThreadIsReused(r: BridgeRuns.Run, i: nat, j: nat, signal: Signal, provider: Provider,
                                room: Bridge.Room, w: World)
    requires r.Valid() && i < j <= |r.ops|
    requires Path(signal).Some? && signal.sessionId.Some?
    requires room.providerId == provider.id && room.providerType == provider.providerType
    requires w.surface.Some? && w.surface.value.key.room == room
    requires w.surface.value.source == Bridge.Source(signal.sourceId, signal.sourceType, signal.sessionId.value)
    requires r.ops[i] == Bind(w.surface.value.(projectPath := Path(signal).value), w.now)
    requires Bridge.BindThread(r.states[i], r.ops[i].input, w.now).1.Ok?
    ensures r.states[i + 1] == AfterDelivery(r.states[i], signal, w)
    ensures var t := TargetForRoom(r.states[j], signal, provider, Path(signal).value, room);
      t.Ok? && t.value.ProviderThread? && t.value.accountId == room.accountId
        && t.value.toConversationId == room.conversationId
  {
    var input := r.ops[i].input;
    assert r.Moved(i);
    BoundStaysFound(r, i, j, input, w.now);
    assert signal.sessionId.value[0] in signal.sessionId.value;
  }

  /** Once a bind succeeded the lookup by session and folder keeps finding a thread of the room. */
  lemma BoundStaysFound(r: BridgeRuns.Run, i: nat, j: nat, input: Bridge.ThreadInput, now: Time)
    requires r.Valid() && i < j <= |r.ops| && r.ops[i] == Bind(input, now)
    requires Bridge.BindThread(r.states[i], input, now).1.Ok?
    ensures var q := Bridge.SessionQuery(input.key.room, input.projectPath, input.source);
      var found := Bridge.LookupThreadForSession(r.states[j], q);
      found.Ok? && found.value.Some? && found.value.value.key.room == input.key.room
  {
    ReachableInv(r, i);
    BoundIsStored(r.states[i], input, now);
    assert r.Moved(i);
    ThreadBindingIsWriteOnce(r, i + 1, j, input.key);
    ReachableInv(r, j);
    StoredIsFound(r.states[j], input.key, Bridge.SessionQuery(input.key.room, input.projectPath, input.source));
  }
}
