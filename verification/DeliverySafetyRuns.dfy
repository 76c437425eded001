/**
 The pruned windows refine a guard that forgets nothing, and what follows for whole runs:
 no target is sent one message more than four times in ten seconds, and a storm of three
 messages stops everything until a reset.
 */
module DeliverySafetyRuns {
  import opened Basics
  import opened DeliverySafety

  // ---- the guard that keeps everything ----

  datatype Attempt = Attempt(key: DeliveryKey, at: Time)

  datatype StormEntry = StormEntry(fingerprint: Fingerprint, at: Time)

  // Every attempt and every suppression recorded since the guard was last reset or loaded.
  datatype History = History(attempts: seq<Attempt>, storms: seq<StormEntry>, pause: Option<Pause>, file: Option<Pause>)

  /** The recorded attempts for a key that are not older than `since`. */
  function Recent(attempts: seq<Attempt>, k: DeliveryKey, since: Time): seq<Time> {
    if attempts == [] then []
    else
      (if attempts[0].key == k && attempts[0].at >= since then [attempts[0].at] else [])
      + Recent(attempts[1..], k, since)
  }

  /** The messages suppressed at or after `since`. */
  function Hot(storms: seq<StormEntry>, since: Time): set<Fingerprint> {
    set e | e in storms && e.at >= since :: e.fingerprint
  }

  /** The rule the guard implements: count the attempts of the last ten seconds, and stop
      everything once three messages were suppressed within two minutes. */
  function SpecCheck(h: History, k: DeliveryKey, now: Time, saved: bool): (History, Result<Decision, GuardError>) {
    if h.pause.Some? then (h, Ok(Suppress(GlobalPaused, k, 0, 0, true, None)))
    else
      var h1 := h.(attempts := h.attempts + [Attempt(k, now)]);
      var count := |Recent(h1.attempts, k, now - 10_000_000_000)|;
      if count < 5 then (h1, Ok(Allow(k)))
      else SpecStorm(h1, k, count, now, saved)
  }

  function SpecStorm(h: History, k: DeliveryKey, count: nat, now: Time, saved: bool)
    : (History, Result<Decision, GuardError>)
  {
    var h1 := h.(storms := h.storms + [StormEntry(k.fingerprint, now)]);
    var hot := |Hot(h1.storms, now - 120_000_000_000)|;
    if hot < 3 then (h1, Ok(Suppress(DuplicateStorm, k, 10, count, false, None)))
    else
      var pause := Some(Pause(now, hot, 120));
      (h1.(pause := pause, file := if saved then pause else h.file),
       if saved then Ok(Suppress(DuplicateStorm, k, 10, count, true, Some(PauseStarted(hot, 120))))
       else Err(SaveFailed))
  }

  // ---- the refinement relation ----

  ghost predicate SortedAttempts(attempts: seq<Attempt>, last: Time) {
    && (forall i, j :: 0 <= i < j < |attempts| ==> attempts[i].at <= attempts[j].at)
    && (forall i :: 0 <= i < |attempts| ==> attempts[i].at <= last)
  }

  /** The windows hold exactly the attempts of the last ten seconds, and no empty window. */
  ghost predicate WindowsMatch(windows: Windows, attempts: seq<Attempt>, last: Time) {
    && (forall k :: WindowOf(windows, k) == Recent(attempts, k, last - 10_000_000_000))
    && (forall k :: k in windows ==> windows[k] != [])
  }

  /** Each remembered message carries its latest suppression; what is forgotten is too old to matter. */
  ghost predicate SuppressionsMatch(suppressed: map<Fingerprint, Time>, storms: seq<StormEntry>, last: Time) {
    && (forall f :: f in suppressed ==> StormEntry(f, suppressed[f]) in storms)
    && (forall e :: e in storms ==> e.at <= last)
    && (forall e :: e in storms && e.fingerprint in suppressed ==> e.at <= suppressed[e.fingerprint])
    && (forall e :: e in storms && e.fingerprint !in suppressed ==> e.at < last - 120_000_000_000)
  }

  /** `last` is the time of the latest call. */
  ghost predicate Matches(s: GuardState, h: History, last: Time) {
    && s.pause == h.pause && s.file == h.file
    && SortedAttempts(h.attempts, last)
    && (s.pause.None? ==>
          && WindowsMatch(s.windows, h.attempts, last)
          && SuppressionsMatch(s.suppressed, h.storms, last)
          && |s.suppressed| < 3)
  }

  lemma {:induction false} RecentPush(attempts: seq<Attempt>, a: Attempt, k: DeliveryKey, since: Time)
    ensures Recent(attempts + [a], k, since)
      == Recent(attempts, k, since) + (if a.key == k && a.at >= since then [a.at] else [])
  {
    if attempts == [] {
      assert attempts + [a] == [a];
      assert [a][1..] == [];
    } else {
      RecentPush(attempts[1..], a, k, since);
      assert (attempts + [a])[1..] == attempts[1..] + [a];
    }
  }

  lemma {:induction false} RecentAllNew(attempts: seq<Attempt>, k: DeliveryKey, since: Time, later: Time)
    requires since <= later && forall i :: 0 <= i < |attempts| ==> attempts[i].at >= later
    ensures Recent(attempts, k, since) == Recent(attempts, k, later)
  {
    if attempts == [] {
    } else {
      assert forall i :: 0 <= i < |attempts[1..]| ==> attempts[1..][i] == attempts[i + 1];
      RecentAllNew(attempts[1..], k, since, later);
    }
  }

  /** Dropping from the front of a sorted window is the same as counting from a later time. */
  lemma {:induction false} DropOldIsRecent(attempts: seq<Attempt>, k: DeliveryKey, since: Time, later: Time, last: Time)
    requires since <= later && SortedAttempts(attempts, last)
    ensures DropOld(Recent(attempts, k, since), later) == Recent(attempts, k, later)
  {
    if attempts == [] {
    } else {
      var a, rest := attempts[0], attempts[1..];
      DropOldIsRecent(rest, k, since, later, last);
      if a.at >= later {
        RecentAllNew(attempts, k, since, later);
        RecentFront(attempts, k, later);
      } else {
        assert Recent(attempts, k, later) == Recent(rest, k, later);
        if a.key == k && a.at >= since {
          assert Recent(attempts, k, since)[1..] == Recent(rest, k, since);
        } else {
          assert Recent(attempts, k, since) == Recent(rest, k, since);
        }
      }
    }
  }

  lemma {:induction false} RecentFront(attempts: seq<Attempt>, k: DeliveryKey, since: Time)
    ensures var r := Recent(attempts, k, since); r == [] || r[0] >= since
  {
    if attempts == [] {
    } else {
      RecentFront(attempts[1..], k, since);
    }
  }

  lemma {:induction false} RecentShrinks(attempts: seq<Attempt>, k: DeliveryKey, since: Time, later: Time)
    requires since <= later
    ensures |Recent(attempts, k, later)| <= |Recent(attempts, k, since)|
  {
    if attempts == [] {
    } else {
      RecentShrinks(attempts[1..], k, since, later);
    }
  }

  lemma PruneMatches(windows: Windows, attempts: seq<Attempt>, last: Time, now: Time, k: DeliveryKey)
    requires last <= now && SortedAttempts(attempts, last) && WindowsMatch(windows, attempts, last)
    ensures WindowOf(Pruned(windows, now - 10_000_000_000), k) == Recent(attempts, k, now - 10_000_000_000)
  {
    assert WindowOf(windows, k) == Recent(attempts, k, last - 10_000_000_000);
    DropOldIsRecent(attempts, k, last - 10_000_000_000, now - 10_000_000_000, last);
  }

  lemma WindowsAfterAttempt(windows: Windows, attempts: seq<Attempt>, last: Time, k: DeliveryKey, now: Time)
    requires last <= now && SortedAttempts(attempts, last) && WindowsMatch(windows, attempts, last)
    ensures var pruned := Pruned(windows, now - 10_000_000_000);
      && WindowsMatch(pruned[k := WindowOf(pruned, k) + [now]], attempts + [Attempt(k, now)], now)
      && WindowOf(pruned, k) + [now] == Recent(attempts + [Attempt(k, now)], k, now - 10_000_000_000)
  {
    var pruned := Pruned(windows, now - 10_000_000_000);
    var after := pruned[k := WindowOf(pruned, k) + [now]];
    forall q
      ensures WindowOf(after, q) == Recent(attempts + [Attempt(k, now)], q, now - 10_000_000_000)
    {
      PruneMatches(windows, attempts, last, now, q);
      RecentPush(attempts, Attempt(k, now), q, now - 10_000_000_000);
    }
    assert WindowOf(after, k) == WindowOf(pruned, k) + [now];
    assert forall q :: q in after ==> after[q] != [];
  }

  lemma KeptAreHot(suppressed: map<Fingerprint, Time>, storms: seq<StormEntry>, last: Time, f: Fingerprint, now: Time)
    requires last <= now && SuppressionsMatch(suppressed, storms, last)
    ensures KeptSuppressions(suppressed, now - 120_000_000_000)[f := now].Keys
      == Hot(storms + [StormEntry(f, now)], now - 120_000_000_000)
  {
    var after, cutoff := storms + [StormEntry(f, now)], now - 120_000_000_000;
    var kept := KeptSuppressions(suppressed, cutoff)[f := now];
    assert StormEntry(f, now) in after;
    assert forall e :: e in storms ==> e in after;
    forall g | g in kept.Keys
      ensures g in Hot(after, cutoff)
    {
      assert StormEntry(g, kept[g]) in after;
    }
  }

  lemma KeptAreLatest(suppressed: map<Fingerprint, Time>, storms: seq<StormEntry>, last: Time, f: Fingerprint,
                      now: Time)
    requires last <= now && SuppressionsMatch(suppressed, storms, last)
    ensures SuppressionsMatch(KeptSuppressions(suppressed, now - 120_000_000_000)[f := now],
                              storms + [StormEntry(f, now)], now)
  {
    var after := storms + [StormEntry(f, now)];
    assert after[|storms|] == StormEntry(f, now);
    assert forall e :: e in after <==> e in storms || e == StormEntry(f, now);
  }

  lemma KeptGrowsByOne(suppressed: map<Fingerprint, Time>, f: Fingerprint, now: Time)
    ensures |KeptSuppressions(suppressed, now - 120_000_000_000)[f := now]| <= |suppressed| + 1
  {
    var kept := KeptSuppressions(suppressed, now - 120_000_000_000)[f := now];
    assert kept.Keys <= suppressed.Keys + {f};
    SubsetSize(kept.Keys, suppressed.Keys + {f});
  }

  /** What is remembered after a suppression is exactly the hot messages, and at most one more than before. */
  lemma SuppressionsAfterStorm(suppressed: map<Fingerprint, Time>, storms: seq<StormEntry>, last: Time, f: Fingerprint,
                               now: Time)
    requires last <= now && SuppressionsMatch(suppressed, storms, last)
    ensures var kept := KeptSuppressions(suppressed, now - 120_000_000_000)[f := now];
      && SuppressionsMatch(kept, storms + [StormEntry(f, now)], now)
      && kept.Keys == Hot(storms + [StormEntry(f, now)], now - 120_000_000_000)
      && |kept| <= |suppressed| + 1
  {
    KeptAreLatest(suppressed, storms, last, f, now);
    KeptAreHot(suppressed, storms, last, f, now);
    KeptGrowsByOne(suppressed, f, now);
  }

  lemma AttemptsStaySorted(attempts: seq<Attempt>, last: Time, k: DeliveryKey, now: Time)
    requires SortedAttempts(attempts, last) && last <= now
    ensures SortedAttempts(attempts + [Attempt(k, now)], now)
  {
  }

  lemma SuppressionsLater(suppressed: map<Fingerprint, Time>, storms: seq<StormEntry>, last: Time, now: Time)
    requires SuppressionsMatch(suppressed, storms, last) && last <= now
    ensures SuppressionsMatch(suppressed, storms, now)
  {
  }

  lemma StormRefines(s: GuardState, h: History, last: Time, k: DeliveryKey, count: nat, now: Time, saved: bool)
    requires s.pause.None? && h.pause.None? && s.file == h.file && last <= now
    requires SuppressionsMatch(s.suppressed, h.storms, last) && |s.suppressed| < 3
    ensures var (s1, a), (h1, b) := Storm(s, k, count, now, saved), SpecStorm(h, k, count, now, saved);
      && a == b && s1.pause == h1.pause && s1.file == h1.file
      && s1.windows == s.windows && h1.attempts == h.attempts
      && SuppressionsMatch(s1.suppressed, h1.storms, now)
      && (s1.pause.None? ==> |s1.suppressed| < 3)
  {
    SuppressionsAfterStorm(s.suppressed, h.storms, last, k.fingerprint, now);
    var kept := KeptSuppressions(s.suppressed, now - 120_000_000_000)[k.fingerprint := now];
    assert |kept| == |kept.Keys|;
  }

  /** One step: a clock that does not run backwards makes both guards answer the same. */
  lemma CheckRefines(s: GuardState, h: History, last: Time, k: DeliveryKey, now: Time, saved: bool)
    requires Matches(s, h, last) && last <= now
    ensures Matches(Check(s, k, now, saved).0, SpecCheck(h, k, now, saved).0, now)
    ensures Check(s, k, now, saved).1 == SpecCheck(h, k, now, saved).1
  {
    if s.pause.None? {
      WindowsAfterAttempt(s.windows, h.attempts, last, k, now);
      var pruned := Pruned(s.windows, now - 10_000_000_000);
      var s1 := s.(windows := pruned[k := WindowOf(pruned, k) + [now]]);
      var h1 := h.(attempts := h.attempts + [Attempt(k, now)]);
      var count := |WindowOf(pruned, k) + [now]|;
      AttemptsStaySorted(h.attempts, last, k, now);
      if count < 5 {
        SuppressionsLater(s.suppressed, h.storms, last, now);
      } else {
        StormRefines(s1, h1, last, k, count, now, saved);
      }
    } else {
      assert SortedAttempts(h.attempts, now);
    }
  }

  // ---- runs ----

  datatype Call =
    | CheckCall(key: DeliveryKey, now: Time, saved: bool)
    | ResetCall(resetSaved: bool)
    | ReloadCall

  function Step(s: GuardState, c: Call): GuardState {
    match c
    case CheckCall(k, now, saved) => Check(s, k, now, saved).0
    case ResetCall(saved) => Reset(s, saved).0
    case ReloadCall => Reload(s)
  }

  function SpecStep(h: History, c: Call): History {
    match c
    case CheckCall(k, now, saved) => SpecCheck(h, k, now, saved).0
    case ResetCall(saved) => History([], [], None, if saved then None else h.file)
    case ReloadCall => History([], [], h.file, h.file)
  }

  type Answer = Result<Decision, GuardError>

  // A run of one guard file from a fresh start, with the answers to its checks; the clock never runs
  // backwards.
  datatype Run = Run(states: seq<GuardState>, calls: seq<Call>, answers: seq<Answer>) {
    predicate Sized() {
      |states| == |calls| + 1 == |answers| + 1
    }

    ghost predicate Valid() {
      && Sized()
      && states[0] == GuardState(map[], map[], None, None)
      && (forall i :: 0 <= i < |calls| ==> Moved(i))
      && (forall i, j ::
            0 <= i < j < |calls| && calls[i].CheckCall? && calls[j].CheckCall? ==> calls[i].now <= calls[j].now)
    }

    ghost predicate Moved(i: nat)
      requires Sized() && i < |calls|
    {
      && states[i + 1] == Step(states[i], calls[i])
      && (calls[i].CheckCall? ==> answers[i] == Check(states[i], calls[i].key, calls[i].now, calls[i].saved).1)
    }

    predicate Allowed(i: nat, k: DeliveryKey, from: Time, to: Time)
      requires Sized() && i < |calls|
    {
      calls[i].CheckCall? && calls[i].key == k && from <= calls[i].now <= to && answers[i] == Ok(Allow(k))
    }
  }

  function HistoryAt(calls: seq<Call>, n: nat): History
    requires n <= |calls|
  {
    if n == 0 then History([], [], None, None) else SpecStep(HistoryAt(calls, n - 1), calls[n - 1])
  }

  /** A time not before any check among the first `n` calls and not after any later one. */
  ghost predicate ClockAt(r: Run, n: nat, last: Time)
    requires n <= |r.calls|
  {
    && (forall i :: 0 <= i < n && r.calls[i].CheckCall? ==> r.calls[i].now <= last)
    && (forall i :: n <= i < |r.calls| && r.calls[i].CheckCall? ==> last <= r.calls[i].now)
  }

  lemma EmptyMatches(pause: Option<Pause>, file: Option<Pause>, last: Time)
    ensures Matches(GuardState(map[], map[], pause, file), History([], [], pause, file), last)
  {
  }

  lemma {:induction false} RunMatches(r: Run, n: nat, last: Time) returns (checked: Time)
    requires r.Valid() && n <= |r.calls| && ClockAt(r, n, last)
    ensures checked <= last && Matches(r.states[n], HistoryAt(r.calls, n), checked)
  {
    checked := last;
    if n == 0 {
      EmptyMatches(None, None, last);
    } else {
      var c, h := r.calls[n - 1], HistoryAt(r.calls, n - 1);
      assert r.Moved(n - 1);
      if c.CheckCall? {
        var before := RunMatches(r, n - 1, c.now);
        CheckRefines(r.states[n - 1], h, before, c.key, c.now, c.saved);
        checked := c.now;
      } else {
        var before := RunMatches(r, n - 1, last);
        EmptyMatches(r.states[n].pause, r.states[n].file, last);
      }
    }
  }

  /** The window refinement: in every run the pruned guard gives the same decision and the same
      count as the guard that keeps everything since the last reset. */
  lemma RunRefines(r: Run, n: nat, last: Time) returns (checked: Time)
    requires r.Valid() && n <= |r.calls| && ClockAt(r, n, last)
    ensures checked <= last && Matches(r.states[n], HistoryAt(r.calls, n), checked)
    ensures n < |r.calls| && r.calls[n].CheckCall? ==>
      r.answers[n] == SpecCheck(HistoryAt(r.calls, n), r.calls[n].key, r.calls[n].now, r.calls[n].saved).1
  {
    checked := RunMatches(r, n, last);
    if n < |r.calls| && r.calls[n].CheckCall? {
      assert r.Moved(n);
      CheckRefines(r.states[n], HistoryAt(r.calls, n), checked, r.calls[n].key, r.calls[n].now, r.calls[n].saved);
    }
  }

  ghost predicate SortedWithin(w: seq<Time>, from: Time, to: Time) {
    && (forall i :: 0 <= i < |w| ==> from <= w[i] <= to)
    && (forall i, j :: 0 <= i < j < |w| ==> w[i] <= w[j])
  }

  lemma {:induction false} RecentIsSorted(attempts: seq<Attempt>, k: DeliveryKey, since: Time, from: Time, last: Time)
    requires SortedAttempts(attempts, last) && since <= from
    requires forall i :: 0 <= i < |attempts| ==> attempts[i].at >= from || attempts[i].at < since
    ensures SortedWithin(Recent(attempts, k, since), from, last)
  {
    if attempts == [] {
    } else {
      var a, rest := attempts[0], attempts[1..];
      assert forall i :: 0 <= i < |rest| ==> rest[i] == attempts[i + 1];
      RecentIsSorted(rest, k, since, if a.at >= since then a.at else from, last);
    }
  }

  /** A key's window is not empty, sorted, within the last ten seconds, and holds exactly the
      attempts recorded for the key in that time. */
  ghost predicate ExactWindow(windows: Windows, attempts: seq<Attempt>, k: DeliveryKey, now: Time) {
    && WindowOf(windows, k) == Recent(attempts, k, now - 10_000_000_000)
    && (k in windows ==> windows[k] != [] && SortedWithin(windows[k], now - 10_000_000_000, now))
  }

  lemma MatchingWindowIsExact(s: GuardState, h: History, now: Time, k: DeliveryKey)
    requires Matches(s, h, now) && s.pause.None?
    ensures ExactWindow(s.windows, h.attempts, k, now)
  {
    RecentIsSorted(h.attempts, k, now - 10_000_000_000, now - 10_000_000_000, now);
  }

  lemma MatchesAfterCheck(r: Run, n: nat)
    requires r.Valid() && n < |r.calls| && r.calls[n].CheckCall?
    ensures Matches(r.states[n + 1], HistoryAt(r.calls, n + 1), r.calls[n].now)
  {
    var c := r.calls[n];
    var last := RunMatches(r, n, c.now);
    assert r.Moved(n);
    CheckRefines(r.states[n], HistoryAt(r.calls, n), last, c.key, c.now, c.saved);
  }

  /** After every unpaused check all windows are exact. */
  lemma WindowsAreExact(r: Run, n: nat, k: DeliveryKey)
    requires r.Valid() && n < |r.calls| && r.calls[n].CheckCall? && r.states[n + 1].pause.None?
    ensures ExactWindow(r.states[n + 1].windows, HistoryAt(r.calls, n + 1).attempts, k, r.calls[n].now)
  {
    MatchesAfterCheck(r, n);
    MatchingWindowIsExact(r.states[n + 1], HistoryAt(r.calls, n + 1), r.calls[n].now, k);
  }

  /** One guard lifetime: neither reset nor reload. */
  ghost predicate Uninterrupted(r: Run, i: nat, n: nat)
    requires n <= |r.calls|
  {
    forall c :: i <= c < n ==> r.calls[c].CheckCall?
  }

  function AllowsIn(r: Run, i: nat, n: nat, k: DeliveryKey, from: Time, to: Time): nat
    requires r.Sized() && i <= n <= |r.calls|
  {
    if n == i then 0 else AllowsIn(r, i, n - 1, k, from, to) + (if r.Allowed(n - 1, k, from, to) then 1 else 0)
  }

  lemma RecordedGrows(h: History, k: DeliveryKey, now: Time, saved: bool, q: DeliveryKey, since: Time)
    ensures |Recent(SpecCheck(h, k, now, saved).0.attempts, q, since)| >= |Recent(h.attempts, q, since)|
    ensures SpecCheck(h, k, now, saved).1 == Ok(Allow(k)) && since <= now ==>
      |Recent(SpecCheck(h, k, now, saved).0.attempts, k, since)| == |Recent(h.attempts, k, since)| + 1
    ensures SpecCheck(h, k, now, saved).1 == Ok(Allow(k)) ==>
      |Recent(SpecCheck(h, k, now, saved).0.attempts, k, now - 10_000_000_000)| <= 4
  {
    RecentPush(h.attempts, Attempt(k, now), q, since);
    RecentPush(h.attempts, Attempt(k, now), k, since);
  }

  /** A check never loses an attempt; an allowed one adds its own and finds at most four. */
  lemma CheckRecords(r: Run, n: nat, k: DeliveryKey, from: Time)
    requires r.Valid() && n < |r.calls| && r.calls[n].CheckCall?
    ensures var before, after :=
      |Recent(HistoryAt(r.calls, n).attempts, k, from)|, |Recent(HistoryAt(r.calls, n + 1).attempts, k, from)|;
      && before <= after
      && (r.Allowed(n, k, from, from + 10_000_000_000) ==> before < after <= 4)
  {
    var c, h := r.calls[n], HistoryAt(r.calls, n);
    var _ := RunRefines(r, n, c.now);
    RecordedGrows(h, c.key, c.now, c.saved, k, from);
    if r.Allowed(n, k, from, from + 10_000_000_000) {
      RecentShrinks(HistoryAt(r.calls, n + 1).attempts, k, c.now - 10_000_000_000, from);
    }
  }

  /** Check `c` never lowers the count, and if it is allowed it raises it to at most four. */
  ghost predicate Raises(r: Run, c: nat, k: DeliveryKey, from: Time, to: Time, recent: nat -> nat)
    requires r.Sized() && c < |r.calls|
  {
    recent(c) <= recent(c + 1) && (r.Allowed(c, k, from, to) ==> recent(c) < recent(c + 1) <= 4)
  }

  lemma {:induction false} AllowsAreCounted(r: Run, i: nat, n: nat, k: DeliveryKey, from: Time, to: Time,
                                            recent: nat -> nat)
    requires r.Sized() && i <= n <= |r.calls|
    requires forall c :: i <= c < n ==> Raises(r, c, k, from, to, recent)
    ensures AllowsIn(r, i, n, k, from, to) <= 4 && AllowsIn(r, i, n, k, from, to) <= recent(n)
  {
    if n == i {
    } else {
      AllowsAreCounted(r, i, n - 1, k, from, to, recent);
      assert Raises(r, n - 1, k, from, to, recent);
    }
  }

  /** The attempts for the key, not older than `from`, that were recorded before call `c`. */
  function RecentAt(calls: seq<Call>, c: nat, k: DeliveryKey, from: Time): nat {
    if c <= |calls| then |Recent(HistoryAt(calls, c).attempts, k, from)| else 0
  }

  /** Rate bound: within one guard lifetime any closed interval of ten seconds holds at most four
      allowed deliveries of one message to one target, whatever other deliveries come in between. */
  lemma AtMostFourInTenSeconds(r: Run, i: nat, n: nat, k: DeliveryKey, from: Time)
    requires r.Valid() && i <= n <= |r.calls| && Uninterrupted(r, i, n)
    ensures AllowsIn(r, i, n, k, from, from + 10_000_000_000) <= 4
  {
    var recent := (c: nat) => RecentAt(r.calls, c, k, from);
    var to := from + 10_000_000_000;
    forall c | i <= c < n
      ensures Raises(r, c, k, from, to, recent)
    {
      CheckRecords(r, c, k, from);
    }
    AllowsAreCounted(r, i, n, k, from, to, recent);
  }

  /** Where a guard lifetime begins: at the start, or right after a reset or a reload. */
  predicate StartsLifetime(calls: seq<Call>, i: nat) {
    i == 0 || (i <= |calls| && !calls[i - 1].CheckCall?)
  }

  /** Call `c` is an unpaused check of the key, not earlier than `since`. */
  predicate Tried(r: Run, c: nat, k: DeliveryKey, since: Time)
    requires r.Sized() && c < |r.calls|
  {
    r.calls[c].CheckCall? && r.calls[c].key == k && since <= r.calls[c].now && r.states[c].pause.None?
  }

  function TriesIn(r: Run, i: nat, n: nat, k: DeliveryKey, since: Time): nat
    requires r.Sized() && i <= n <= |r.calls|
  {
    if n == i then 0 else TriesIn(r, i, n - 1, k, since) + (if Tried(r, n - 1, k, since) then 1 else 0)
  }

  lemma NextIsRecorded(r: Run, n: nat, k: DeliveryKey, since: Time)
    requires r.Valid() && n < |r.calls| && r.calls[n].CheckCall?
    ensures |Recent(HistoryAt(r.calls, n + 1).attempts, k, since)|
      == |Recent(HistoryAt(r.calls, n).attempts, k, since)| + (if Tried(r, n, k, since) then 1 else 0)
  {
    var c, h := r.calls[n], HistoryAt(r.calls, n);
    var _ := RunMatches(r, n, c.now);
    RecentPush(h.attempts, Attempt(c.key, c.now), k, since);
  }

  /** Call `c` raises the count by one if it tries the key, and keeps it otherwise. */
  ghost predicate CountsTry(r: Run, c: nat, k: DeliveryKey, since: Time, recent: nat -> nat)
    requires r.Sized() && c < |r.calls|
  {
    recent(c + 1) == recent(c) + (if Tried(r, c, k, since) then 1 else 0)
  }

  lemma {:induction false} TriesAreCounted(r: Run, i: nat, n: nat, k: DeliveryKey, since: Time, recent: nat -> nat)
    requires r.Sized() && i <= n <= |r.calls| && recent(i) == 0
    requires forall c :: i <= c < n ==> CountsTry(r, c, k, since, recent)
    ensures TriesIn(r, i, n, k, since) == recent(n)
  {
    if n == i {
    } else {
      TriesAreCounted(r, i, n - 1, k, since, recent);
      assert CountsTry(r, n - 1, k, since, recent);
    }
  }

  lemma TriesAreRecorded(r: Run, i: nat, n: nat, k: DeliveryKey, since: Time)
    requires r.Valid() && i <= n <= |r.calls| && StartsLifetime(r.calls, i) && Uninterrupted(r, i, n)
    ensures TriesIn(r, i, n, k, since) == |Recent(HistoryAt(r.calls, n).attempts, k, since)|
  {
    var recent := (c: nat) => RecentAt(r.calls, c, k, since);
    NothingAtStart(r.calls, i);
    forall c | i <= c < n
      ensures CountsTry(r, c, k, since, recent)
    {
      NextIsRecorded(r, c, k, since);
    }
    TriesAreCounted(r, i, n, k, since, recent);
  }

  lemma NothingAtStart(calls: seq<Call>, i: nat)
    requires i <= |calls| && StartsLifetime(calls, i)
    ensures HistoryAt(calls, i).attempts == []
  {
  }

  predicate IsStormAnswer(answer: Answer, k: DeliveryKey, count: nat) {
    && answer.Ok? && answer.value.Suppress? && answer.value.reason == DuplicateStorm
    && answer.value.key == k && answer.value.windowSeconds == 10 && answer.value.count == count
  }

  /** The answer to a check before which the key was tried `tries` times. */
  predicate FollowsRule(answer: Answer, k: DeliveryKey, tries: nat) {
    if tries <= 3 then answer == Ok(Allow(k)) else answer == Err(SaveFailed) || IsStormAnswer(answer, k, tries + 1)
  }

  lemma SpecAnswer(h: History, k: DeliveryKey, now: Time, saved: bool)
    requires h.pause.None?
    ensures FollowsRule(SpecCheck(h, k, now, saved).1, k, |Recent(h.attempts, k, now - 10_000_000_000)|)
  {
    RecentPush(h.attempts, Attempt(k, now), k, now - 10_000_000_000);
  }

  /** The exact rule: an unpaused check is allowed if and only if at most three unpaused checks of the
      same key came within the ten seconds before it in the same lifetime. From the fifth on it is
      suppressed with the number of tries, unless the pause it starts could not be saved. */
  lemma AllowedIffFewTries(r: Run, i: nat, n: nat)
    requires r.Valid() && i <= n < |r.calls| && StartsLifetime(r.calls, i) && Uninterrupted(r, i, n + 1)
    requires r.calls[n].CheckCall? && r.states[n].pause.None?
    ensures var k, since := r.calls[n].key, r.calls[n].now - 10_000_000_000;
      FollowsRule(r.answers[n], k, TriesIn(r, i, n, k, since))
  {
    var c := r.calls[n];
    var _ := RunRefines(r, n, c.now);
    TriesAreRecorded(r, i, n, c.key, c.now - 10_000_000_000);
    SpecAnswer(HistoryAt(r.calls, n), c.key, c.now, c.saved);
  }

  /** The storm latch closes on exactly the check that is suppressed and makes three messages hot;
      so the recorded count is always three, and before that fewer than three are remembered. */
  ghost predicate StormLatch(before: GuardState, h: History, k: DeliveryKey, now: Time, after: GuardState) {
    && |before.suppressed| <= 2
    && (after.pause.Some? ==> after.pause.value == Pause(now, 3, 120))
    && (after.pause.Some? <==>
          |Recent(h.attempts + [Attempt(k, now)], k, now - 10_000_000_000)| >= 5
          && |Hot(h.storms + [StormEntry(k.fingerprint, now)], now - 120_000_000_000)| == 3)
  }

  lemma StormMeansThree(s: GuardState, h: History, last: Time, k: DeliveryKey, now: Time, saved: bool)
    requires Matches(s, h, last) && last <= now && s.pause.None?
    ensures StormLatch(s, h, k, now, Check(s, k, now, saved).0)
  {
    WindowsAfterAttempt(s.windows, h.attempts, last, k, now);
    SuppressionsAfterStorm(s.suppressed, h.storms, last, k.fingerprint, now);
    var kept := KeptSuppressions(s.suppressed, now - 120_000_000_000)[k.fingerprint := now];
    assert |kept| == |kept.Keys|;
  }

  /** In every run the latch closes so. */
  lemma PauseStartsAtThreeStorms(r: Run, n: nat)
    requires r.Valid() && n < |r.calls| && r.calls[n].CheckCall? && r.states[n].pause.None?
    ensures StormLatch(r.states[n], HistoryAt(r.calls, n), r.calls[n].key, r.calls[n].now, r.states[n + 1])
  {
    var c := r.calls[n];
    var last := RunMatches(r, n, c.now);
    assert r.Moved(n);
    StormMeansThree(r.states[n], HistoryAt(r.calls, n), last, c.key, c.now, c.saved);
  }

  /** Once paused, every check is refused until a reset; a reload ends the pause only if the pause
      never reached the file. */
  lemma {:induction false} PauseLatches(r: Run, i: nat, j: nat)
    requires r.Valid() && i <= j <= |r.calls|
    requires r.states[i].pause.Some?
    requires forall c :: i <= c < j ==> !r.calls[c].ResetCall?
    requires (forall c :: i <= c < j ==> !r.calls[c].ReloadCall?) || r.states[i].file == r.states[i].pause
    ensures r.states[j].pause == r.states[i].pause && r.states[j].file == r.states[i].file
    ensures j < |r.calls| && r.calls[j].CheckCall? ==>
      r.answers[j] == Ok(Suppress(GlobalPaused, r.calls[j].key, 0, 0, true, None))
  {
    if i == j {
    } else {
      PauseLatches(r, i, j - 1);
      assert r.Moved(j - 1);
    }
    if j < |r.calls| {
      assert r.Moved(j);
    }
  }

  /** A pause that was announced to the caller is in the file, so it survives every reload. */
  lemma AnnouncedPauseIsSaved(r: Run, n: nat, j: nat)
    requires r.Valid() && n < j <= |r.calls| && r.calls[n].CheckCall?
    requires r.answers[n].Ok? && r.answers[n].value.Suppress? && r.answers[n].value.pauseStarted.Some?
    requires forall c :: n < c < j ==> !r.calls[c].ResetCall?
    ensures r.states[j].pause == Some(Pause(r.calls[n].now, 3, 120)) && r.states[j].file == r.states[j].pause
    ensures j < |r.calls| && r.calls[j].CheckCall? ==>
      r.answers[j] == Ok(Suppress(GlobalPaused, r.calls[j].key, 0, 0, true, None))
  {
    assert r.Moved(n);
    PauseStartsAtThreeStorms(r, n);
    PauseLatches(r, n + 1, j);
  }
}
