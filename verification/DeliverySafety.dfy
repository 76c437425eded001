/**
 The guard in front of every delivery: it suppresses a message that is sent to one target too
 often, and pauses all deliveries when several messages are suppressed within a short time.
 */
module DeliverySafety {
  import opened Basics
  import opened Text

  const SECOND: Time := 1_000_000_000 // timestamps count nanoseconds
  const DUPLICATE_WINDOW := 10 * SECOND
  const DUPLICATE_THRESHOLD: nat := 5
  const GLOBAL_PAUSE_WINDOW := 120 * SECOND
  const GLOBAL_PAUSE_THRESHOLD: nat := 3

  // The digest of what makes two signals the same message.
  type Fingerprint = string

  // The digest of provider, target and fingerprint, represented by the three; no target is "".
  datatype DeliveryKey = DeliveryKey(providerId: string, targetId: string, fingerprint: Fingerprint)

  datatype Pause = Pause(pausedAt: Time, fingerprintCount: nat, windowSeconds: nat)

  datatype PauseStarted = PauseStarted(fingerprintCount: nat, windowSeconds: nat)

  datatype Reason = DuplicateStorm | GlobalPaused

  datatype Decision =
    | Allow(key: DeliveryKey)
    | Suppress(reason: Reason, key: DeliveryKey, windowSeconds: nat, count: nat,
               globalPaused: bool, pauseStarted: Option<PauseStarted>)

  datatype GuardError = UntrimmedTarget | SaveFailed

  type Windows = map<DeliveryKey, seq<Time>>

  // The guard's memory and the pause kept in its state file.
  datatype GuardState = GuardState(
    windows: Windows, suppressed: map<Fingerprint, Time>, pause: Option<Pause>, file: Option<Pause>)

  // ---- what each operation does ----

  /** Popping old timestamps off the front. */
  function DropOld(w: seq<Time>, cutoff: Time): seq<Time> {
    if w != [] && w[0] < cutoff then DropOld(w[1..], cutoff) else w
  }

  function Pruned(windows: Windows, cutoff: Time): Windows {
    map k | k in windows && DropOld(windows[k], cutoff) != [] :: DropOld(windows[k], cutoff)
  }

  function WindowOf(windows: Windows, k: DeliveryKey): seq<Time> {
    if k in windows then windows[k] else []
  }

  function KeptSuppressions(suppressed: map<Fingerprint, Time>, cutoff: Time): map<Fingerprint, Time> {
    map f | f in suppressed && suppressed[f] >= cutoff :: suppressed[f]
  }

  function Paused(k: DeliveryKey): Decision {
    Suppress(GlobalPaused, k, 0, 0, true, None)
  }

  function Check(s: GuardState, k: DeliveryKey, now: Time, saved: bool): (GuardState, Result<Decision, GuardError>) {
    if s.pause.Some? then (s, Ok(Paused(k)))
    else
      var pruned := Pruned(s.windows, now - DUPLICATE_WINDOW);
      var window := WindowOf(pruned, k) + [now];
      var s1 := s.(windows := pruned[k := window]);
      if |window| < DUPLICATE_THRESHOLD then (s1, Ok(Allow(k)))
      else Storm(s1, k, |window|, now, saved)
  }

  function Storm(s: GuardState, k: DeliveryKey, count: nat, now: Time, saved: bool)
    : (GuardState, Result<Decision, GuardError>)
  {
    var suppressed := KeptSuppressions(s.suppressed, now - GLOBAL_PAUSE_WINDOW)[k.fingerprint := now];
    var s1 := s.(suppressed := suppressed);
    if |suppressed| < GLOBAL_PAUSE_THRESHOLD then (s1, Ok(Suppress(DuplicateStorm, k, 10, count, false, None)))
    else
      var pause := Some(Pause(now, |suppressed|, 120));
      (s1.(pause := pause, file := if saved then pause else s.file),
       if saved then Ok(Suppress(DuplicateStorm, k, 10, count, true, Some(PauseStarted(|suppressed|, 120))))
       else Err(SaveFailed))
  }

  function Reset(s: GuardState, saved: bool): (GuardState, bool) {
    (GuardState(map[], map[], None, if saved then None else s.file), saved)
  }

  function Reload(s: GuardState): GuardState {
    GuardState(map[], map[], s.file, s.file)
  }

  // ---- the guard object ----

  class StateFile {
    var pause: Option<Pause>
    constructor ()
      ensures pause == None
    {
      pause := None;
    }
  }

  class Guard {
    const file: StateFile
    var deliveryWindows: Windows
    var suppressedMessages: map<Fingerprint, Time>
    var globalPause: Option<Pause>

    function State(): GuardState
      reads this, file
    {
      GuardState(deliveryWindows, suppressedMessages, globalPause, file.pause)
    }

    constructor Load(file: StateFile)
      ensures this.file == file
      ensures State() == GuardState(map[], map[], file.pause, file.pause)
    {
      this.file := file;
      deliveryWindows, suppressedMessages, globalPause := map[], map[], file.pause;
    }

    method SaveLocked(saved: bool) returns (ok: bool)
      modifies file
      ensures file.pause == if saved then globalPause else old(file.pause)
      ensures ok == saved
    {
      if saved {
        file.pause := globalPause;
      }
      ok := saved;
    }

    method PruneDeliveryWindows(cutoff: Time)
      modifies this`deliveryWindows
      ensures deliveryWindows == Pruned(old(deliveryWindows), cutoff)
    {
      var todo := deliveryWindows.Keys;
      while todo != {}
        invariant todo <= deliveryWindows.Keys <= old(deliveryWindows).Keys
        invariant forall k :: k in todo ==> deliveryWindows[k] == old(deliveryWindows)[k]
        invariant forall k :: k in old(deliveryWindows) && k !in todo ==>
          WindowOf(deliveryWindows, k) == DropOld(old(deliveryWindows)[k], cutoff)
          && (k in deliveryWindows <==> DropOld(old(deliveryWindows)[k], cutoff) != [])
        decreases |todo|
      {
        var k :| k in todo;
        var window := deliveryWindows[k];
        while window != [] && window[0] < cutoff
          invariant DropOld(window, cutoff) == DropOld(deliveryWindows[k], cutoff)
        {
          window := window[1..];
        }
        if window == [] {
          deliveryWindows := map x | x in deliveryWindows && x != k :: deliveryWindows[x];
        } else {
          deliveryWindows := deliveryWindows[k := window];
        }
        todo := todo - {k};
      }
    }

    method RecordSuppressedMessage(fingerprint: Fingerprint, now: Time) returns (started: Option<PauseStarted>)
      modifies this`suppressedMessages, this`globalPause
      ensures suppressedMessages
        == KeptSuppressions(old(suppressedMessages), now - GLOBAL_PAUSE_WINDOW)[fingerprint := now]
      ensures var n := |suppressedMessages|;
        if old(globalPause).Some? || n < GLOBAL_PAUSE_THRESHOLD then globalPause == old(globalPause) && started.None?
        else globalPause == Some(Pause(now, n, 120)) && started == Some(PauseStarted(n, 120))
    {
      suppressedMessages := KeptSuppressions(suppressedMessages, now - GLOBAL_PAUSE_WINDOW);
      suppressedMessages := suppressedMessages[fingerprint := now];
      started := None;
      if globalPause.None? && |suppressedMessages| >= GLOBAL_PAUSE_THRESHOLD {
        globalPause := Some(Pause(now, |suppressedMessages|, 120));
        started := Some(PauseStarted(|suppressedMessages|, 120));
      }
    }

    method CheckAt(k: DeliveryKey, now: Time, saved: bool) returns (r: Result<Decision, GuardError>)
      modifies this, file
      ensures (State(), r) == Check(old(State()), k, now, saved)
    {
      if globalPause.Some? {
        return Ok(Paused(k));
      }
      PruneDeliveryWindows(now - DUPLICATE_WINDOW);
      var window := WindowOf(deliveryWindows, k);
      while window != [] && window[0] < now - DUPLICATE_WINDOW
        invariant DropOld(window, now - DUPLICATE_WINDOW)
          == DropOld(WindowOf(deliveryWindows, k), now - DUPLICATE_WINDOW)
      {
        window := window[1..];
      }
      PrunedIsClean(old(deliveryWindows), now - DUPLICATE_WINDOW, k);
      window := window + [now];
      deliveryWindows := deliveryWindows[k := window];
      var count := |window|;
      if count < DUPLICATE_THRESHOLD {
        return Ok(Allow(k));
      }
      var started := RecordSuppressedMessage(k.fingerprint, now);
      if started.Some? {
        var ok := SaveLocked(saved);
        if !ok {
          return Err(SaveFailed);
        }
      }
      r := Ok(Suppress(DuplicateStorm, k, 10, count, globalPause.Some?, started));
    }

    method CheckForProviderTarget(providerId: string, target: string, fingerprint: Fingerprint, now: Time, saved: bool)
      returns (r: Result<Decision, GuardError>)
      modifies this, file
      ensures !PresentAndTrimmed(target) ==> State() == old(State()) && r == Err(UntrimmedTarget)
      ensures PresentAndTrimmed(target) ==>
        (State(), r) == Check(old(State()), DeliveryKey(providerId, target, fingerprint), now, saved)
    {
      if !PresentAndTrimmed(target) {
        return Err(UntrimmedTarget);
      }
      r := CheckAt(DeliveryKey(providerId, target, fingerprint), now, saved);
    }

    method ResetAll(saved: bool) returns (ok: bool)
      modifies this, file
      ensures (State(), ok) == Reset(old(State()), saved)
    {
      deliveryWindows, suppressedMessages, globalPause := map[], map[], None;
      ok := SaveLocked(saved);
    }
  }

  lemma DropOldIsClean(w: seq<Time>, cutoff: Time)
    ensures var r := DropOld(w, cutoff); r == [] || r[0] >= cutoff
  {
  }

  /** After pruning nothing old is left at any front. */
  lemma PrunedIsClean(windows: Windows, cutoff: Time, k: DeliveryKey)
    ensures var w := WindowOf(Pruned(windows, cutoff), k); w == [] || w[0] >= cutoff
  {
    if k in windows {
      DropOldIsClean(windows[k], cutoff);
    }
  }
}
