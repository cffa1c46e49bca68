/** A network that reconnects with growing delays; handlers do not call back in. */
module Reconnect {
  import opened Outcomes

  datatype Phase = Connected | Connecting | Backoff | Closed

  datatype ReadyState = NotYetOpen | IsOpen | IsClosing | IsClosed

  /** What the factory gives: an exception, or a candidate in some state. */
  datatype Made = Throws | Candidate(state: ReadyState)

  datatype Settings = Settings(baseMs: real, factor: real, maxMs: real, maxRetries: Option<nat>)

  function Power(x: real, k: nat): real { if k == 0 then 1.0 else Power(x, k - 1) * x }

  function Least(a: real, b: real): real { if a < b then a else b }

  function NextDelay(s: Settings, delayMs: real): real { Least(delayMs * s.factor, s.maxMs) }

  /** The delay after `k` failures in a row, as the machine keeps it. */
  function Delay(s: Settings, k: nat): real {
    if k == 0 then s.baseMs else NextDelay(s, Delay(s, k - 1))
  }

  function Exponential(s: Settings, k: nat): real { s.baseMs * Power(s.factor, k) }

  function CappedExponential(s: Settings, k: nat): real { Least(Exponential(s, k), s.maxMs) }

  /** Delays do not shrink. */
  predicate Growing(s: Settings) { s.baseMs >= 0.0 && s.factor >= 1.0 && s.maxMs >= 0.0 }

  lemma {:induction false} PowerGrows(s: Settings, k: nat)
    requires Growing(s)
    ensures Power(s.factor, k) >= 1.0 && s.baseMs * Power(s.factor, k) >= s.baseMs
  {
    if k > 0 {
      PowerGrows(s, k - 1);
      var p := Power(s.factor, k - 1);
      Raises(p, s.factor);
      Raises(s.factor * p, 1.0);
      Scales(s.baseMs, 1.0, Power(s.factor, k));
    }
  }

  lemma {:induction false} Raises(x: real, f: real)
    requires x >= 1.0 && f >= 1.0
    ensures x * f >= x && x * f >= 1.0
  {
    assert x * f - x == x * (f - 1.0);
  }

  lemma {:induction false} Scales(x: real, a: real, b: real)
    requires x >= 0.0 && a <= b
    ensures x * a <= x * b
  {
    assert x * b - x * a == x * (b - a);
  }

  /** Capping at every step or once at the end is the same, when the factor is at least 1. */
  lemma {:induction false} CapOnce(x: real, f: real, cap: real)
    requires f >= 1.0 && x >= 0.0 && cap >= 0.0
    ensures Least(Least(x, cap) * f, cap) == Least(x * f, cap)
  {
    Scales(x, 1.0, f);
    Scales(cap, 1.0, f);
  }

  lemma {:induction false} NextPower(s: Settings, k: nat) returns (x: real, y: real)
    requires Growing(s)
    ensures x == Exponential(s, k) >= 0.0 && y == Exponential(s, k + 1) == x * s.factor
    ensures k == 0 ==> x == s.baseMs
  {
    x, y := Exponential(s, k), Exponential(s, k + 1);
    PowerGrows(s, k);
    assert Power(s.factor, k + 1) == Power(s.factor, k) * s.factor;
  }

  lemma {:induction false} NextOfCapped(s: Settings, d: real, x: real, y: real)
    requires Growing(s) && x >= 0.0 && y == x * s.factor
    requires d == Least(x, s.maxMs) || d == x
    ensures NextDelay(s, d) == Least(y, s.maxMs)
  {
    if d != x {
      CapOnce(x, s.factor, s.maxMs);
    }
  }

  /** From the first failure on, the delay is the capped exponential. */
  lemma {:induction false} DelayAfterFailure(s: Settings, k: nat)
    requires Growing(s) && k > 0
    ensures Delay(s, k) == CappedExponential(s, k)
  {
    var x, y := NextPower(s, k - 1);
    if k > 1 {
      DelayAfterFailure(s, k - 1);
    }
    NextOfCapped(s, Delay(s, k - 1), x, y);
  }

  /** After k failures the delay is the capped exponential; for k = 0 only if the base is not above the cap. */
  lemma {:induction false} DelayIsCappedExponential(s: Settings, k: nat)
    requires Growing(s)
    ensures Delay(s, k) == CappedExponential(s, k) <==> k > 0 || s.baseMs <= s.maxMs
  {
    if k > 0 {
      DelayAfterFailure(s, k);
    } else {
      var x, y := NextPower(s, 0);
    }
  }

  class ReconnectingNetwork {
    const settings: Settings
    var phase: Phase
    var retryCount: nat
    var delayMs: real
    var generation: nat
    var reconnectTimer: bool

    /** Live timers, and, since the last successful open: factory calls; and successful reconnects in all. */
    ghost var live: nat
    ghost var attempts: nat
    ghost var opens: nat

    ghost predicate Valid()
      reads this
    {
      && live == (if phase.Backoff? then 1 else 0) && (phase.Backoff? ==> reconnectTimer)
      && delayMs == Delay(settings, retryCount)
      && (!phase.Closed? ==> attempts == retryCount + if phase.Connecting? then 1 else 0)
      && (settings.maxRetries.Some? ==> attempts <= settings.maxRetries.value)
      && (phase.Connected? ==> retryCount == 0)
      && generation == opens
    }

    constructor (settings: Settings)
      ensures Valid() && phase.Connected? && opens == 0 && this.settings == settings
    {
      this.settings := settings;
      phase, retryCount, delayMs, generation, reconnectTimer := Connected, 0, settings.baseMs, 0, false;
      live, attempts, opens := 0, 0, 0;
    }

    /** Waits for the current delay before the next attempt. */
    method BeginBackoff()
      requires Valid() && phase.Connected?
      modifies this
      ensures Valid() && phase.Backoff? && retryCount == 0 && delayMs == settings.baseMs && opens == old(opens)
    {
      phase := Backoff;
      reconnectTimer := true;
      live := live + 1;
    }

    /** An attempt failed: the delay grows, and the next attempt is scheduled. */
    method FailAttempt()
      requires !phase.Closed? && live == 0 && attempts == retryCount + 1 && delayMs == Delay(settings, retryCount)
      requires settings.maxRetries.Some? ==> attempts <= settings.maxRetries.value
      requires generation == opens
      modifies this
      ensures Valid() && phase.Backoff? && retryCount == old(retryCount) + 1 && attempts == old(attempts) && opens == old(opens)
    {
      retryCount := retryCount + 1;
      delayMs := NextDelay(settings, delayMs);
      phase := Backoff;
      reconnectTimer := true;
      live := live + 1;
    }

    /** The candidate opened: only now are delay and budget reset. */
    method SettleReconnected()
      requires Valid() && phase.Connecting?
      modifies this
      ensures Valid() && phase.Connected? && opens == old(opens) + 1 && retryCount == 0
    {
      phase := Connected;
      generation := generation + 1;
      retryCount := 0;
      delayMs := settings.baseMs;
      attempts, opens := 0, opens + 1;
    }

    method OnInnerDeath()
      requires Valid()
      modifies this
      ensures Valid() && opens == old(opens)
      ensures old(phase).Closed? || old(phase).Backoff? ==> phase == old(phase) && retryCount == old(retryCount)
      ensures old(phase).Connected? ==> phase.Backoff? && retryCount == 0
      ensures old(phase).Connecting? ==> phase.Backoff? && retryCount == old(retryCount) + 1
    {
      if phase.Connected? {
        BeginBackoff();
      } else if phase.Connecting? {
        FailAttempt();
      }
    }

    /** The backoff timer fires: gives up when the retries are used up, else asks the factory for a candidate. */
    method AttemptReconnect(made: Made)
      requires Valid() && live > 0
      modifies this
      ensures Valid() && old(phase).Backoff?
      ensures settings.maxRetries.Some? && old(retryCount) >= settings.maxRetries.value ==>
                phase.Closed? && attempts == old(attempts) && opens == old(opens)
      ensures !(settings.maxRetries.Some? && old(retryCount) >= settings.maxRetries.value) ==>
                match made
                case Throws => phase.Backoff? && retryCount == old(retryCount) + 1 && opens == old(opens)
                case Candidate(IsOpen) => phase.Connected? && opens == old(opens) + 1
                case Candidate(NotYetOpen) => phase.Connecting? && retryCount == old(retryCount) && opens == old(opens)
                case Candidate(_) => phase.Backoff? && retryCount == old(retryCount) + 1 && opens == old(opens)
    {
      live := live - 1;
      if settings.maxRetries.Some? && retryCount >= settings.maxRetries.value {
        phase := Closed;
        return;
      }
      attempts := attempts + 1;
      if made.Throws? {
        FailAttempt();
        return;
      }
      phase := Connecting;
      if made.state.IsOpen? {
        SettleReconnected();
      } else if made.state.IsClosing? || made.state.IsClosed? {
        OnInnerDeath();
      }
    }

    /** The open event of the candidate. */
    method CandidateOpens()
      requires Valid()
      modifies this
      ensures Valid()
      ensures old(phase).Connecting? ==> phase.Connected? && opens == old(opens) + 1
      ensures !old(phase).Connecting? ==> phase == old(phase) && opens == old(opens) && retryCount == old(retryCount)
    {
      if phase.Connecting? {
        SettleReconnected();
      }
    }

    /** The watchdog finds out what was not notified. */
    method Watch(state: ReadyState, idleTooLong: bool)
      requires Valid()
      modifies this
      ensures Valid()
      ensures old(phase).Closed? || old(phase).Backoff? ==> phase == old(phase) && opens == old(opens)
      ensures old(phase).Connected? ==> phase == if state.IsClosing? || state.IsClosed? || idleTooLong then Backoff else Connected
      ensures old(phase).Connecting? ==>
                phase == if state.IsOpen? then Connected else if state.NotYetOpen? then Connecting else Backoff
      ensures opens == old(opens) + if old(phase).Connecting? && state.IsOpen? then 1 else 0
      ensures retryCount == if phase.Connected? then 0 else old(retryCount) + if old(phase).Connecting? && phase.Backoff? then 1 else 0
    {
      if phase.Connected? {
        if state.IsClosing? || state.IsClosed? || idleTooLong {
          BeginBackoff();
        }
      } else if phase.Connecting? {
        if state.IsOpen? {
          SettleReconnected();
        } else if state.IsClosing? || state.IsClosed? {
          OnInnerDeath();
        }
      }
    }

    method Close()
      requires Valid()
      modifies this
      ensures Valid() && phase.Closed? && live == 0 && opens == old(opens)
    {
      if phase.Closed? {
        return;
      }
      phase := Closed;
      if reconnectTimer {
        live := 0;
      }
    }
  }
}
