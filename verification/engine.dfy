/** The rate limiter engine (`Prop`): throttle!, throttled?, query, reset and
    defaults over a registry and a key-value store. Each public operation is
    specified by a function on the registry and the store; the class Prop
    holds both and changes them in place. */
module PropEngine {
  import opened Common
  import opened Keys
  import opened Config
  import opened Window
  import opened Counter

  /** What throttle! raises: a configuration error, or
      RateLimitExceededError carrying the handle, the key, the threshold,
      the seconds until the next window, and its message. */
  datatype ThrottleError =
    | ConfigurationError(reason: ConfigError)
    | RateLimitExceeded(handle: string, key: Key, threshold: int, retryAfter: int, message: string)

  /** "<handle> threshold of <threshold> exceeded for key '<key>'" */
  function ExceededMessage(handle: string, threshold: Pos, key: Key): string
  {
    handle + " threshold of " + NatToString(threshold) + " exceeded for key '" + Display(key) + "'"
  }

  /** The message reads, in order: the handle, " threshold of ", the
      threshold in decimal (which parses back to it), " exceeded for key ",
      and the key's display between single quotes at the end. */
  lemma ExceededMessageParts(handle: string, threshold: Pos, key: Key)
    ensures var m, t, d := ExceededMessage(handle, threshold, key), NatToString(threshold), Display(key);
      var i := |handle| + |" threshold of "|;
      && |m| >= i + |t| + |d| + 2
      && m[..|handle|] == handle
      && m[|handle|..i] == " threshold of "
      && m[i..i + |t|] == t && ParseNat(t) == threshold
      && m[i + |t|..|m| - |d| - 2] == " exceeded for key "
      && m[|m| - |d| - 2..] == "'" + d + "'"
  {
    var t, d := NatToString(threshold), Display(key);
    var m := ExceededMessage(handle, threshold, key);
    var quoted := "'" + d + "'";
    var head := handle + " threshold of " + t + " exceeded for key ";
    assert m == head + quoted;
    ConcatSlices(handle, " threshold of ", t + " exceeded for key " + quoted);
    ConcatSlices(handle + " threshold of ", t, " exceeded for key " + quoted);
    ConcatSlices(handle + " threshold of " + t, " exceeded for key ", quoted);
    ConcatSlices(head, quoted, "");
    ParseNatToString(threshold);
  }

  /** Slicing a three-part concatenation at the part boundaries gives the parts back. */
  lemma ConcatSlices(a: string, b: string, c: string)
    ensures (a + b + c)[..|a|] == a
    ensures (a + b + c)[|a|..|a| + |b|] == b
    ensures (a + b + c)[|a| + |b|..] == c
  {
  }

  /** The message the tests expect for handle :hello, threshold 5 and no key. */
  lemma ExceededMessageWithoutKey()
    ensures ExceededMessage("hello", 5, Absent) == "hello threshold of 5 exceeded for key ''"
  {
    assert DigitChar(5) == '5';
    assert NatToString(5) == "5";
    assert Display(Absent) == "";
  }


  /** The counter a call addresses: its handle, the current window of the
      effective interval, and its key. */
  function KeyFor(handle: string, key: Key, interval: Pos, now: nat): (ck: CacheKey)
    ensures ck.handle == handle && ck.key == key
    ensures ck.bucket * interval <= now < ck.bucket * interval + interval
  {
    CacheKey(handle, Bucket(now, interval), key)
  }

  /** Two calls with the same interval address the same counter exactly when
      handle, key and window all agree; a different key shape never shares. */
  lemma KeyForInjective(h1: string, k1: Key, t1: nat, h2: string, k2: Key, t2: nat, interval: Pos)
    ensures KeyFor(h1, k1, interval, t1) == KeyFor(h2, k2, interval, t2)
        <==> h1 == h2 && k1 == k2 && Bucket(t1, interval) == Bucket(t2, interval)
  {
  }

  /** throttle!(handle, key, overrides) at time now: the result and the new
      store. A granted call returns the count after adding the increment,
      which never exceeds the threshold; a refused or misconfigured call
      writes nothing; only the addressed counter of the current window can
      change. */
  function ThrottleSpec(reg: Registry, s: Store, handle: string, key: Key, ov: Overrides, now: nat)
    : (r: (Result<int, ThrottleError>, Store))
    ensures Resolve(reg, handle, ov).Failure? ==>
      r.0 == Failure(ConfigurationError(Resolve(reg, handle, ov).error))
    ensures Resolve(reg, handle, ov).Success? ==>
      var lim := Resolve(reg, handle, ov).value;
      var ck := KeyFor(handle, key, lim.interval, now);
      && (r.0.Success? <==> Count(s, ck) + lim.increment <= lim.threshold)
      && (r.0.Success? ==> r.0.value == Count(s, ck) + lim.increment && Count(r.1, ck) == r.0.value)
      && (r.0.Failure? ==>
            && r.0.error.RateLimitExceeded?
            && r.0.error.handle == handle
            && r.0.error.key == key
            && r.0.error.threshold == lim.threshold
            && r.0.error.message == ExceededMessage(handle, lim.threshold, key)
            && 0 < r.0.error.retryAfter <= lim.interval)
    ensures r.0.Failure? ==> r.1 == s
    ensures forall o :: Count(r.1, o) != Count(s, o) ==>
      Resolve(reg, handle, ov).Success? && o == KeyFor(handle, key, Resolve(reg, handle, ov).value.interval, now)
    ensures NonNegative(s) ==> NonNegative(r.1)
  {
    match Resolve(reg, handle, ov)
    case Failure(e) => (Failure(ConfigurationError(e)), s)
    case Success(lim) =>
      var ck := KeyFor(handle, key, lim.interval, now);
      match ThrottleStep(s, ck, lim.threshold, lim.increment)
      case Granted(c, t) => (Success(c), t)
      case Refused =>
        var e := RateLimitExceeded(handle, key, lim.threshold, RetryAfter(now, lim.interval),
                                   ExceededMessage(handle, lim.threshold, key));
        (Failure(e), s)
  }

  /** query(handle, key, overrides) at time now: the count of the addressed
      counter in the current window, 0 when it was never written. */
  function QuerySpec(reg: Registry, s: Store, handle: string, key: Key, ov: Overrides, now: nat)
    : (r: Result<int, ConfigError>)
    ensures r.Failure? <==> Resolve(reg, handle, ov).Failure?
    ensures r.Success? ==> r.value == Count(s, KeyFor(handle, key, Resolve(reg, handle, ov).value.interval, now))
  {
    match Resolve(reg, handle, ov)
    case Failure(e) => Failure(e)
    case Success(lim) => Success(Count(s, KeyFor(handle, key, lim.interval, now)))
  }

  /** throttled?(handle, key, overrides) at time now: whether the count has
      reached the threshold. */
  function ThrottledSpec(reg: Registry, s: Store, handle: string, key: Key, ov: Overrides, now: nat)
    : (r: Result<bool, ConfigError>)
    ensures r.Failure? <==> Resolve(reg, handle, ov).Failure?
    ensures r.Success? ==> (r.value <==>
      var lim := Resolve(reg, handle, ov).value;
      Count(s, KeyFor(handle, key, lim.interval, now)) >= lim.threshold)
  {
    match Resolve(reg, handle, ov)
    case Failure(e) => Failure(e)
    case Success(lim) => Success(Count(s, KeyFor(handle, key, lim.interval, now)) >= lim.threshold)
  }

  /** reset(handle, key, overrides) at time now: the new store, in which the
      addressed counter of the current window is 0 and every other counter,
      earlier windows of the same key included, is as before. */
  function ResetSpec(reg: Registry, s: Store, handle: string, key: Key, ov: Overrides, now: nat)
    : (r: Result<Store, ConfigError>)
    ensures r.Failure? <==> Resolve(reg, handle, ov).Failure?
    ensures r.Success? ==>
      var ck := KeyFor(handle, key, Resolve(reg, handle, ov).value.interval, now);
      && Count(r.value, ck) == 0
      && (forall o :: o != ck ==> Count(r.value, o) == Count(s, o))
    ensures r.Success? && NonNegative(s) ==> NonNegative(r.value)
  {
    match Resolve(reg, handle, ov)
    case Failure(e) => Failure(e)
    case Success(lim) => Success(Reset(s, KeyFor(handle, key, lim.interval, now)))
  }

  /** What query reports after a throttle!: the new count when granted, the
      unchanged count when refused. */
  lemma QueryAfterThrottle(reg: Registry, s: Store, handle: string, key: Key, ov: Overrides, now: nat)
    requires Resolve(reg, handle, ov).Success?
    ensures var (r, s') := ThrottleSpec(reg, s, handle, key, ov, now);
      QuerySpec(reg, s', handle, key, ov, now)
        == if r.Success? then Success(r.value) else QuerySpec(reg, s, handle, key, ov, now)
  {
  }

  /** With increment 1, throttled? answers true exactly when the next
      throttle! would raise RateLimitExceededError. */
  lemma ThrottledIffNextRefused(reg: Registry, s: Store, handle: string, key: Key, ov: Overrides, now: nat)
    requires Resolve(reg, handle, ov).Success? && Resolve(reg, handle, ov).value.increment == 1
    ensures ThrottledSpec(reg, s, handle, key, ov, now)
         == Success(ThrottleSpec(reg, s, handle, key, ov, now).0.Failure?)
  {
  }

  /** reset followed by throttle! returns the increment (1 by default),
      whatever the count was. */
  lemma ResetThenThrottleSpec(reg: Registry, s: Store, handle: string, key: Key, ov: Overrides, now: nat)
    requires Resolve(reg, handle, ov).Success?
    requires Resolve(reg, handle, ov).value.increment <= Resolve(reg, handle, ov).value.threshold
    ensures ResetSpec(reg, s, handle, key, ov, now).Success?
    ensures var s' := ResetSpec(reg, s, handle, key, ov, now).value;
      ThrottleSpec(reg, s', handle, key, ov, now).0 == Success(Resolve(reg, handle, ov).value.increment)
  {
  }

  /** A throttle! at t1 leaves the counter that the same call addresses one
      interval or more later untouched, so counting in a later window starts
      from what that window already held (nothing, in a store written only
      by earlier windows). */
  lemma EarlierWindowInvisible(reg: Registry, s: Store, handle: string, key: Key, ov: Overrides, t1: nat, t2: nat)
    requires Resolve(reg, handle, ov).Success?
    requires t1 + Resolve(reg, handle, ov).value.interval <= t2
    ensures var interval := Resolve(reg, handle, ov).value.interval;
      var later := KeyFor(handle, key, interval, t2);
      Count(ThrottleSpec(reg, s, handle, key, ov, t1).1, later) == Count(s, later)
  {
    LaterWindow(t1, t2, Resolve(reg, handle, ov).value.interval);
  }

  /** The store after n successive throttle! calls with the same arguments
      at the same moment, refused ones included. */
  function ThrottleTimes(reg: Registry, s: Store, handle: string, key: Key, ov: Overrides, now: nat, n: nat): Store
    decreases n
  {
    if n == 0 then s
    else ThrottleSpec(reg, ThrottleTimes(reg, s, handle, key, ov, now, n - 1), handle, key, ov, now).1
  }

  /** Repeated throttle! calls are repeated attempts on the one counter they
      address. */
  lemma {:induction false} ThrottleTimesIsAttempts(reg: Registry, s: Store, handle: string, key: Key, ov: Overrides, now: nat, n: nat)
    requires Resolve(reg, handle, ov).Success?
    ensures var lim := Resolve(reg, handle, ov).value;
      ThrottleTimes(reg, s, handle, key, ov, now, n)
        == Attempts(s, KeyFor(handle, key, lim.interval, now), lim.threshold, lim.increment, n)
    decreases n
  {
    if n > 0 {
      ThrottleTimesIsAttempts(reg, s, handle, key, ov, now, n - 1);
    }
  }

  /** With increment 1 and a count c within the threshold T, n successive
      throttle! calls leave query at min(c + n, T), and the next call returns
      c + n + 1 when c + n < T and raises RateLimitExceededError otherwise.
      From a fresh counter: T calls return 1..T, and every later call raises
      while query stays at T. */
  lemma SuccessiveThrottles(reg: Registry, s: Store, handle: string, key: Key, ov: Overrides, now: nat, n: nat)
    requires Resolve(reg, handle, ov).Success? && Resolve(reg, handle, ov).value.increment == 1
    requires NonNegative(s)
    requires Count(s, KeyFor(handle, key, Resolve(reg, handle, ov).value.interval, now))
             <= Resolve(reg, handle, ov).value.threshold
    ensures var lim := Resolve(reg, handle, ov).value;
      var c := Count(s, KeyFor(handle, key, lim.interval, now));
      var after := ThrottleTimes(reg, s, handle, key, ov, now, n);
      var next := ThrottleSpec(reg, after, handle, key, ov, now).0;
      && QuerySpec(reg, after, handle, key, ov, now) == Success(Min(c + n, lim.threshold))
      && (next.Success? <==> c + n < lim.threshold)
      && (next.Success? ==> next.value == c + n + 1)
      && (next.Failure? ==> next.error.RateLimitExceeded?)
  {
    var lim := Resolve(reg, handle, ov).value;
    var ck := KeyFor(handle, key, lim.interval, now);
    ThrottleTimesIsAttempts(reg, s, handle, key, ov, now, n);
    RepeatedThrottle(s, ck, lim.threshold, n);
  }

  /** The engine: the registry of defaults, the hash-backed store, and
      whether the host supplied an atomic incrementer (otherwise throttle!
      reads and then writes). */
  class Prop {
    var registry: Registry
    var store: Store
    const incrementer: bool

    /** The object invariant: every counter is non-negative. */
    predicate Valid()
      reads this
    {
      NonNegative(store)
    }

    constructor (withIncrementer: bool)
      ensures Valid()
      ensures registry == map[] && store == map[] && incrementer == withIncrementer
    {
      registry := map[];
      store := map[];
      incrementer := withIncrementer;
    }

    /** The store's read block. */
    method Read(ck: CacheKey) returns (v: int)
      ensures v == Count(store, ck)
    {
      v := if ck in store then store[ck] else 0;
    }

    /** The store's write block. */
    method Write(ck: CacheKey, v: int)
      modifies this`store
      ensures store == old(store)[ck := v]
    {
      store := store[ck := v];
    }

    /** The store's incrementer block; returns the new value. */
    method Increment(ck: CacheKey, inc: int) returns (v: int)
      modifies this`store
      ensures v == Count(old(store), ck) + inc
      ensures store == Incremented(old(store), ck, inc)
    {
      if ck in store {
        store := store[ck := store[ck] + inc];
      } else {
        store := store[ck := inc];
      }
      v := store[ck];
    }

    /** Prop.defaults: registers or redefines a handle; on refusal reports
        the error and leaves the registry as it was. */
    method Defaults(handle: string, threshold: Value, interval: Value, increment: Option<Value>)
      returns (err: Option<ConfigError>)
      modifies this`registry
      ensures match Register(old(registry), handle, threshold, interval, increment)
        case Success(reg) => registry == reg && err == None
        case Failure(e) => registry == old(registry) && err == Some(e)
    {
      match Register(registry, handle, threshold, interval, increment)
      case Success(reg) =>
        registry := reg;
        err := None;
      case Failure(e) =>
        err := Some(e);
    }

    /** Prop.throttle!: through the incrementer when there is one, otherwise
        by read then write; both paths give the result and store of
        ThrottleSpec. */
    method Throttle(handle: string, key: Key, ov: Overrides, now: nat) returns (r: Result<int, ThrottleError>)
      requires Valid()
      modifies this`store
      ensures Valid()
      ensures (r, store) == ThrottleSpec(registry, old(store), handle, key, ov, now)
    {
      var resolved := Resolve(registry, handle, ov);
      if resolved.Failure? {
        return Failure(ConfigurationError(resolved.error));
      }
      var lim := resolved.value;
      var ck := KeyFor(handle, key, lim.interval, now);
      var c := Read(ck);
      if c + lim.increment > lim.threshold {
        r := Failure(RateLimitExceeded(handle, key, lim.threshold, RetryAfter(now, lim.interval),
                                       ExceededMessage(handle, lim.threshold, key)));
      } else if incrementer {
        var v := Increment(ck, lim.increment);
        r := Success(v);
      } else {
        Write(ck, c + lim.increment);
        r := Success(c + lim.increment);
      }
    }

    /** Prop.query: reads, never writes. */
    method Query(handle: string, key: Key, ov: Overrides, now: nat) returns (r: Result<int, ConfigError>)
      ensures r == QuerySpec(registry, store, handle, key, ov, now)
      ensures Valid() && r.Success? ==> r.value >= 0
    {
      var resolved := Resolve(registry, handle, ov);
      if resolved.Failure? {
        return Failure(resolved.error);
      }
      var c := Read(KeyFor(handle, key, resolved.value.interval, now));
      r := Success(c);
    }

    /** Prop.throttled?: reads, never writes, never raises
        RateLimitExceededError. */
    method IsThrottled(handle: string, key: Key, ov: Overrides, now: nat) returns (r: Result<bool, ConfigError>)
      ensures r == ThrottledSpec(registry, store, handle, key, ov, now)
    {
      var resolved := Resolve(registry, handle, ov);
      if resolved.Failure? {
        return Failure(resolved.error);
      }
      var c := Read(KeyFor(handle, key, resolved.value.interval, now));
      r := Success(c >= resolved.value.threshold);
    }

    /** Prop.reset: writes 0 to the addressed counter of the current window. */
    method Reset(handle: string, key: Key, ov: Overrides, now: nat) returns (err: Option<ConfigError>)
      requires Valid()
      modifies this`store
      ensures Valid()
      ensures match ResetSpec(registry, old(store), handle, key, ov, now)
        case Success(s) => store == s && err == None
        case Failure(e) => store == old(store) && err == Some(e)
    {
      var resolved := Resolve(registry, handle, ov);
      if resolved.Failure? {
        return Some(resolved.error);
      }
      Write(KeyFor(handle, key, resolved.value.interval, now), 0);
      err := None;
    }
  }
}
