/** Counters held in the key-value store and the threshold rule applied to
    them, independent of how the cache key was chosen. */
module Counter {
  import opened Common
  import opened Keys

  /** The hash the store keeps: one integer per cache key. */
  type Store = map<CacheKey, int>

  /** What a read returns as a count: an absent entry reads as 0 (nil.to_i). */
  function Count(s: Store, ck: CacheKey): (c: int)
    ensures ck !in s ==> c == 0
    ensures NonNegative(s) ==> c >= 0
  {
    if ck in s then s[ck] else 0
  }

  /** Every stored counter is non-negative. */
  predicate NonNegative(s: Store)
  {
    forall ck :: ck in s ==> s[ck] >= 0
  }

  /** The hash store's incrementer: add to an existing entry or create it
      with the increment. It leaves the store exactly as reading the count
      and writing back count + inc does, so both write paths agree. */
  function Incremented(s: Store, ck: CacheKey, inc: int): (r: Store)
    ensures r == s[ck := Count(s, ck) + inc]
  {
    if ck in s then s[ck := s[ck] + inc] else s[ck := inc]
  }

  /** Outcome of one throttle attempt: the new count and store, or a refusal. */
  datatype Step = Granted(count: int, store: Store) | Refused

  /** One attempt on the counter at ck: granted exactly when the count plus
      the increment stays within the threshold, in which case only that
      counter moves, by the increment; a refusal writes nothing. */
  function ThrottleStep(s: Store, ck: CacheKey, threshold: int, inc: Pos): (r: Step)
    ensures r.Granted? <==> Count(s, ck) + inc <= threshold
    ensures r.Granted? ==> r.count == Count(s, ck) + inc && Count(r.store, ck) == r.count
    ensures r.Granted? ==> forall o :: o != ck ==> Count(r.store, o) == Count(s, o)
    ensures r.Granted? && NonNegative(s) ==> NonNegative(r.store) && r.count > 0
  {
    var c := Count(s, ck);
    if c + inc > threshold then Refused else Granted(c + inc, s[ck := c + inc])
  }

  /** The store after one attempt, whether granted or refused. */
  function StoreAfter(s: Store, ck: CacheKey, threshold: int, inc: Pos): Store
  {
    match ThrottleStep(s, ck, threshold, inc)
    case Granted(_, t) => t
    case Refused => s
  }

  /** The store after n successive attempts on ck, refused ones included. */
  function Attempts(s: Store, ck: CacheKey, threshold: int, inc: Pos, n: nat): Store
    decreases n
  {
    if n == 0 then s else StoreAfter(Attempts(s, ck, threshold, inc, n - 1), ck, threshold, inc)
  }

  /** With increment 1, successive attempts count up one by one from the
      current count c and stop at the threshold T: after n attempts the count
      is min(c + n, T), attempt n + 1 is granted with count c + n + 1 exactly
      when c + n < T, and every other counter is untouched throughout. */
  lemma {:induction false} RepeatedThrottle(s: Store, ck: CacheKey, threshold: int, n: nat)
    requires 0 <= Count(s, ck) <= threshold
    ensures Count(Attempts(s, ck, threshold, 1, n), ck) == Min(Count(s, ck) + n, threshold)
    ensures forall o :: o != ck ==> Count(Attempts(s, ck, threshold, 1, n), o) == Count(s, o)
    ensures var next := ThrottleStep(Attempts(s, ck, threshold, 1, n), ck, threshold, 1);
      && (next.Granted? <==> Count(s, ck) + n < threshold)
      && (next.Granted? ==> next.count == Count(s, ck) + n + 1)
    decreases n
  {
    if n > 0 {
      RepeatedThrottle(s, ck, threshold, n - 1);
    }
  }

  /** Whatever the increments, attempts never carry a counter that starts
      within the threshold beyond it, and never lower it. */
  lemma {:induction false} AttemptsStayWithin(s: Store, ck: CacheKey, threshold: int, inc: Pos, n: nat)
    requires 0 <= Count(s, ck) <= threshold
    ensures Count(s, ck) <= Count(Attempts(s, ck, threshold, inc, n), ck) <= threshold
    decreases n
  {
    if n > 0 {
      AttemptsStayWithin(s, ck, threshold, inc, n - 1);
    }
  }

  /** `reset`: the counter at ck becomes 0 and nothing else changes. */
  function Reset(s: Store, ck: CacheKey): (r: Store)
    ensures Count(r, ck) == 0
    ensures forall o :: o != ck ==> Count(r, o) == Count(s, o)
    ensures NonNegative(s) ==> NonNegative(r)
  {
    s[ck := 0]
  }

  /** After a reset the next attempt is granted with the increment as its
      count, whatever the count was before; a second reset changes nothing. */
  lemma ResetThenThrottle(s: Store, ck: CacheKey, threshold: int, inc: Pos)
    requires inc <= threshold
    ensures ThrottleStep(Reset(s, ck), ck, threshold, inc).Granted?
    ensures ThrottleStep(Reset(s, ck), ck, threshold, inc).count == inc
    ensures Reset(Reset(s, ck), ck) == Reset(s, ck)
  {
  }
}
