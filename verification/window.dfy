/** Fixed time windows: the bucket a moment falls in and the wait until the
    next window opens. Time is whole seconds since the epoch. */
module Window {
  import opened Common

  /** floor(now / interval): the index of the window holding `now`. The
      ensures characterises it as the unique b with b*interval <= now < (b+1)*interval. */
  function Bucket(now: nat, interval: Pos): (b: nat)
    ensures b * interval <= now < b * interval + interval
  {
    now / interval
  }

  /** Only one bucket index satisfies the window bounds of a moment. */
  lemma BucketUnique(now: nat, interval: Pos, b: nat)
    requires b * interval <= now < b * interval + interval
    ensures Bucket(now, interval) == b
  {
    var q := Bucket(now, interval);
    if q < b {
      MulMonotone(q + 1, b, interval);
    } else if b < q {
      MulMonotone(b + 1, q, interval);
    }
  }

  lemma MulMonotone(a: nat, b: nat, k: Pos)
    requires a <= b
    ensures a * k <= b * k
  {
  }

  /** Moving the clock forward by at least one interval always lands in a
      later window: a counter of an earlier window is never addressed again. */
  lemma LaterWindow(t1: nat, t2: nat, interval: Pos)
    requires t1 + interval <= t2
    ensures Bucket(t1, interval) < Bucket(t2, interval)
  {
    var b1, b2 := Bucket(t1, interval), Bucket(t2, interval);
    if b2 <= b1 {
      MulMonotone(b2, b1, interval);
    }
  }

  /** Seconds from `now` until the next window opens: between 1 and
      `interval`, and waiting that long lands in the next window. */
  function RetryAfter(now: nat, interval: Pos): (r: nat)
    ensures 0 < r <= interval
    ensures Bucket(now + r, interval) == Bucket(now, interval) + 1
  {
    var b := Bucket(now, interval);
    BucketUnique(now + ((b + 1) * interval - now), interval, b + 1);
    (b + 1) * interval - now
  }

  /** RetryAfter is the shortest such wait: any shorter one stays in the
      current window, where the refused count is still in force. */
  lemma RetryAfterIsEarliest(now: nat, interval: Pos, d: nat)
    requires d < RetryAfter(now, interval)
    ensures Bucket(now + d, interval) == Bucket(now, interval)
  {
    var b := Bucket(now, interval);
    BucketUnique(now + d, interval, b);
  }
}
