/** The behaviour the repository's tests pin down, stated for every start
    time and for both write paths (with and without an incrementer). Each
    method builds a fresh engine, runs the calls of one test case, and
    promises the counts and outcomes that test expects. */
module PropScenarios {
  import opened Common
  import opened Keys
  import opened Config
  import opened Window
  import opened Counter
  import opened PropEngine

  /** Non-integer interval or threshold: both registrations are refused and
      the registry stays empty. */
  method InvalidDefaults(withIncrementer: bool) returns (first: Option<ConfigError>, second: Option<ConfigError>, registry: Registry)
    ensures first == Some(InvalidInterval) && second == Some(InvalidThreshold)
    ensures registry == map[]
  {
    var p := new Prop(withIncrementer);
    first := p.Defaults("hello_there", Number(20), Text("hello"), None);
    second := p.Defaults("hello_there", Text("wibble"), Number(100), None);
    registry := p.registry;
  }

  /** A registered handle with threshold 4 grants 1..4, refuses the fifth
      call, and a per-call threshold of 20 then grants 5. */
  method DefaultHandle(withIncrementer: bool, start: nat)
    returns (counts: seq<int>, fifth: Result<int, ThrottleError>, raised: Result<int, ThrottleError>)
    ensures counts == [1, 2, 3, 4]
    ensures fifth.Failure? && fifth.error.RateLimitExceeded? && fifth.error.handle == "hello_there"
    ensures raised == Success(5)
  {
    var p := new Prop(withIncrementer);
    var err := p.Defaults("hello_there", Number(4), Number(10), None);
    var ck := KeyFor("hello_there", Str("some key"), 10, start);
    counts := [];
    var i := 0;
    while i < 4
      invariant 0 <= i <= 4
      invariant p.Valid() && p.registry == map["hello_there" := Limit(4, 10, 1)]
      invariant Count(p.store, ck) == i
      invariant |counts| == i && forall j :: 0 <= j < i ==> counts[j] == j + 1
    {
      var r := p.Throttle("hello_there", Str("some key"), NoOverrides, start);
      counts := counts + [r.value];
      i := i + 1;
    }
    fifth := p.Throttle("hello_there", Str("some key"), NoOverrides, start);
    raised := p.Throttle("hello_there", Str("some key"), Overrides(Some(Number(20)), None, None), start);
  }

  /** Two calls with one key on :hello_there (threshold 4) starting from a
      zero count grant 1 and 2, and leave every other counter alone. */
  method ThrottleTwice(p: Prop, key: Key, start: nat) returns (first: int, second: int)
    requires p.Valid() && p.registry == map["hello_there" := Limit(4, 10, 1)]
    requires Count(p.store, KeyFor("hello_there", key, 10, start)) == 0
    modifies p
    ensures p.Valid() && p.registry == old(p.registry)
    ensures first == 1 && second == 2
    ensures forall o :: o != KeyFor("hello_there", key, 10, start) ==> Count(p.store, o) == Count(old(p.store), o)
  {
    var r1 := p.Throttle("hello_there", key, NoOverrides, start);
    var r2 := p.Throttle("hello_there", key, NoOverrides, start);
    first, second := r1.value, r2.value;
  }

  /** Keys 5, '6' and [5, '6'] each count on their own. */
  method KeyTypes(withIncrementer: bool, start: nat) returns (counts: seq<int>)
    ensures counts == [1, 2, 1, 2, 1, 2]
  {
    var p := new Prop(withIncrementer);
    var err := p.Defaults("hello_there", Number(4), Number(10), None);
    var six := KeyFor("hello_there", Str("6"), 10, start);
    var both := KeyFor("hello_there", Seq([Int(5), Str("6")]), 10, start);
    var a1, a2 := ThrottleTwice(p, Int(5), start);
    assert Count(p.store, six) == 0 && Count(p.store, both) == 0;
    var b1, b2 := ThrottleTwice(p, Str("6"), start);
    assert Count(p.store, both) == 0;
    var c1, c2 := ThrottleTwice(p, Seq([Int(5), Str("6")]), start);
    counts := [a1, a2, b1, b2, c1, c2];
  }

  /** The setup of the reset test: handle :hello with threshold 10, then
      five calls without a key granting 1..5; no other counter is written. */
  method ResetSetup(p: Prop, start: nat) returns (setup: seq<int>)
    requires p.Valid() && p.registry == map[] && p.store == map[]
    modifies p
    ensures p.Valid() && p.registry == map["hello" := Limit(10, 10, 1)]
    ensures setup == [1, 2, 3, 4, 5]
    ensures Count(p.store, KeyFor("hello", Absent, 10, start)) == 5
    ensures forall o :: o != KeyFor("hello", Absent, 10, start) ==> Count(p.store, o) == 0
  {
    var err := p.Defaults("hello", Number(10), Number(10), None);
    var plain := KeyFor("hello", Absent, 10, start);
    setup := [];
    var i := 0;
    while i < 5
      invariant 0 <= i <= 5
      invariant p.Valid() && p.registry == map["hello" := Limit(10, 10, 1)]
      invariant Count(p.store, plain) == i
      invariant forall o :: o != plain ==> Count(p.store, o) == 0
      invariant |setup| == i && forall j :: 0 <= j < i ==> setup[j] == j + 1
    {
      var r := p.Throttle("hello", Absent, NoOverrides, start);
      setup := setup + [r.value];
      i := i + 1;
    }
  }

  /** reset sets only the named key's counter to 0: after the setup and two
      calls with 'wibble', resetting the keyless counter makes it grant 1
      while 'wibble' goes on to 3; resetting 'wibble' makes it grant 1. */
  method ResetCounter(withIncrementer: bool, start: nat)
    returns (afterReset: int, wibble: int, wibbleAfterReset: int)
    ensures afterReset == 1 && wibble == 3 && wibbleAfterReset == 1
  {
    var p := new Prop(withIncrementer);
    var setup := ResetSetup(p, start);
    var plain := KeyFor("hello", Absent, 10, start);
    var wib := KeyFor("hello", Str("wibble"), 10, start);
    var w1 := p.Throttle("hello", Str("wibble"), NoOverrides, start);
    var w2 := p.Throttle("hello", Str("wibble"), NoOverrides, start);
    assert Count(p.store, plain) == 5 && Count(p.store, wib) == 2;
    var err := p.Reset("hello", Absent, NoOverrides, start);
    var r1 := p.Throttle("hello", Absent, NoOverrides, start);
    afterReset := r1.value;
    var r2 := p.Throttle("hello", Str("wibble"), NoOverrides, start);
    wibble := r2.value;
    err := p.Reset("hello", Str("wibble"), NoOverrides, start);
    var r3 := p.Throttle("hello", Str("wibble"), NoOverrides, start);
    wibbleAfterReset := r3.value;
  }

  /** With threshold 2, throttled? is false after one call and true after two. */
  method ThrottledOnceReached(withIncrementer: bool, start: nat)
    returns (before: Result<bool, ConfigError>, after: Result<bool, ConfigError>)
    ensures before == Success(false) && after == Success(true)
  {
    var p := new Prop(withIncrementer);
    var err := p.Defaults("hello", Number(2), Number(10), None);
    var r1 := p.Throttle("hello", Absent, NoOverrides, start);
    before := p.IsThrottled("hello", Absent, NoOverrides, start);
    var r2 := p.Throttle("hello", Absent, NoOverrides, start);
    after := p.IsThrottled("hello", Absent, NoOverrides, start);
  }

  /** Three calls on an unregistered handle with threshold and interval
      given per call grant 1, 2, 3, counting in steps of the default increment. */
  method IncrementCounter(withIncrementer: bool, start: nat) returns (counts: seq<int>)
    ensures counts == [1, 2, 3]
  {
    var p := new Prop(withIncrementer);
    var ov := Overrides(Some(Number(10)), Some(Number(10)), None);
    var ck := KeyFor("hello", Absent, 10, start);
    counts := [];
    var i := 0;
    while i < 3
      invariant 0 <= i <= 3
      invariant p.Valid() && p.registry == map[]
      invariant Count(p.store, ck) == i
      invariant |counts| == i && forall j :: 0 <= j < i ==> counts[j] == j + 1
    {
      var r := p.Throttle("hello", Absent, ov, start);
      counts := counts + [r.value];
      i := i + 1;
    }
  }

  /** Three calls, then the clock moves 20 seconds on past a 10-second
      window, and counting starts again from 1. */
  method WindowPassed(withIncrementer: bool, start: nat) returns (first: seq<int>, second: seq<int>)
    ensures first == [1, 2, 3] && second == [1, 2, 3]
  {
    var p := new Prop(withIncrementer);
    var ov := Overrides(Some(Number(10)), Some(Number(10)), None);
    var early := KeyFor("hello", Absent, 10, start);
    var late := KeyFor("hello", Absent, 10, start + 20);
    LaterWindow(start, start + 20, 10);
    first := [];
    var i := 0;
    while i < 3
      invariant 0 <= i <= 3
      invariant p.Valid() && p.registry == map[]
      invariant Count(p.store, early) == i && Count(p.store, late) == 0
      invariant |first| == i && forall j :: 0 <= j < i ==> first[j] == j + 1
    {
      var r := p.Throttle("hello", Absent, ov, start);
      first := first + [r.value];
      i := i + 1;
    }
    second := [];
    i := 0;
    while i < 3
      invariant 0 <= i <= 3
      invariant p.Valid() && p.registry == map[]
      invariant Count(p.store, late) == i
      invariant |second| == i && forall j :: 0 <= j < i ==> second[j] == j + 1
    {
      var r := p.Throttle("hello", Absent, ov, start + 20);
      second := second + [r.value];
      i := i + 1;
    }
  }

  /** Ten attempts against threshold 5, refusals ignored: query reports 5. */
  method NotBeyondThreshold(withIncrementer: bool, start: nat) returns (count: Result<int, ConfigError>)
    ensures count == Success(5)
  {
    var p := new Prop(withIncrementer);
    var err := p.Defaults("hello", Number(5), Number(1), None);
    var ck := KeyFor("hello", Absent, 1, start);
    var i := 0;
    while i < 10
      invariant 0 <= i <= 10
      invariant p.Valid() && p.registry == map["hello" := Limit(5, 1, 1)]
      invariant Count(p.store, ck) == Min(i, 5)
    {
      var r := p.Throttle("hello", Absent, NoOverrides, start);
      i := i + 1;
    }
    count := p.Query("hello", Absent, NoOverrides, start);
  }

  /** Two unit calls give 2; one call with increment 48 brings it to 50. */
  method CustomIncrements(withIncrementer: bool, start: nat)
    returns (before: Result<int, ConfigError>, after: Result<int, ConfigError>)
    ensures before == Success(2) && after == Success(50)
  {
    var p := new Prop(withIncrementer);
    var err := p.Defaults("hello", Number(100), Number(10), None);
    var r1 := p.Throttle("hello", Absent, NoOverrides, start);
    var r2 := p.Throttle("hello", Absent, NoOverrides, start);
    before := p.Query("hello", Absent, NoOverrides, start);
    var r3 := p.Throttle("hello", Absent, Overrides(None, None, Some(Number(48))), start);
    after := p.Query("hello", Absent, NoOverrides, start);
  }

  /** After five calls against threshold 5 every further call raises
      RateLimitExceededError with handle :hello, the message
      "hello threshold of 5 exceeded for key ''" and a retry_after. */
  method ExceededError(withIncrementer: bool, start: nat)
    returns (sixth: Result<int, ThrottleError>, seventh: Result<int, ThrottleError>)
    ensures sixth.Failure? && sixth.error.RateLimitExceeded?
    ensures seventh.Failure? && seventh.error.RateLimitExceeded?
    ensures seventh.error.handle == "hello"
    ensures seventh.error.message == "hello threshold of 5 exceeded for key ''"
    ensures 0 < seventh.error.retryAfter <= 10
  {
    var p := new Prop(withIncrementer);
    var ov := Overrides(Some(Number(5)), Some(Number(10)), None);
    var ck := KeyFor("hello", Absent, 10, start);
    var i := 0;
    while i < 5
      invariant 0 <= i <= 5
      invariant p.Valid() && p.registry == map[]
      invariant Count(p.store, ck) == i
    {
      var r := p.Throttle("hello", Absent, ov, start);
      i := i + 1;
    }
    sixth := p.Throttle("hello", Absent, ov, start);
    seventh := p.Throttle("hello", Absent, ov, start);
    ExceededMessageWithoutKey();
  }
}
