# Prop: a fixed-window rate limiter, modelled in Dafny

Prop caps how often an action may happen. A *handle* (such as `:hello`) names a limit: at most `threshold` units per window of `interval` seconds, each call adding `increment` units (1 by default). A caller may pass a *key* (nil, a number, a string or an array of these) to give each user or resource its own counter. Each counter lives in a pluggable key-value store under a key built from the handle, the caller key and the current window `floor(now / interval)`. A new window therefore starts a fresh counter with no clean-up.

Operations:

- `Prop.defaults` registers a handle. It refuses settings that are not positive integers and leaves the registry as it was.
- `throttle!` reads the count and adds the increment. It raises `RateLimitExceededError` when the result would pass the threshold, and writes nothing in that case. With an incrementer it writes through that; otherwise it reads, then writes.
- `query` returns the current count.
- `throttled?` says whether the count has reached the threshold. It never writes.
- `reset` sets the current window's counter to 0.

Prop's engine is modelled from the behaviour `test/test_prop.rb` fixes. Where the tests leave a detail open, the choices below say which behaviour the model takes.

Files and modules:

- `common.dfy` (`Common`): `Option`, `Result` (used for raised errors), `Pos` (positive integers).
- `keys.dfy` (`Keys`): the caller `Key` with one constructor per shape. The structured `CacheKey` (handle, bucket, key), so distinct shapes never share a counter. Decimal rendering and the key rendering used in messages.
- `config.dfy` (`Config`): registration (`Register`) and per-call resolution with overrides (`Resolve`).
- `window.dfy` (`Window`): `Bucket` and `RetryAfter`.
- `counter.dfy` (`Counter`): the store as `map<CacheKey, int>`, the threshold rule on one counter (`ThrottleStep`), repeated attempts, reset.
- `engine.dfy` (`PropEngine`): the error type, one specification function per public operation, and the class `Prop`. `Prop` holds the registry and the store as fields and updates them in place. Its methods are proved equal to those functions.
- `scenarios.dfy` (`PropScenarios`): each test case as a method. Each holds for every start time and for both write paths, and its postcondition states the counts and outcomes the test asserts.

Modelling choices:

- The clock (`Time.now`) is a parameter `now: nat` in whole seconds.
- The store's read, write and increment blocks are methods of `Prop` over its `store` field. Whether an incrementer was supplied is the constant `incrementer`.
- A setting given to `Prop.defaults` is a `Value`: `Number(n)` or `Text(s)`. Strings such as `'hello'` are therefore refused.
- The increment given at registration is validated like the other two settings.
- Per-call overrides are `Value`s too. Resolution fails when a threshold or interval is missing, or when any effective value is not a positive integer (a string such as `'x'` included). It never clamps or converts.
- The refusal rule is "count + increment > threshold". With increment 1 this is the same as "count ≥ threshold"; no test tells the two rules apart, since every refusal in the tests happens at increment 1 and the one increment-48 call (count 2, threshold 100) is granted under both.
- The cache key holds the handle, the key and the window index, not the interval. A per-call interval override on the same handle and key can therefore address a counter written under another interval (at interval 10, second 25 is window 2; at interval 5, second 12 is window 2 too).
- `retry_after` is the time to the start of the next window: `(bucket + 1) * interval - now`. It is between 1 and `interval`.
- In the message, a nil key renders as the empty string, numbers in decimal, strings as they are, and arrays as their elements joined by `/`. The tests fix only the nil case.

## Model

| member | source | states |
|---|---|---|
| Keys.NatToString | test/test_prop.rb:144 | the threshold in the message is rendered with decimal digits only, with no leading zero except for 0 |
| Keys.ParseNatToString | test/test_prop.rb:144 | the decimal rendering parses back to the same number, so distinct thresholds give distinct messages |
| Keys.IntToStringRoundTrip | test/test_prop.rb:144 | in the message's key display, an integer key's rendering, sign included, parses back to that integer |
| Keys.Display | test/test_prop.rb:144 | the key part of the rate-limit message: nil displays as the empty string, a string as itself, an integer as decimal text that parses back to it |
| Config.Register | test/test_prop.rb:26-35 | registration succeeds iff threshold, interval and any increment are positive integers (a non-integer threshold or interval is refused, threshold checked first); on success only the handle's entry is (re)defined, increment defaulting to 1 |
| Config.Resolve | test/test_prop.rb:44 | each per-call override wins over the registered value for that call; a missing value falls back to the registry (increment to 1); a handle neither registered nor fully overridden, or any non-positive value, fails |
| Config.RegisterThenResolve | test/test_prop.rb:37-41 | after a successful registration a call without overrides uses exactly the registered settings, and other handles resolve as before |
| Window.Bucket | test/test_prop.rb:97-107 | the bucket b satisfies b*interval <= now < (b+1)*interval, i.e. it is floor(now / interval) |
| Window.BucketUnique | test/test_prop.rb:97-107 | only one bucket index satisfies the window bounds of a moment |
| Window.LaterWindow | test/test_prop.rb:102-106 | moving the clock forward by at least one interval lands in a strictly later bucket |
| Window.RetryAfter | test/test_prop.rb:145 | retry_after lies in 1..interval and waiting that long reaches the next window |
| Window.RetryAfterIsEarliest | test/test_prop.rb:145 | any shorter wait stays in the current window |
| Counter.Count | test/test_prop.rb:8 | the engine reads an absent entry (the read block's nil) as 0, and reads no negative count from a store holding none |
| Counter.Incremented | test/test_prop.rb:15-16 | the incrementer block leaves the store exactly as read-then-write of count + inc does, so both write paths agree |
| Counter.ThrottleStep | test/test_prop.rb:38-44 | an attempt is granted iff count + inc <= threshold; a granted attempt moves only that counter, by inc; counts stay non-negative |
| Counter.RepeatedThrottle | test/test_prop.rb:109-116 | with increment 1, n attempts from count c leave min(c + n, T); attempt n+1 is granted with c + n + 1 iff c + n < T; other counters never change |
| Counter.AttemptsStayWithin | test/test_prop.rb:109-116 | for any increment, repeated attempts never push a counter that starts within the threshold past it, nor lower it |
| Counter.Reset | test/test_prop.rb:67-77 | reset makes the counter read 0 and changes no other counter |
| Counter.ResetThenThrottle | test/test_prop.rb:71-72 | after a reset the next attempt is granted with count equal to the increment; resetting twice equals resetting once |
| PropEngine.ExceededMessageParts | test/test_prop.rb:144 | the RateLimitExceededError message is the handle, then " threshold of ", then the threshold in decimal (parsing back to it), then " exceeded for key ", and ends with the key's display in single quotes |
| PropEngine.ExceededMessageWithoutKey | test/test_prop.rb:144 | the message for handle hello, threshold 5 and no key is "hello threshold of 5 exceeded for key ''" |
| PropEngine.KeyFor | test/test_prop.rb:47-55 | the addressed counter carries the call's handle and key and the window containing now |
| PropEngine.KeyForInjective | test/test_prop.rb:47-55 | two calls under the same interval share a counter iff handle, key (shape included) and window all agree |
| PropEngine.ThrottleSpec | test/test_prop.rb:38-44 | throttle! returns count + increment iff that stays within the threshold; otherwise it raises RateLimitExceeded with the handle, key, threshold, message and a retry_after in 1..interval; a refusal or misconfiguration writes nothing; only the current window's counter of this key can change |
| PropEngine.QuerySpec | test/test_prop.rb:115 | query returns the current window's count of the key (0 if never written), failing only when the settings do not resolve |
| PropEngine.ThrottledSpec | test/test_prop.rb:81-87 | throttled? is true iff the current count has reached the threshold |
| PropEngine.ResetSpec | test/test_prop.rb:67-77 | reset sets the current window's counter of the key to 0 and leaves every other counter, earlier windows included, as it was |
| PropEngine.QueryAfterThrottle | test/test_prop.rb:109-116 | after throttle!, query reports the new count when granted and the old count when refused |
| PropEngine.ThrottledIffNextRefused | test/test_prop.rb:81-87 | with increment 1, throttled? is true exactly when the next throttle! would raise RateLimitExceededError |
| PropEngine.ResetThenThrottleSpec | test/test_prop.rb:71-76 | reset followed by throttle! returns the increment (1 by default), whatever the count was |
| PropEngine.ThrottleTimesIsAttempts | test/test_prop.rb:39-41 | n successive throttle! calls with the same arguments at one moment are n attempts on the one counter they address |
| PropEngine.SuccessiveThrottles | test/test_prop.rb:38-43 | with increment 1 and a count c within threshold T, n calls leave query at min(c + n, T) and the next call returns c + n + 1 iff c + n < T, raising RateLimitExceededError otherwise; from a fresh counter, calls return 1..T and then raise |
| PropEngine.EarlierWindowInvisible | test/test_prop.rb:97-107 | a throttle! leaves untouched the counter the same call addresses an interval or more later |
| PropEngine.Prop.constructor | test/test_prop.rb:6-9 | a new engine has an empty registry, an empty store and the chosen write path |
| PropEngine.Prop.Read | test/test_prop.rb:8 | returns the stored count; an absent entry (the block's nil) reads as 0 |
| PropEngine.Prop.Write | test/test_prop.rb:9 | the write block stores the value at the key and changes nothing else |
| PropEngine.Prop.Increment | test/test_prop.rb:15 | the incrementer adds to the entry or creates it, and returns the new value |
| PropEngine.Prop.Defaults | test/test_prop.rb:26-38 | defaults updates the registry as Register says, and on refusal reports the error and leaves the registry unchanged |
| PropEngine.Prop.Throttle | test/test_prop.rb:15-16 | through the incrementer or by read then write, throttle! returns and stores what ThrottleSpec says, keeping counts non-negative |
| PropEngine.Prop.Query | test/test_prop.rb:124-128 | query returns QuerySpec's count, never negative while the counts are, and writes nothing |
| PropEngine.Prop.IsThrottled | test/test_prop.rb:84-86 | throttled? returns ThrottledSpec's answer and writes nothing |
| PropEngine.Prop.Reset | test/test_prop.rb:71-75 | reset stores what ResetSpec says, or reports the configuration error and writes nothing |
| PropScenarios.InvalidDefaults | test/test_prop.rb:27-35 | interval 'hello' and threshold 'wibble' are both refused and nothing is registered |
| PropScenarios.DefaultHandle | test/test_prop.rb:37-45 | threshold 4 grants 1, 2, 3, 4; the fifth call raises RateLimitExceededError; a per-call threshold of 20 then grants 5 |
| PropScenarios.ThrottleTwice | test/test_prop.rb:49-54 | two calls on a fresh key grant 1 then 2 and touch no other counter |
| PropScenarios.KeyTypes | test/test_prop.rb:47-55 | keys 5, '6' and [5, '6'] count independently: 1, 2, 1, 2, 1, 2 |
| PropScenarios.ResetSetup | test/test_prop.rb:59-65 | the reset setup grants 1..5 without a key and writes no other counter |
| PropScenarios.ResetCounter | test/test_prop.rb:67-77 | after reset the keyless counter grants 1 while 'wibble' continues to 3; after resetting 'wibble' it grants 1 |
| PropScenarios.ThrottledOnceReached | test/test_prop.rb:81-87 | with threshold 2, throttled? is false after one call and true after two |
| PropScenarios.IncrementCounter | test/test_prop.rb:91-95 | with threshold and interval given per call, three calls grant 1, 2, 3 |
| PropScenarios.WindowPassed | test/test_prop.rb:97-107 | three calls grant 1, 2, 3; 20 seconds later three more again grant 1, 2, 3 |
| PropScenarios.NotBeyondThreshold | test/test_prop.rb:109-116 | ten attempts against threshold 5 leave query at 5 |
| PropScenarios.CustomIncrements | test/test_prop.rb:118-129 | two unit calls give query 2; a call with increment 48 brings it to 50 |
| PropScenarios.ExceededError | test/test_prop.rb:131-147 | past threshold 5 every call raises RateLimitExceededError with handle hello, message "hello threshold of 5 exceeded for key ''" and retry_after in 1..10 |

## Left out

- Prop's engine source is not part of this model; the engine is modelled from the behaviour `test/test_prop.rb` fixes.
- Serialising and hashing the cache key into a string is left out. The structured `CacheKey` is used directly as the store key. That gives the no-collision property by construction, not through an encoding.
- Concurrency is left out, including the race between read and write on the path without an incrementer. The model is sequential, so both paths are proved to behave identically.
- The store's blocks as Ruby closures, and process-global state, are left out. The store is a `map` field and the engine is an explicit `Prop` object; its registry stands for `Prop.defaults`'s global handles.
- The wall clock is a parameter `now`. `Time.now` stubbing is not modelled.
- Test-framework plumbing (`setup`, `teardown`, `instance_variable_set`) is left out. Each scenario builds a fresh engine.
- Window.RetryAfter: the tests only require that `retry_after` is present. The exact value, time to the next window, is a modelling choice; nothing beyond the bounds 1..interval is claimed for Prop's retry_after.
- Storage failures (an adapter call failing or timing out) are not modelled. The in-memory store cannot fail.
