/** The registry of named limits (`Prop.defaults`) and the resolution of the
    settings that apply to one call, with per-call overrides. */
module Config {
  import opened Common

  /** A value given for a setting: an Integer, or anything else (a String
      such as 'hello'), which registration refuses. */
  datatype Value = Number(n: int) | Text(t: string)

  /** The settings of one limit: at most `threshold` units per window of
      `interval` seconds, each call adding `increment` units. */
  datatype Limit = Limit(threshold: Pos, interval: Pos, increment: Pos)

  /** Handle name to its registered defaults. */
  type Registry = map<string, Limit>

  /** Why a registration or a resolution failed (Prop raises a RuntimeError). */
  datatype ConfigError =
    | InvalidThreshold
    | InvalidInterval
    | InvalidIncrement
    | Unconfigured(handle: string)

  /** Per-call settings that replace the registered ones for that call only.
      Like registered settings, they may be given as any value, and only a
      positive integer is accepted. */
  datatype Overrides = Overrides(threshold: Option<Value>, interval: Option<Value>, increment: Option<Value>)

  const NoOverrides: Overrides := Overrides(None, None, None)

  predicate IsPositiveInteger(v: Value)
  {
    v.Number? && v.n > 0
  }

  /** `Prop.defaults handle, threshold:, interval:, increment:` on a registry:
      refuses any setting that is not a positive integer, checking the
      threshold first, and otherwise (re)defines the handle alone. */
  function Register(reg: Registry, handle: string, threshold: Value, interval: Value, increment: Option<Value>)
    : (r: Result<Registry, ConfigError>)
    ensures r.Success? <==>
      IsPositiveInteger(threshold) && IsPositiveInteger(interval) &&
      (increment.Some? ==> IsPositiveInteger(increment.value))
    ensures !IsPositiveInteger(threshold) ==> r == Failure(InvalidThreshold)
    ensures IsPositiveInteger(threshold) && !IsPositiveInteger(interval) ==> r == Failure(InvalidInterval)
    ensures r.Success? ==> r.value.Keys == reg.Keys + {handle}
    ensures r.Success? ==>
      r.value[handle] == Limit(threshold.n, interval.n, if increment.Some? then increment.value.n else 1)
    ensures r.Success? ==> forall h :: h in reg && h != handle ==> r.value[h] == reg[h]
  {
    if !IsPositiveInteger(threshold) then Failure(InvalidThreshold)
    else if !IsPositiveInteger(interval) then Failure(InvalidInterval)
    else if increment.Some? && !IsPositiveInteger(increment.value) then Failure(InvalidIncrement)
    else
      var inc := if increment.Some? then increment.value.n else 1;
      Success(reg[handle := Limit(threshold.n, interval.n, inc)])
  }

  /** The settings in force for one call: each override wins over the
      registered default; the increment falls back to 1; a threshold or an
      interval that neither supplies fails, and so does any given value that
      is not a positive integer (it is never clamped or converted). */
  function Resolve(reg: Registry, handle: string, ov: Overrides): (r: Result<Limit, ConfigError>)
    ensures r.Success? <==>
      && (handle in reg || (ov.threshold.Some? && ov.interval.Some?))
      && (ov.threshold.Some? ==> IsPositiveInteger(ov.threshold.value))
      && (ov.interval.Some? ==> IsPositiveInteger(ov.interval.value))
      && (ov.increment.Some? ==> IsPositiveInteger(ov.increment.value))
    ensures handle !in reg && (ov.threshold.None? || ov.interval.None?) ==> r == Failure(Unconfigured(handle))
    ensures r.Success? && ov.threshold.Some? ==> r.value.threshold == ov.threshold.value.n
    ensures r.Success? && ov.threshold.None? ==> handle in reg && r.value.threshold == reg[handle].threshold
    ensures r.Success? && ov.interval.Some? ==> r.value.interval == ov.interval.value.n
    ensures r.Success? && ov.interval.None? ==> handle in reg && r.value.interval == reg[handle].interval
    ensures r.Success? && ov.increment.Some? ==> r.value.increment == ov.increment.value.n
    ensures r.Success? && ov.increment.None? ==>
      r.value.increment == if handle in reg then reg[handle].increment else 1
  {
    var threshold := if ov.threshold.Some? then ov.threshold
                     else if handle in reg then Some(Number(reg[handle].threshold)) else None;
    var interval := if ov.interval.Some? then ov.interval
                    else if handle in reg then Some(Number(reg[handle].interval)) else None;
    var increment := if ov.increment.Some? then ov.increment.value
                     else if handle in reg then Number(reg[handle].increment) else Number(1);
    if threshold.None? || interval.None? then Failure(Unconfigured(handle))
    else if !IsPositiveInteger(threshold.value) then Failure(InvalidThreshold)
    else if !IsPositiveInteger(interval.value) then Failure(InvalidInterval)
    else if !IsPositiveInteger(increment) then Failure(InvalidIncrement)
    else Success(Limit(threshold.value.n, interval.value.n, increment.n))
  }

  /** A registered limit is exactly what a later call without overrides
      uses, and registering one handle does not change how any other handle
      resolves. */
  lemma RegisterThenResolve(reg: Registry, handle: string, threshold: Value, interval: Value,
                            increment: Option<Value>, other: string, ov: Overrides)
    requires Register(reg, handle, threshold, interval, increment).Success?
    requires other != handle
    ensures var reg' := Register(reg, handle, threshold, interval, increment).value;
      && Resolve(reg', handle, NoOverrides)
           == Success(Limit(threshold.n, interval.n, if increment.Some? then increment.value.n else 1))
      && Resolve(reg', other, ov) == Resolve(reg, other, ov)
  {
  }
}
