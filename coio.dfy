/** The helpers at the crate root, `src/lib.rs`: the conversion of a `Duration` to whole
    milliseconds, the millisecond-to-`Duration` step of `sleep_ms`, and the coroutine `Builder`. */
module Coio {
  import opened RustTypes

  const NANOS_PER_SEC := 1_000_000_000
  const NANOS_PER_MILLI := 1_000_000
  const MILLIS_PER_SEC := 1_000

  /** The largest whole-second count whose millisecond count fits in a `u64` for some
      sub-second part: `U64_MAX / 1000`. */
  const MAX_MS_SECS := 18_446_744_073_709_551

  type SubsecNanos = n: int | 0 <= n < NANOS_PER_SEC

  /** `std::time::Duration`: whole seconds and the nanoseconds below one second. */
  datatype Duration = Duration(secs: u64, nanos: SubsecNanos)

  /** The length of a duration in nanoseconds. */
  function TotalNanos(d: Duration): nat {
    d.secs * NANOS_PER_SEC + d.nanos
  }

  /** The order on `Duration` (seconds first, then nanoseconds). */
  predicate DurationLe(a: Duration, b: Duration) {
    a.secs < b.secs || (a.secs == b.secs && a.nanos <= b.nanos)
  }

  /** `duration_to_ms`: `secs * 1000 + nanos / 1_000_000` on `u64`, with the overflow checks
      of a debug build. `None` stands for the panic when the product or the sum overflows. The
      result is the duration truncated to whole milliseconds, and it is defined exactly when that
      count fits in a `u64`. */
  function DurationToMs(d: Duration): (r: Option<u64>)
    ensures r.Some? <==> TotalNanos(d) / NANOS_PER_MILLI <= U64_MAX
    ensures r.Some? ==> r.value * NANOS_PER_MILLI <= TotalNanos(d) < (r.value + 1) * NANOS_PER_MILLI
  {
    var secsMs := d.secs * MILLIS_PER_SEC;
    if secsMs > U64_MAX then None
    else
      var ms := secsMs + d.nanos / NANOS_PER_MILLI;
      if ms > U64_MAX then None else Some(ms)
  }

  /** The overflow condition of `duration_to_ms` in terms of the seconds and nanoseconds. */
  lemma DurationToMsDefined(d: Duration)
    ensures DurationToMs(d).Some? <==>
      d.secs < MAX_MS_SECS || (d.secs == MAX_MS_SECS && d.nanos < 616 * NANOS_PER_MILLI)
  {
  }

  /** `duration_to_ms` is monotone: a longer duration never converts to fewer milliseconds, and
      converts without overflow whenever the longer one does. */
  lemma DurationToMsMonotone(a: Duration, b: Duration)
    requires DurationLe(a, b) && DurationToMs(b).Some?
    ensures DurationToMs(a).Some? && DurationToMs(a).value <= DurationToMs(b).value
  {
  }

  /** `Duration::from_millis`, the step of `sleep_ms` from its argument to the `Duration` it
      sleeps for. It is exact, and converting back with `duration_to_ms` gives the argument. */
  function FromMillis(ms: u64): (d: Duration)
    ensures TotalNanos(d) == ms * NANOS_PER_MILLI
    ensures DurationToMs(d) == Some(ms)
  {
    Duration(ms / MILLIS_PER_SEC, (ms % MILLIS_PER_SEC) * NANOS_PER_MILLI)
  }

  /** `Options` as far as `Builder` uses it. */
  datatype Options = Options(stackSize: usize, name: Option<string>)

  /** `Builder`: the options a coroutine will be spawned with. The setters take the builder by
      value, change one field and hand it back. */
  datatype Builder = Builder(opts: Options) {

    /** `Builder::stack_size` */
    function StackSize(stackSize: usize): (b: Builder)
      ensures b.opts.stackSize == stackSize && b.opts.name == opts.name
    {
      this.(opts := opts.(stackSize := stackSize))
    }

    /** `Builder::name` */
    function Name(name: string): (b: Builder)
      ensures b.opts.name == Some(name) && b.opts.stackSize == opts.stackSize
    {
      this.(opts := opts.(name := Some(name)))
    }
  }

  /** `Builder::new`: a builder holding the default options (`Options::new`, given here as
      `defaults`). */
  function NewBuilder(defaults: Options): (b: Builder)
    ensures b.opts == defaults
  {
    Builder(defaults)
  }

  /** The two setters touch different fields, so they commute; and setting a field twice keeps
      the last value. */
  lemma SettersCommute(b: Builder, stackSize: usize, name: string, stackSize2: usize, name2: string)
    ensures b.StackSize(stackSize).Name(name) == b.Name(name).StackSize(stackSize)
    ensures b.StackSize(stackSize).StackSize(stackSize2) == b.StackSize(stackSize2)
    ensures b.Name(name).Name(name2) == b.Name(name2)
  {
  }

  /** Once both setters have been applied, the options no longer depend on the defaults. */
  lemma ConfiguredBuilder(defaults: Options, stackSize: usize, name: string)
    ensures NewBuilder(defaults).StackSize(stackSize).Name(name).opts == Options(stackSize, Some(name))
  {
  }
}
