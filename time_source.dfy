/** ITimeSource and its virtual implementation: a microsecond counter that
    only `advance_time` moves. The loader can also choose the real-time
    source; its wall-clock reading is not modelled, so a `Real` source here
    holds an abstract reading that it never changes itself (it inherits the
    interface's no-op `advance_time`). */
module TimeSources {
  import Machine

  datatype TimeSourceKind = Real | Virtual

  /** `std::chrono::steady_clock::time_point`, counted in nanosecond ticks
      (the period of steady_clock on the usual standard libraries). */
  datatype SteadyTimePoint = SteadyTimePoint(nanos: int)

  /** `duration_cast<microseconds>` of a non-negative time point. */
  function MicrosOf(t: SteadyTimePoint): int {
    t.nanos / 1000
  }

  class TimeSource {
    const kind: TimeSourceKind
    var micros: nat

    ghost predicate Valid()
      reads this
    {
      Machine.IsUint64(micros)
    }

    /** `VirtualTimeSource()`: the counter starts at zero. */
    constructor Virtual()
      ensures kind == TimeSourceKind.Virtual && GetMicroseconds() == 0 && Valid()
    {
      kind := TimeSourceKind.Virtual;
      micros := 0;
    }

    /** `RealTimeSource()`: elapsed time since construction; the reading is
        an abstract value supplied by the environment. */
    constructor Real(reading: nat)
      requires Machine.IsUint64(reading)
      ensures kind == TimeSourceKind.Real && GetMicroseconds() == reading && Valid()
    {
      kind := TimeSourceKind.Real;
      micros := reading;
    }

    /** `get_microseconds()`. */
    function GetMicroseconds(): nat
      reads this
    {
      micros
    }

    /** `get_steady_clock_time()`: the same count as a steady-clock time point. */
    function GetSteadyClockTime(): (t: SteadyTimePoint)
      reads this
      ensures MicrosOf(t) == GetMicroseconds()
      ensures t.nanos % 1000 == 0 && t.nanos >= 0
    {
      SteadyTimePoint(micros * 1000)
    }

    /** `advance_time(us)`: adds exactly `us` to a virtual source (the
        uint64 counter is assumed not to overflow); the real source keeps the
        interface's default, which does nothing. */
    method AdvanceTime(us: nat)
      requires Valid()
      requires kind == TimeSourceKind.Virtual ==> Machine.IsUint64(micros + us)
      modifies this
      ensures Valid()
      ensures kind == TimeSourceKind.Virtual ==> GetMicroseconds() == old(GetMicroseconds()) + us
      ensures kind == TimeSourceKind.Real ==> GetMicroseconds() == old(GetMicroseconds())
    {
      if kind == TimeSourceKind.Virtual {
        micros := micros + us;
      }
    }
  }

  /** The reading after a sequence of `advance_time` calls on a virtual source. */
  function AdvancedBy(start: nat, steps: seq<nat>): (r: nat)
    ensures r >= start
    decreases |steps|
  {
    if steps == [] then start else AdvancedBy(start + steps[0], steps[1..])
  }

  function Sum(steps: seq<nat>): nat {
    if steps == [] then 0 else steps[0] + Sum(steps[1..])
  }

  /** Virtual time never decreases: after any sequence of advances it has
      moved by exactly their sum. */
  lemma {:induction false} AdvancedBySum(start: nat, steps: seq<nat>)
    ensures AdvancedBy(start, steps) == start + Sum(steps)
    decreases |steps|
  {
    if steps != [] {
      AdvancedBySum(start + steps[0], steps[1..]);
    }
  }

  /** A method-level witness of the same fact: advancing a virtual source by
      each step in turn reaches `AdvancedBy`. */
  method AdvanceAll(clock: TimeSource, steps: seq<nat>)
    requires clock.Valid() && clock.kind == TimeSourceKind.Virtual
    requires Machine.IsUint64(clock.micros + Sum(steps))
    modifies clock
    ensures clock.Valid()
    ensures clock.GetMicroseconds() == AdvancedBy(old(clock.GetMicroseconds()), steps)
    ensures clock.GetMicroseconds() >= old(clock.GetMicroseconds())
  {
    var i := 0;
    while i < |steps|
      invariant 0 <= i <= |steps| && clock.Valid()
      invariant AdvancedBy(old(clock.micros), steps) == AdvancedBy(clock.micros, steps[i..])
      invariant clock.micros + Sum(steps[i..]) == old(clock.micros) + Sum(steps)
    {
      assert steps[i..][1..] == steps[i + 1..];
      clock.AdvanceTime(steps[i]);
      i := i + 1;
    }
  }
}
