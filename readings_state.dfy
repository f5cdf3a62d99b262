/**
 * The shared state of the Linux PID program's server: a bounded buffer of
 * converter readings (a `ConstGenericRingBuffer<u16, CAP>` that drops its
 * oldest reading when full) and the current and target values.
 */
module ReadingsState {

  /** `u16::MAX`, the padding of a short read-out. */
  const U16Max: nat := 0xFFFF

  ghost predicate AllReadings(s: seq<nat>) {
    forall j :: 0 <= j < |s| ==> s[j] <= 255
  }

  class State {
    /** `CAP`. */
    const capacity: nat
    /** The buffered readings, oldest first. */
    var readings: seq<nat>
    var current: nat
    var target: nat

    ghost predicate Valid()
      reads this
    {
      capacity > 0 && |readings| <= capacity && AllReadings(readings) && current <= U16Max && target <= U16Max
    }

    /** `State::new`: no readings, target and current 0. */
    constructor (capacity: nat)
      requires capacity > 0
      ensures Valid() && this.capacity == capacity
      ensures readings == [] && target == 0 && current == 0
    {
      this.capacity := capacity;
      readings := [];
      current := 0;
      target := 0;
    }

    /** `push`: the `u8` reading widened to `u16`; a full buffer drops its oldest reading. */
    method Push(value: nat)
      requires Valid() && value <= 255
      modifies this
      ensures Valid() && current == old(current) && target == old(target)
      ensures |old(readings)| < capacity ==> readings == old(readings) + [value]
      ensures |old(readings)| == capacity ==> readings == old(readings)[1..] + [value]
    {
      if |readings| == capacity {
        readings := readings[1..];
      }
      readings := readings + [value];
    }

    /**
     * `get_readings`: exactly `count` values, the buffered readings first
     * (cut to `count`) and `u16::MAX` after them; the buffer is emptied.
     */
    method GetReadings(count: nat) returns (result: seq<nat>)
      requires Valid()
      modifies this
      ensures Valid() && readings == [] && current == old(current) && target == old(target)
      ensures |result| == count
      ensures count <= |old(readings)| ==> result == old(readings)[..count]
      ensures count > |old(readings)| ==>
        && result[..|old(readings)|] == old(readings)
        && forall j :: |old(readings)| <= j < count ==> result[j] == U16Max
    {
      result := readings;
      readings := [];
      if count < |result| {
        result := result[..count];
      } else if count > |result| {
        var missing := count - |result|;
        result := result + seq(missing, _ => U16Max);
      }
    }

    method SetTarget(value: nat)
      requires Valid() && value <= U16Max
      modifies this
      ensures Valid() && target == value && current == old(current) && readings == old(readings)
    {
      target := value;
    }

    /** `get_target`: the target as a fraction of `u16::MAX`. */
    method GetTarget() returns (r: real)
      requires Valid()
      ensures r == target as real / U16Max as real && 0.0 <= r <= 1.0
    {
      r := target as real / U16Max as real;
    }

    method SetCurrent(value: nat)
      requires Valid() && value <= U16Max
      modifies this
      ensures Valid() && current == value && target == old(target) && readings == old(readings)
    {
      current := value;
    }

    method GetCurrent() returns (r: nat)
      requires Valid()
      ensures r == current
    {
      r := current;
    }
  }

  /** Padding never looks like a reading: every real reading is at most 255. */
  lemma PaddingIsNotAReading(readings: seq<nat>, j: nat)
    requires AllReadings(readings) && j < |readings|
    ensures readings[j] != U16Max
  {
  }

  /** Reading out twice in a row: the second read-out is padding only. */
  method GetReadingsTwice(s: State, count: nat) returns (first: seq<nat>, second: seq<nat>)
    requires s.Valid()
    modifies s
    ensures |first| == count && second == seq(count, _ => U16Max)
  {
    first := s.GetReadings(count);
    second := s.GetReadings(count);
  }

  /** `set_current(v)` then `get_current()` gives `v`, whatever `set_target` did in between. */
  method CurrentSurvivesTarget(s: State, v: nat, t: nat) returns (r: nat)
    requires s.Valid() && v <= U16Max && t <= U16Max
    modifies s
    ensures r == v
  {
    s.SetCurrent(v);
    s.SetTarget(t);
    r := s.GetCurrent();
  }
}
