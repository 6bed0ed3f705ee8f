/**
 * Duration and Moment of fenz/time.hpp: millisecond counts held in a signed
 * 64-bit integer. Signed overflow is undefined in the source, so every
 * operation requires its exact result to fit in 64 bits. The compound
 * assignments, which change the value of a variable in place, are methods
 * of DurationCell and MomentCell; everything else is a function.
 */
module Time {

  const INT64_MIN: int := -0x8000_0000_0000_0000
  const INT64_MAX: int := 0x7FFF_FFFF_FFFF_FFFF

  predicate InInt64(x: int)
  {
    INT64_MIN <= x <= INT64_MAX
  }

  /** The source's `long long`. */
  newtype int64 = x: int | InInt64(x)

  /** A span of time, in milliseconds; it may be negative. */
  datatype Duration = Duration(value: int64) {

    /** millis(): the number of milliseconds. */
    function Millis(): int64
    {
      value
    }

    /** fromMillis(ms): the Duration of ms milliseconds. */
    static function FromMillis(ms: int64): (d: Duration)
      ensures d.Millis() == ms
    {
      Duration(ms)
    }

    /** operator+(Duration, Duration) */
    function Plus(rhs: Duration): Duration
      requires InInt64(value as int + rhs.value as int)
    {
      FromMillis(value + rhs.value)
    }

    /** operator-(Duration, Duration) */
    function Minus(rhs: Duration): Duration
      requires InInt64(value as int - rhs.value as int)
    {
      FromMillis(value - rhs.value)
    }

    /** operator*(Duration, long long) */
    function Times(coefficient: int64): Duration
      requires InInt64(value as int * coefficient as int)
    {
      FromMillis(value * coefficient)
    }

    predicate Less(rhs: Duration) { value < rhs.value }
    predicate Greater(rhs: Duration) { value > rhs.value }
    predicate AtMost(rhs: Duration) { value <= rhs.value }
    predicate AtLeast(rhs: Duration) { value >= rhs.value }
    predicate Equal(rhs: Duration) { value == rhs.value }
  }

  /** A point in time, in milliseconds since the time source's epoch. */
  datatype Moment = Moment(value: int64) {

    /** operator+(Moment, Duration) */
    function Plus(d: Duration): Moment
      requires InInt64(value as int + d.value as int)
    {
      Moment(value + d.value)
    }

    /** operator-(Moment, Duration) */
    function Minus(d: Duration): Moment
      requires InInt64(value as int - d.value as int)
    {
      Moment(value - d.value)
    }

    /** operator-(Moment, Moment): the Duration from earlier to this Moment. */
    function Since(earlier: Moment): Duration
      requires InInt64(value as int - earlier.value as int)
    {
      Duration.FromMillis(value - earlier.value)
    }

    predicate Less(rhs: Moment) { value < rhs.value }
    predicate Greater(rhs: Moment) { value > rhs.value }
    predicate AtMost(rhs: Moment) { value <= rhs.value }
    predicate AtLeast(rhs: Moment) { value >= rhs.value }
    predicate Equal(rhs: Moment) { value == rhs.value }
  }

  /** fromMillis and millis are inverse to each other. */
  lemma MillisRoundTrip(ms: int64, d: Duration)
    ensures Duration.FromMillis(ms).Millis() == ms
    ensures Duration.FromMillis(d.Millis()) == d
  {
  }

  /** The binary Duration operators compute the sum, difference and product of the millisecond counts. */
  lemma DurationArithmetic(a: Duration, b: Duration, k: int64)
    ensures InInt64(a.value as int + b.value as int) ==>
              a.Plus(b).Millis() as int == a.Millis() as int + b.Millis() as int
    ensures InInt64(a.value as int - b.value as int) ==>
              a.Minus(b).Millis() as int == a.Millis() as int - b.Millis() as int
    ensures InInt64(a.value as int * k as int) ==>
              a.Times(k).Millis() as int == a.Millis() as int * k as int
  {
  }

  /** Adding a Duration is commutative and undone by subtracting it. */
  lemma DurationPlusMinus(a: Duration, b: Duration)
    requires InInt64(a.value as int + b.value as int)
    ensures a.Plus(b) == b.Plus(a)
    ensures a.Plus(b).Minus(b) == a
    ensures a.Plus(b).Minus(a) == b
  {
  }

  /** Scaling a Duration: by one leaves it, by zero empties it, and it distributes over `+`. */
  lemma DurationTimesLaws(a: Duration, b: Duration, k: int64)
    ensures a.Times(1) == a
    ensures a.Times(0) == Duration.FromMillis(0)
    ensures InInt64(a.value as int + b.value as int) && InInt64(a.value as int * k as int)
            && InInt64(b.value as int * k as int) && InInt64((a.value as int + b.value as int) * k as int)
            ==> a.Plus(b).Times(k) == a.Times(k).Plus(b.Times(k))
  {
  }

  /**
   * Moment ± Duration moves the Moment by exactly that Duration:
   * (m + d) - m == d, and m + d - d == m.
   */
  lemma MomentRoundTrip(m: Moment, d: Duration)
    requires InInt64(m.value as int + d.value as int)
    ensures m.Plus(d).Since(m) == d
    ensures m.Plus(d).Minus(d) == m
  {
  }

  /** Subtracting then adding a Duration returns to the same Moment. */
  lemma MomentMinusPlus(m: Moment, d: Duration)
    requires InInt64(m.value as int - d.value as int)
    ensures m.Minus(d).Plus(d) == m
    ensures m.Since(m.Minus(d)) == d
  {
  }

  /**
   * Moment - Moment is negative exactly when the left Moment is the earlier
   * one, zero exactly when they are equal, and adding it back to the right
   * Moment gives the left one.
   */
  lemma SinceSign(later: Moment, earlier: Moment)
    requires InInt64(later.value as int - earlier.value as int)
    ensures later.Since(earlier).Millis() < 0 <==> later.Less(earlier)
    ensures later.Since(earlier).Millis() == 0 <==> later.Equal(earlier)
    ensures earlier.Plus(later.Since(earlier)) == later
  {
  }

  /**
   * The Moment comparisons agree with integer comparison of the millisecond
   * counts, and so form a total order in which each operator is the
   * complement or converse of another.
   */
  lemma MomentOrder(a: Moment, b: Moment, c: Moment)
    ensures a.Less(b) <==> a.value < b.value
    ensures a.Equal(b) <==> a == b
    ensures a.AtMost(b) <==> !a.Greater(b)
    ensures a.AtLeast(b) <==> !a.Less(b)
    ensures a.Greater(b) <==> b.Less(a)
    ensures a.AtMost(b) <==> a.Less(b) || a.Equal(b)
    ensures a.AtMost(b) || b.AtMost(a)
    ensures a.AtMost(b) && b.AtMost(a) ==> a == b
    ensures a.AtMost(b) && b.AtMost(c) ==> a.AtMost(c)
    ensures !a.Less(a)
  {
  }

  /** The same for Durations. */
  lemma DurationOrder(a: Duration, b: Duration, c: Duration)
    ensures a.Less(b) <==> a.Millis() < b.Millis()
    ensures a.Equal(b) <==> a == b
    ensures a.AtMost(b) <==> !a.Greater(b)
    ensures a.AtLeast(b) <==> !a.Less(b)
    ensures a.Greater(b) <==> b.Less(a)
    ensures a.AtMost(b) <==> a.Less(b) || a.Equal(b)
    ensures a.AtMost(b) || b.AtMost(a)
    ensures a.AtMost(b) && b.AtMost(a) ==> a == b
    ensures a.AtMost(b) && b.AtMost(c) ==> a.AtMost(c)
    ensures !a.Less(a)
  {
  }

  /** A Duration variable, for the compound assignments that update it in place. */
  class DurationCell {
    var duration: Duration

    constructor (d: Duration)
      ensures duration == d
    {
      duration := d;
    }

    /** operator+=: the variable becomes old + rhs; returns the variable itself. */
    method AddAssign(rhs: Duration) returns (self: DurationCell)
      requires InInt64(duration.value as int + rhs.value as int)
      modifies this
      ensures self == this
      ensures duration == old(duration).Plus(rhs)
    {
      duration := duration.(value := duration.value + rhs.value);
      self := this;
    }

    /** operator-=: the variable becomes old - rhs; returns the variable itself. */
    method SubAssign(rhs: Duration) returns (self: DurationCell)
      requires InInt64(duration.value as int - rhs.value as int)
      modifies this
      ensures self == this
      ensures duration == old(duration).Minus(rhs)
    {
      duration := duration.(value := duration.value - rhs.value);
      self := this;
    }

    /** operator*=: the variable becomes old * coefficient; returns the variable itself. */
    method MulAssign(coefficient: int64) returns (self: DurationCell)
      requires InInt64(duration.value as int * coefficient as int)
      modifies this
      ensures self == this
      ensures duration == old(duration).Times(coefficient)
    {
      duration := duration.(value := duration.value * coefficient);
      self := this;
    }
  }

  /** A Moment variable, for the compound assignments that update it in place. */
  class MomentCell {
    var moment: Moment

    constructor (m: Moment)
      ensures moment == m
    {
      moment := m;
    }

    /** Moment::operator+=: the variable becomes old + d; returns the variable itself. */
    method AddAssign(d: Duration) returns (self: MomentCell)
      requires InInt64(moment.value as int + d.value as int)
      modifies this
      ensures self == this
      ensures moment == old(moment).Plus(d)
    {
      moment := moment.(value := moment.value + d.value);
      self := this;
    }

    /** Moment::operator-=: the variable becomes old - d; returns the variable itself. */
    method SubAssign(d: Duration) returns (self: MomentCell)
      requires InInt64(moment.value as int - d.value as int)
      modifies this
      ensures self == this
      ensures moment == old(moment).Minus(d)
    {
      moment := moment.(value := moment.value - d.value);
      self := this;
    }
  }
}
