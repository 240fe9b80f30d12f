/**
 * A time of day given by hour, minute, second and millisecond. Every
 * comparison, equality included, goes through the total number of
 * milliseconds, so two times written with different fields can be equal.
 */
module Time {

  datatype Time = Time(hour: int, minute: int, second: int, millisecond: int)
  {
    /** The time as a number of milliseconds. */
    function Milliseconds(): (r: int)
      ensures Normalized() ==> hour * 3600000 <= r < (hour + 1) * 3600000
    {
      hour * 60 * 60 * 1000 + minute * 60 * 1000 + second * 1000 + millisecond
    }

    /** Every field below the hour lies in its clock range and the hour is not negative. */
    predicate Normalized() {
      0 <= hour && 0 <= minute < 60 && 0 <= second < 60 && 0 <= millisecond < 1000
    }
  }

  /** The time with all fields zero. */
  function Midnight(): (t: Time)
    ensures t.Milliseconds() == 0
    ensures t.Normalized()
  {
    Time(0, 0, 0, 0)
  }

  /** The time given by its fields; seconds and milliseconds default to zero. */
  function At(hour: int, minute: int, second: int := 0, millisecond: int := 0): (t: Time)
    ensures t.hour == hour && t.minute == minute && t.second == second && t.millisecond == millisecond
    ensures t.Milliseconds() == hour * 3600000 + minute * 60000 + second * 1000 + millisecond
  {
    Time(hour, minute, second, millisecond)
  }

  /**
   * `lhs == rhs`: equal fields make equal times, and two times that differ
   * in one field only are never equal.
   */
  predicate Equal(lhs: Time, rhs: Time): (r: bool)
    ensures lhs == rhs ==> r
    ensures r && lhs.minute == rhs.minute && lhs.second == rhs.second && lhs.millisecond == rhs.millisecond
            ==> lhs.hour == rhs.hour
    ensures r && lhs.hour == rhs.hour && lhs.second == rhs.second && lhs.millisecond == rhs.millisecond
            ==> lhs.minute == rhs.minute
    ensures r && lhs.hour == rhs.hour && lhs.minute == rhs.minute && lhs.millisecond == rhs.millisecond
            ==> lhs.second == rhs.second
  {
    lhs.Milliseconds() == rhs.Milliseconds()
  }

  /** `lhs < rhs`: irreflexive, and never true of two equal times. */
  predicate Less(lhs: Time, rhs: Time): (r: bool)
    ensures lhs == rhs ==> !r
    ensures r ==> !Equal(lhs, rhs)
    ensures !r && !Equal(lhs, rhs) ==> rhs.Milliseconds() < lhs.Milliseconds()
  {
    lhs.Milliseconds() < rhs.Milliseconds()
  }

  /** `lhs <= rhs`: less than or equal. */
  predicate LessEq(lhs: Time, rhs: Time): (r: bool)
    ensures r <==> Less(lhs, rhs) || Equal(lhs, rhs)
  {
    lhs.Milliseconds() <= rhs.Milliseconds()
  }

  /** `lhs >= rhs`: the reverse of `<=`. */
  predicate GreaterEq(lhs: Time, rhs: Time): (r: bool)
    ensures r <==> LessEq(rhs, lhs)
    ensures r <==> Greater(lhs, rhs) || Equal(lhs, rhs)
  {
    lhs.Milliseconds() >= rhs.Milliseconds()
  }

  /** `lhs > rhs`: the reverse of `<`. */
  predicate Greater(lhs: Time, rhs: Time): (r: bool)
    ensures r <==> Less(rhs, lhs)
  {
    lhs.Milliseconds() > rhs.Milliseconds()
  }

  /** Exactly one of `a < b`, `a == b` and `a > b` holds. */
  lemma Trichotomy(a: Time, b: Time)
    ensures Less(a, b) || Equal(a, b) || Greater(a, b)
    ensures !(Less(a, b) && Equal(a, b)) && !(Less(a, b) && Greater(a, b)) && !(Equal(a, b) && Greater(a, b))
  {
  }

  /** Equality is symmetric and transitive, and `<` is transitive. */
  lemma OrderLaws(a: Time, b: Time, c: Time)
    ensures Equal(a, b) <==> Equal(b, a)
    ensures Equal(a, b) && Equal(b, c) ==> Equal(a, c)
    ensures Less(a, b) && Less(b, c) ==> Less(a, c)
  {
  }

  /** Equality is by milliseconds, not by fields: one minute equals sixty seconds. */
  lemma MinuteEqualsSixtySeconds()
    ensures Equal(At(0, 1), At(0, 0, 60))
    ensures At(0, 1) != At(0, 0, 60)
  {
  }

  /** With `x < y`, a step of `k` dominates any remainder below `k`. */
  lemma ScaledStep(x: int, y: int, k: int, r1: int, r2: int)
    requires x < y && 0 <= r1 < k && 0 <= r2
    ensures x * k + r1 < y * k + r2
  {
    assert y * k - x * k == (y - x) * k;
    assert (y - x) * k >= k by {
      assert y - x >= 1;
    }
  }

  /**
   * On normalized times the millisecond order is the order of the fields
   * read from the hour down: `a < b` exactly when `a` comes first
   * lexicographically, and `a == b` exactly when all fields agree.
   */
  lemma NormalizedOrderIsLexicographic(a: Time, b: Time)
    requires a.Normalized() && b.Normalized()
    ensures Less(a, b) <==>
              a.hour < b.hour
              || (a.hour == b.hour && a.minute < b.minute)
              || (a.hour == b.hour && a.minute == b.minute && a.second < b.second)
              || (a.hour == b.hour && a.minute == b.minute && a.second == b.second && a.millisecond < b.millisecond)
    ensures Equal(a, b) <==> a == b
  {
    var ra := a.second * 1000 + a.millisecond;
    var rb := b.second * 1000 + b.millisecond;
    var ma := a.minute * 60000 + ra;
    var mb := b.minute * 60000 + rb;
    assert a.Milliseconds() == a.hour * 3600000 + ma;
    assert b.Milliseconds() == b.hour * 3600000 + mb;
    assert 0 <= ra < 60000 && 0 <= rb < 60000;
    assert 0 <= ma < 3600000 && 0 <= mb < 3600000 by {
      ScaledStep(a.minute, 60, 60000, ra, 0);
      ScaledStep(b.minute, 60, 60000, rb, 0);
    }
    if a.hour != b.hour {
      if a.hour < b.hour {
        ScaledStep(a.hour, b.hour, 3600000, ma, mb);
      } else {
        ScaledStep(b.hour, a.hour, 3600000, mb, ma);
      }
    } else if a.minute != b.minute {
      if a.minute < b.minute {
        ScaledStep(a.minute, b.minute, 60000, ra, rb);
      } else {
        ScaledStep(b.minute, a.minute, 60000, rb, ra);
      }
    } else if a.second != b.second {
      if a.second < b.second {
        ScaledStep(a.second, b.second, 1000, a.millisecond, b.millisecond);
      } else {
        ScaledStep(b.second, a.second, 1000, b.millisecond, a.millisecond);
      }
    }
  }
}
