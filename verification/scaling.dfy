/** The rotation-speed scale. The device's favourite level and HomeKit's
    0-100 rotation speed are related by the factor `m = n / 100`, where `n`
    is the configured maximum fan level (16 by default). Reading divides by
    `m`, rounds and caps at 100; writing multiplies by `m` and rounds. The
    arithmetic is over exact reals; JavaScript doubles are idealised. */
module Scaling {
  import opened Js

  /** The factor for the default maximum fan level of 16. */
  const DefaultFactor: real := 16.0 / 100.0

  /** `Math.min(100, Math.round(level / m))`. */
  function SpeedOfLevel(level: real, m: real): (s: int)
    requires m != 0.0
    ensures s <= 100
    ensures level >= 0.0 && m > 0.0 ==> s >= 0
    ensures s < 100 ==> level / m - 0.5 < s as real <= level / m + 0.5
    ensures s == 100 ==> level / m + 0.5 >= 100.0
  {
    var r := RoundHalfUp(level / m);
    if r < 100 then r else 100
  }

  /** `Math.round(speed * m)`. */
  function LevelOfSpeed(speed: real, m: real): (l: int)
    ensures speed * m - 0.5 < l as real <= speed * m + 0.5
    ensures speed >= 0.0 && m >= 0.0 ==> l >= 0
  {
    RoundHalfUp(speed * m)
  }

  /** With the default factor, speed 50 is written as level 8 and level 8
      reads back as 50. */
  lemma DefaultScenario()
    ensures LevelOfSpeed(50.0, DefaultFactor) == 8
    ensures SpeedOfLevel(8.0, DefaultFactor) == 50
  {
    assert 50.0 * DefaultFactor == 8.0;
    assert 8.0 / DefaultFactor == 50.0;
  }

  /** A write followed by a read is not within one percent in general: with
      the default factor, speed 3 is written as level 0, which reads as 0. */
  lemma SmallSpeedReadsBackAsZero()
    ensures LevelOfSpeed(3.0, DefaultFactor) == 0
    ensures SpeedOfLevel(0.0, DefaultFactor) == 0
  {
    assert 3.0 * DefaultFactor == 0.48;
  }

  lemma DivideBounds(a: real, b: real, c: real, m: real)
    requires m > 0.0 && a <= b <= c
    ensures a / m <= b / m <= c / m
  {
  }

  /** A value strictly within half a step of an integer rounds to it. */
  lemma RoundsTo(y: real, k: int)
    requires k as real - 0.5 < y < k as real + 0.5
    ensures RoundHalfUp(y) == k
  {
  }

  /** The written level, scaled back, lies within `1/(2m)` of the speed. */
  lemma LevelScaledBack(s: real, m: real)
    requires m > 0.0
    ensures var l := LevelOfSpeed(s, m) as real;
      s - 0.5 / m <= l / m <= s + 0.5 / m
  {
    var l := LevelOfSpeed(s, m) as real;
    var sm := s * m;
    DivideBounds(sm - 0.5, l, sm + 0.5, m);
    assert (sm - 0.5) / m == s - 0.5 / m;
    assert (sm + 0.5) / m == s + 0.5 / m;
  }

  /** Writing a speed and reading it back is off by at most `1/2 + 1/(2m)`:
      the level rounds away at most half a step of size `1/m`, and the read
      rounds once more. */
  lemma WriteThenReadBounded(s: int, m: real)
    requires 0 <= s <= 100 && m > 0.0
    ensures var back := SpeedOfLevel(LevelOfSpeed(s as real, m) as real, m);
      s as real - 0.5 - 0.5 / m <= back as real <= s as real + 0.5 + 0.5 / m
  {
    LevelScaledBack(s as real, m);
  }

  /** For a factor of at least 1 (a configured maximum of 100 or more), a
      written speed reads back exactly. */
  lemma WriteThenReadExact(s: int, m: real)
    requires 0 <= s <= 100 && m >= 1.0
    ensures SpeedOfLevel(LevelOfSpeed(s as real, m) as real, m) == s
  {
    var l := LevelOfSpeed(s as real, m);
    if m == 1.0 {
      assert l == s;
      RoundsTo(l as real / m, s);
    } else {
      LevelScaledBack(s as real, m);
      assert 0.5 / m < 0.5;
      RoundsTo(l as real / m, s);
    }
  }

  /** For a factor of at most 1 (a configured maximum of 100 or less), every
      level within range survives being read as a speed and written back. */
  lemma ReadThenWriteExact(l: int, m: real)
    requires 0.0 < m <= 1.0 && 0 <= l && l as real <= 100.0 * m
    ensures LevelOfSpeed(SpeedOfLevel(l as real, m) as real, m) == l
  {
    var y := l as real / m;
    LevelScaledUp(l as real, m);
    var s := SpeedOfLevel(l as real, m);
    SpeedNearQuotient(l as real, m);
    var d := s as real - y;
    if m == 1.0 {
      assert y == l as real;
      RoundsTo(y, l);
      assert s == l;
    } else {
      StepTimesFactor(d, m);
      Distribute(y, d, m);
      assert s as real * m == l as real + d * m;
      RoundsTo(s as real * m, l);
    }
  }

  /** Uncapped, the decoded speed is within half a step of the quotient. */
  lemma SpeedNearQuotient(level: real, m: real)
    requires m > 0.0 && level / m <= 100.0
    ensures -0.5 < SpeedOfLevel(level, m) as real - level / m <= 0.5
  {
  }

  lemma LevelScaledUp(l: real, m: real)
    requires m > 0.0 && l <= 100.0 * m
    ensures (l / m) * m == l
    ensures l / m <= 100.0
  {
    DivideBounds(l, l, 100.0 * m, m);
  }

  lemma Distribute(y: real, d: real, m: real)
    ensures (y + d) * m == y * m + d * m
  {
  }

  lemma StepTimesFactor(d: real, m: real)
    requires -0.5 < d <= 0.5 && 0.0 < m < 1.0
    ensures -0.5 < d * m < 0.5
  {
    if d >= 0.0 {
      assert d * m <= d;
    } else {
      assert d * m >= d;
    }
  }
}
