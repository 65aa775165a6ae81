/** The air-quality threshold table: the device's AQI reading is compared
    with each threshold from the highest down, and the first threshold it
    reaches (with `>=`) names the HomeKit category. A reading that reaches
    none of them, a negative or non-numeric one, yields no category at all. */
module AirQualityTable {
  import opened Js
  import opened Homekit

  datatype Option<+T> = None | Some(value: T)

  /** One row of the table: a threshold and the category it names. */
  datatype Level = Level(threshold: real, category: AirQuality)

  /** The table as the adapter scans it. */
  const Levels: seq<Level> := [
    Level(200.0, Poor),
    Level(150.0, Inferior),
    Level(100.0, Fair),
    Level(50.0, Good),
    Level(0.0, Excellent)
  ]

  /** Row `i` is the first row whose threshold `v` reaches. */
  predicate FirstReached(levels: seq<Level>, v: Value, i: int) {
    && 0 <= i < |levels|
    && AtLeast(v, levels[i].threshold)
    && forall j :: 0 <= j < i ==> !AtLeast(v, levels[j].threshold)
  }

  /** The category of the first row whose threshold `v` reaches. */
  function FirstMatch(levels: seq<Level>, v: Value): (r: Option<AirQuality>)
    ensures r.None? <==> forall i :: 0 <= i < |levels| ==> !AtLeast(v, levels[i].threshold)
    ensures r.Some? ==> exists i :: FirstReached(levels, v, i) && r.value == levels[i].category
  {
    if |levels| == 0 then None
    else if AtLeast(v, levels[0].threshold) then Some(levels[0].category)
    else
      var r := FirstMatch(levels[1..], v);
      if r.Some? then
        ghost var i :| FirstReached(levels[1..], v, i) && r.value == levels[1..][i].category;
        assert FirstReached(levels, v, i + 1);
        r
      else r
  }

  /** The category band of a numeric reading, written as separate ranges:
      the reference the table scan is checked against. */
  function Band(x: real): Option<AirQuality> {
    if 200.0 <= x then Some(Poor)
    else if 150.0 <= x < 200.0 then Some(Inferior)
    else if 100.0 <= x < 150.0 then Some(Fair)
    else if 50.0 <= x < 100.0 then Some(Good)
    else if 0.0 <= x < 50.0 then Some(Excellent)
    else None
  }

  /** Scanning the table gives each reading its band; a reading that is NaN
      after numeric conversion gets no category. */
  lemma ScanMatchesBands(v: Value)
    ensures var n := ToNumber(v);
      FirstMatch(Levels, v) == if n.Num? then Band(n.x) else None
  {
    var n := ToNumber(v);
    var r := FirstMatch(Levels, v);
    if n.Num? {
      var x := n.x;
      if x >= 0.0 {
        assert AtLeast(v, Levels[4].threshold);
        var i :| FirstReached(Levels, v, i) && r.value == Levels[i].category;
        if i > 0 { assert !AtLeast(v, Levels[0].threshold); }
        if i > 1 { assert !AtLeast(v, Levels[1].threshold); }
        if i > 2 { assert !AtLeast(v, Levels[2].threshold); }
        if i > 3 { assert !AtLeast(v, Levels[3].threshold); }
      } else {
        assert forall i :: 0 <= i < |Levels| ==> !AtLeast(v, Levels[i].threshold);
      }
    } else {
      assert forall i :: 0 <= i < |Levels| ==> !AtLeast(v, Levels[i].threshold);
    }
  }

  /** The boundaries are inclusive from below: 200 is poor, 150 inferior,
      100 fair, 50 good, 49 and 0 excellent, and -1 has no category. */
  lemma Boundaries()
    ensures FirstMatch(Levels, Num(200.0)) == Some(Poor)
    ensures FirstMatch(Levels, Num(199.0)) == Some(Inferior)
    ensures FirstMatch(Levels, Num(150.0)) == Some(Inferior)
    ensures FirstMatch(Levels, Num(100.0)) == Some(Fair)
    ensures FirstMatch(Levels, Num(50.0)) == Some(Good)
    ensures FirstMatch(Levels, Num(49.0)) == Some(Excellent)
    ensures FirstMatch(Levels, Num(0.0)) == Some(Excellent)
    ensures FirstMatch(Levels, Num(-1.0)) == None
  {
    ScanMatchesBands(Num(200.0));
    ScanMatchesBands(Num(199.0));
    ScanMatchesBands(Num(150.0));
    ScanMatchesBands(Num(100.0));
    ScanMatchesBands(Num(50.0));
    ScanMatchesBands(Num(49.0));
    ScanMatchesBands(Num(0.0));
    ScanMatchesBands(Num(-1.0));
  }

  /** A reading gets a category exactly when it is a non-negative number,
      and that category is never `Unknown`. */
  lemma CategorisedIffNonNegative(v: Value)
    ensures FirstMatch(Levels, v).Some? <==> AtLeast(v, 0.0)
    ensures FirstMatch(Levels, v) != Some(Unknown)
  {
    ScanMatchesBands(v);
  }

  /** A higher reading never gets a better category (category codes grow
      from excellent to poor), and once a reading is categorised every
      higher one is too. */
  lemma Monotone(v: Value, w: Value)
    requires ToNumber(v).Num? && ToNumber(w).Num? && ToNumber(v).x <= ToNumber(w).x
    requires FirstMatch(Levels, v).Some?
    ensures FirstMatch(Levels, w).Some?
    ensures FirstMatch(Levels, v).value.Code() <= FirstMatch(Levels, w).value.Code()
  {
    ScanMatchesBands(v);
    ScanMatchesBands(w);
  }
}
