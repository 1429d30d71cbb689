/** Properties of the thermal model: the temperature conversions, which
    trip point decides the state, what `trip_points` counts, the type flag
    that carries over from sensor to sensor, and a worked example. */
module AcpiThermalFacts {
  import opened CLib
  import opened AcpiFields
  import opened AcpiThermal

  // ---------------------------------------------------------------------
  // get_real_temp

  /** Each scale is an invertible, strictly increasing linear map of the
      Celsius value, named by its unit. */
  lemma GetRealTempMeaning(t: real, units: int)
    ensures units == TempCelsius ==> GetRealTemp(t, units) == Reading(t, "degrees C")
    ensures units == TempFahrenheit ==>
      GetRealTemp(t, units).scale == "degrees F" && (GetRealTemp(t, units).value - 32.0) / 1.8 == t
    ensures units != TempCelsius && units != TempFahrenheit ==>
      GetRealTemp(t, units).scale == "kelvin" && GetRealTemp(t, units).value - AbsoluteZero == t
  {
  }

  lemma GetRealTempIncreasing(t: real, u: real, units: int)
    ensures t < u <==> GetRealTemp(t, units).value < GetRealTemp(u, units).value
  {
  }

  /** Absolute zero: -273.1 degrees C reads 0 kelvin and -459.58 degrees F. */
  lemma GetRealTempAbsoluteZero()
    ensures GetRealTemp(-AbsoluteZero, TempKelvin).value == 0.0
    ensures GetRealTemp(-AbsoluteZero, TempFahrenheit).value == -459.58
  {
  }

  // ---------------------------------------------------------------------
  // the attribute names

  /** The names are what `sprintf("trip_point_%d_temp", i)` and
      `sprintf("trip_point_%d_type", i)` build. */
  lemma TripNamesFormat(i: nat)
    requires i < TripPoints
    ensures TripTempNames[i] == "trip_point_" + [DigitChar(i)] + "_temp"
    ensures TripTypeNames[i] == "trip_point_" + [DigitChar(i)] + "_type"
  {
  }

  /** Distinct indices have distinct names, and no name is one of the
      attributes tested before the trip-point loop. */
  lemma TripNamesDistinct(i: nat, j: nat)
    requires i < TripPoints && j < TripPoints
    ensures TripTypeNames[i] == TripTypeNames[j] ==> i == j
    ensures TripTempNames[i] != TripTypeNames[j]
  {
    TripNamesFormat(i);
    TripNamesFormat(j);
    if TripTypeNames[i] == TripTypeNames[j] {
      assert TripTypeNames[i][11] == TripTypeNames[j][11];
    }
    assert TripTempNames[i][14] != TripTypeNames[j][14];
  }

  // ---------------------------------------------------------------------
  // the trip-point loop over one field

  /** The trip-point loop sets trip point j's type exactly when the field
      is trip point j's type field, from pass i on. */
  lemma {:induction false} TripUpdateTypes(t: Trips, f: Field, i: nat)
    requires ValidTrips(t) && i <= TripPoints
    ensures forall j :: i <= j < TripPoints ==>
      TripUpdate(t, f, i).points[j].tripType == (if f.attr == TripTypeNames[j] then Some(f.value) else t.points[j].tripType)
    ensures forall j :: 0 <= j < i ==> TripUpdate(t, f, i).points[j].tripType == t.points[j].tripType
    decreases TripPoints - i
  {
    if i < TripPoints {
      TripUpdateTypes(TripAt(t, f, i), f, i + 1);
    }
  }

  /** The trip-point loop raises `trip_points` to j when the field is trip
      point j's type field and leaves it alone otherwise. */
  lemma {:induction false} TripUpdateHighest(t: Trips, f: Field, i: nat)
    requires ValidTrips(t) && i <= TripPoints
    ensures (forall j :: i <= j < TripPoints ==> f.attr != TripTypeNames[j]) ==> TripUpdate(t, f, i).highest == t.highest
    ensures forall j :: i <= j < TripPoints && f.attr == TripTypeNames[j] ==>
      TripUpdate(t, f, i).highest == (if j > t.highest then j else t.highest)
    decreases TripPoints - i
  {
    if i < TripPoints {
      TripUpdateHighest(TripAt(t, f, i), f, i + 1);
      forall j | i < j < TripPoints
        ensures f.attr == TripTypeNames[j] ==> f.attr != TripTypeNames[i]
      {
        TripNamesDistinct(i, j);
      }
    }
  }

  // ---------------------------------------------------------------------
  // trip_points over a sensor's fields

  /** A trip point has a type exactly when the sensor has its type field. */
  lemma {:induction false} TripTypeIsSeen(fields: seq<Field>, typeZone: bool)
    ensures forall j: nat :: j < TripPoints ==>
      (ScanThermal(fields, typeZone).trips.points[j].tripType.Some? <==> HasAttr(fields, TripTypeNames[j]))
  {
    if fields != [] {
      var front := fields[..|fields| - 1];
      var f := fields[|fields| - 1];
      var s := ScanThermal(front, typeZone);
      TripTypeIsSeen(front, typeZone);
      forall j: nat | j < TripPoints
        ensures HasAttr(fields, TripTypeNames[j]) <==> HasAttr(front, TripTypeNames[j]) || f.attr == TripTypeNames[j]
      {
        HasAttrSnoc(fields, TripTypeNames[j]);
      }
      if f.attr in {"state", "type", "temperature", "sys_temp"} {
        forall j: nat | j < TripPoints ensures f.attr != TripTypeNames[j] {
          assert |TripTypeNames[j]| == 17;
        }
      } else {
        TripUpdateTypes(s.trips, f, 0);
      }
    }
  }

  /** `trip_points` is the highest index whose type field the sensor has,
      and -1 when it has none. */
  lemma {:induction false} TripPointsIsHighestType(fields: seq<Field>, typeZone: bool)
    ensures var t := ScanThermal(fields, typeZone).trips;
      (t.highest >= 0 ==> HasAttr(fields, TripTypeNames[t.highest])) &&
      (forall j: nat :: t.highest < j < TripPoints ==> !HasAttr(fields, TripTypeNames[j]))
  {
    if fields != [] {
      var front := fields[..|fields| - 1];
      var f := fields[|fields| - 1];
      var s := ScanThermal(front, typeZone);
      TripPointsIsHighestType(front, typeZone);
      forall j: nat | j < TripPoints
        ensures HasAttr(fields, TripTypeNames[j]) <==> HasAttr(front, TripTypeNames[j]) || f.attr == TripTypeNames[j]
      {
        HasAttrSnoc(fields, TripTypeNames[j]);
      }
      if f.attr in {"state", "type", "temperature", "sys_temp"} {
        forall j: nat | j < TripPoints ensures f.attr != TripTypeNames[j] {
          assert |TripTypeNames[j]| == 17;
        }
      } else {
        TripUpdateHighest(s.trips, f, 0);
      }
    }
  }

  // ---------------------------------------------------------------------
  // the active trip point

  /** The search from index i finds the first reached trip point among
      i .. trip_points, in index order, or reports that none is reached. */
  lemma {:induction false} FirstReachedMeaning(t: Trips, temperature: real, i: nat)
    requires ValidTrips(t) && i <= TripPoints
    ensures FirstReached(t, temperature, i).Some? ==>
      var k := FirstReached(t, temperature, i).value;
      i <= k <= t.highest && Reached(t, temperature, k) &&
      forall j: nat :: i <= j < k ==> !Reached(t, temperature, j)
    ensures FirstReached(t, temperature, i).None? ==>
      forall j: nat :: i <= j <= t.highest ==> !Reached(t, temperature, j)
    decreases TripPoints - i
  {
    if !(i as int > t.highest || i == TripPoints) && !Reached(t, temperature, i) {
      FirstReachedMeaning(t, temperature, i + 1);
    }
  }

  /** The state after the trip-point loop: when no trip point up to
      trip_points is reached, the state from the fields stands; otherwise
      the type of the lowest-numbered reached trip point replaces it, even
      when a later trip point has a higher temperature. */
  lemma SelectedStateRule(s: ThermalScan)
    requires ValidTrips(s.trips)
    ensures (forall j: nat :: j <= s.trips.highest ==> !Reached(s.trips, s.temperature, j)) ==>
      SelectedState(s) == s.state
    ensures forall k: nat ::
      (k <= s.trips.highest && Reached(s.trips, s.temperature, k) &&
       forall j: nat :: j < k ==> !Reached(s.trips, s.temperature, j)) ==>
      SelectedState(s) == s.trips.points[k].tripType
  {
    FirstReachedMeaning(s.trips, s.temperature, 0);
  }

  /** A reached trip point that has a temperature but no type field (its
      type is left NULL) leaves the sensor without a state: it prints an
      empty slot, or nothing. */
  lemma NullTripTypeEmptySlot(s: ThermalScan, k: nat, num: nat, showEmptySlots: bool, units: int, showTripPoints: bool)
    requires ValidTrips(s.trips) && k <= s.trips.highest && Reached(s.trips, s.temperature, k)
    requires forall j: nat :: j < k ==> !Reached(s.trips, s.temperature, j)
    requires s.trips.points[k].tripType.None?
    ensures ThermalLines(s, num, showEmptySlots, units, showTripPoints) ==
      if showEmptySlots then [ThermalSlotEmpty(num)] else []
  {
    SelectedStateRule(s);
  }

  /** Trip point 0 has a temperature and no type; trip point 1's type makes
      trip_points 1, so trip point 0 is searched, reached, and blanks the
      state. */
  lemma NullTripTypeExample(v: string, w: string)
    requires GetUnitValue(v) == 45000 && GetUnitValue(w) == 40000
    ensures ScanThermal([Field("sys_temp", v), Field("trip_point_0_temp", w), Field("trip_point_1_type", "hot")], true)
      == ThermalScan(45.0, Trips([TripPoint(40.0, None), TripPoint(0.0, Some("hot")), NoTrip, NoTrip, NoTrip], 1),
                     Some("ok"), true)
    ensures ThermalReport([[Field("sys_temp", v), Field("trip_point_0_temp", w), Field("trip_point_1_type", "hot")]],
                          true, TempCelsius, true) == [ThermalSlotEmpty(0)]
  {
    var fields := [Field("sys_temp", v), Field("trip_point_0_temp", w), Field("trip_point_1_type", "hot")];
    var s1 := ThermalStart(true).(temperature := 45.0, state := Some("ok"));
    assert ScanThermal(fields[..1], true) == s1 by {
      assert fields[..1][..0] == [];
    }
    var s2 := s1.(trips := Trips([TripPoint(40.0, None), NoTrip, NoTrip, NoTrip, NoTrip], -1));
    assert ScanThermal(fields[..2], true) == s2 by {
      assert fields[..2][..1] == fields[..1];
      TripExampleTemp(s1.trips, w);
    }
    var s3 := s2.(trips := Trips([TripPoint(40.0, None), TripPoint(0.0, Some("hot")), NoTrip, NoTrip, NoTrip], 1));
    assert ScanThermal(fields, true) == s3 by {
      assert fields[..2] == fields[..|fields| - 1];
      TripExampleType(s2.trips);
    }
    assert Reached(s3.trips, 45.0, 0);
    NullTripTypeEmptySlot(s3, 0, 0, true, TempCelsius, true);
    assert [fields][..0] == [];
  }

  lemma TripExampleTemp(t: Trips, w: string)
    requires t == NoTrips && GetUnitValue(w) == 40000
    ensures TripUpdate(t, Field("trip_point_0_temp", w), 0) ==
      Trips([TripPoint(40.0, None), NoTrip, NoTrip, NoTrip, NoTrip], -1)
  {
  }

  lemma TripExampleType(t: Trips)
    requires t == Trips([TripPoint(40.0, None), NoTrip, NoTrip, NoTrip, NoTrip], -1)
    ensures TripUpdate(t, Field("trip_point_1_type", "hot"), 0) ==
      Trips([TripPoint(40.0, None), TripPoint(0.0, Some("hot")), NoTrip, NoTrip, NoTrip], 1)
  {
  }

  // ---------------------------------------------------------------------
  // the type flag

  /** The last `type` field processed decides whether the sensor is a
      thermal zone: its value mentions "thermal zone" or "acpitz". */
  lemma {:induction false} ZoneLastTypeField(fields: seq<Field>, i: nat, typeZone: bool)
    requires i < |fields| && fields[i].attr == "type" && NoAttrAfter(fields, "type", i)
    ensures ScanThermal(fields, typeZone).typeZone ==
      (Contains(fields[i].value, "thermal zone") || Contains(fields[i].value, "acpitz"))
  {
    var front := fields[..|fields| - 1];
    if i < |fields| - 1 {
      assert fields[|fields| - 1].attr != "type";
      assert front[i] == fields[i];
      NoAttrAfterFront(fields, "type", i);
      ZoneLastTypeField(front, i, typeZone);
    }
  }

  /** A sensor without a `type` field keeps the flag the previous sensor
      left. */
  lemma {:induction false} ZoneCarriesOver(fields: seq<Field>, typeZone: bool)
    requires NoAttrAfter(fields, "type", -1)
    ensures ScanThermal(fields, typeZone).typeZone == typeZone
  {
    if fields != [] {
      NoAttrAfterFront(fields, "type", -1);
      ZoneCarriesOver(fields[..|fields| - 1], typeZone);
      assert fields[|fields| - 1].attr != "type";
    }
  }

  /** So after a sensor that is not a zone, a sensor without a `type` field
      prints nothing and takes no number. */
  lemma SkippedAfterNonZone(devices: seq<seq<Field>>, d: seq<Field>, showEmptySlots: bool, units: int,
                            showTripPoints: bool)
    requires !ZoneAfter(devices) && NoAttrAfter(d, "type", -1)
    ensures !ZoneAfter(devices + [d])
    ensures ThermalCount(devices + [d]) == ThermalCount(devices)
    ensures ThermalReport(devices + [d], showEmptySlots, units, showTripPoints) ==
      ThermalReport(devices, showEmptySlots, units, showTripPoints)
  {
    assert (devices + [d])[..|devices|] == devices;
    ZoneCarriesOver(d, false);
  }

  // ---------------------------------------------------------------------
  // numbering

  /** The lines of a sensor all carry its number. */
  lemma {:induction false} TripLinesNumbered(t: Trips, num: nat, units: int, n: nat)
    requires ValidTrips(t) && n <= TripPoints
    ensures forall i :: 0 <= i < |TripLinesBelow(t, num, units, n)| ==> TripLinesBelow(t, num, units, n)[i].num == num
  {
    if n > 0 {
      TripLinesNumbered(t, num, units, n - 1);
    }
  }

  predicate ThermalNumbersBelow(lines: seq<ThermalLine>, bound: nat)
  {
    forall i :: 0 <= i < |lines| ==> lines[i].num < bound
  }

  lemma ThermalNumbersConcat(a: seq<ThermalLine>, b: seq<ThermalLine>, bound: nat)
    requires ThermalNumbersBelow(a, bound) && ThermalNumbersBelow(b, bound)
    ensures ThermalNumbersBelow(a + b, bound)
  {
    forall i | 0 <= i < |a + b| ensures (a + b)[i].num < bound {
      if i >= |a| {
        assert (a + b)[i] == b[i - |a|];
      }
    }
  }

  /** Zones are numbered from 0 in processing order: every line of the
      report carries a number below the count of zones. */
  lemma {:induction false} ThermalReportNumbers(devices: seq<seq<Field>>, showEmptySlots: bool, units: int,
                                                showTripPoints: bool)
    ensures ThermalNumbersBelow(ThermalReport(devices, showEmptySlots, units, showTripPoints), ThermalCount(devices))
  {
    if devices != [] {
      var front := devices[..|devices| - 1];
      var s := ScanThermal(devices[|devices| - 1], ZoneAfter(front));
      ThermalReportNumbers(front, showEmptySlots, units, showTripPoints);
      var head := ThermalReport(front, showEmptySlots, units, showTripPoints);
      if s.typeZone {
        var n := ThermalCount(front);
        var last := ThermalLines(s, n, showEmptySlots, units, showTripPoints);
        TripLinesNumbered(s.trips, n, units, s.trips.highest + 1);
        assert ThermalNumbersBelow(last, n + 1);
        assert ThermalNumbersBelow(head, n + 1);
        ThermalNumbersConcat(head, last, n + 1);
      }
    }
  }

  /** With empty slots shown and no trip-point lines, every zone prints
      exactly one line, so line i belongs to zone i and carries i. */
  lemma {:induction false} ThermalReportOneLineEach(devices: seq<seq<Field>>, units: int)
    ensures |ThermalReport(devices, true, units, false)| == ThermalCount(devices)
    ensures forall i :: 0 <= i < |ThermalReport(devices, true, units, false)| ==>
      ThermalReport(devices, true, units, false)[i].num == i
  {
    if devices != [] {
      var front := devices[..|devices| - 1];
      var s := ScanThermal(devices[|devices| - 1], ZoneAfter(front));
      ThermalReportOneLineEach(front, units);
      var head := ThermalReport(front, true, units, false);
      var r := ThermalReport(devices, true, units, false);
      if s.typeZone {
        var last := ThermalLines(s, ThermalCount(front), true, units, false);
        assert |last| == 1 && last[0].num == ThermalCount(front);
        assert r == head + last;
        forall i | 0 <= i < |r| ensures r[i].num == i {
          if i < |head| {
            assert r[i] == head[i];
          } else {
            assert r[i] == last[0];
          }
        }
      } else {
        assert r == head + [];
      }
    }
  }

  // ---------------------------------------------------------------------
  // the worked example

  lemma Value45000(s: string)
    requires s == "45000"
    ensures GetUnitValue(s) == 45000
  {
    assert DecimalText(45000) + "" == s;
    GetUnitValueReadsNumber(45000, "", "");
  }

  lemma Value40000(s: string)
    requires s == "40000"
    ensures GetUnitValue(s) == 40000
  {
    assert DecimalText(40000) + "" == s;
    GetUnitValueReadsNumber(40000, "", "");
  }

  lemma CriticalType(t: Trips)
    requires t == Trips([TripPoint(40.0, None), NoTrip, NoTrip, NoTrip, NoTrip], -1)
    ensures TripUpdate(t, Field("trip_point_0_type", "critical"), 0) ==
      Trips([TripPoint(40.0, Some("critical")), NoTrip, NoTrip, NoTrip, NoTrip], 0)
  {
  }

  /** A worked example: a sensor at 45 degrees C whose trip point 0
      is a critical point at 40 degrees C prints "Thermal 0: critical, 45.0
      degrees C" and, with -t, the trip point's line. */
  lemma CriticalExample(sysTemp: string, tripTemp: string)
    requires sysTemp == "45000" && tripTemp == "40000"
    ensures ThermalReport([[Field("sys_temp", sysTemp), Field("trip_point_0_temp", tripTemp),
        Field("trip_point_0_type", "critical")]], false, TempCelsius, false) ==
      [ThermalStatus(0, "critical", 45.0, "degrees C")]
    ensures ThermalReport([[Field("sys_temp", sysTemp), Field("trip_point_0_temp", tripTemp),
        Field("trip_point_0_type", "critical")]], false, TempCelsius, true) ==
      [ThermalStatus(0, "critical", 45.0, "degrees C"), TripPointLine(0, 0, Some("critical"), 40.0, "degrees C")]
  {
    Value45000(sysTemp);
    Value40000(tripTemp);
    var fields := [Field("sys_temp", sysTemp), Field("trip_point_0_temp", tripTemp), Field("trip_point_0_type", "critical")];
    var s1 := ThermalStart(true).(temperature := 45.0, state := Some("ok"));
    assert ScanThermal(fields[..1], true) == s1 by {
      assert fields[..1][..0] == [];
    }
    var s2 := s1.(trips := Trips([TripPoint(40.0, None), NoTrip, NoTrip, NoTrip, NoTrip], -1));
    assert ScanThermal(fields[..2], true) == s2 by {
      assert fields[..2][..1] == fields[..1];
      TripExampleTemp(s1.trips, tripTemp);
    }
    var s3 := s2.(trips := Trips([TripPoint(40.0, Some("critical")), NoTrip, NoTrip, NoTrip, NoTrip], 0));
    assert ScanThermal(fields, true) == s3 by {
      assert fields[..2] == fields[..|fields| - 1];
      CriticalType(s2.trips);
    }
    assert Reached(s3.trips, 45.0, 0);
    assert SelectedState(s3) == Some("critical");
    assert TripLinesBelow(s3.trips, 0, TempCelsius, 1) == [TripPointLine(0, 0, Some("critical"), 40.0, "degrees C")];
    assert [fields][..0] == [];
  }
}
