/** get_real_temp and print_thermal_information (acpi.c): the state line
    of each thermal zone and, on request, one line per trip point. The
    fields of a sensor are taken in processing order; a later field of the
    same kind overwrites what an earlier one set. Temperatures are `real`:
    the source's `float`/`double` rounding is not modelled. */
module AcpiThermal {
  import opened CLib
  import opened AcpiFields

  /** The temperature units of acpi.h. */
  const TempKelvin: int := 0
  const TempCelsius: int := 1
  const TempFahrenheit: int := 2
  const AbsoluteZero: real := 273.1

  /** MIN_TEMP and TRIP_POINTS of acpi.c. */
  const MinTemp: real := 0.01
  const TripPoints: nat := 5

  /** The attribute names sprintf builds for trip point i. */
  const TripTempNames: seq<string> := [
    "trip_point_0_temp", "trip_point_1_temp", "trip_point_2_temp", "trip_point_3_temp", "trip_point_4_temp"]
  const TripTypeNames: seq<string> := [
    "trip_point_0_type", "trip_point_1_type", "trip_point_2_type", "trip_point_3_type", "trip_point_4_type"]

  // ---------------------------------------------------------------------
  // get_real_temp

  /** A temperature and the name of its scale. */
  datatype Reading = Reading(value: real, scale: string)

  /** get_real_temp: Celsius as read, Fahrenheit by 1.8 t + 32, and kelvin
      by adding ABSOLUTE_ZERO for TEMP_KELVIN and any other unit. */
  function GetRealTemp(temperature: real, units: int): Reading
  {
    if units == TempCelsius then Reading(temperature, "degrees C")
    else if units == TempFahrenheit then Reading(temperature * 1.8 + 32.0, "degrees F")
    else Reading(temperature + AbsoluteZero, "kelvin")
  }

  // ---------------------------------------------------------------------
  // the trip points

  /** One entry of the local `trip[]` array; the memset leaves 0.0 and NULL. */
  datatype TripPoint = TripPoint(tripTemp: real, tripType: Option<string>)

  const NoTrip := TripPoint(0.0, None)

  /** The `trip[]` array and `trip_points`, the highest index whose type was
      seen (-1 when none). */
  datatype Trips = Trips(points: seq<TripPoint>, highest: int)

  predicate ValidTrips(t: Trips)
  {
    |t.points| == TripPoints && -1 <= t.highest < TripPoints
  }

  const NoTrips := Trips([NoTrip, NoTrip, NoTrip, NoTrip, NoTrip], -1)

  /** Pass i of the inner loop: the field may be trip point i's temperature
      (in millidegrees) or its type. */
  function TripAt(t: Trips, f: Field, i: nat): (r: Trips)
    requires ValidTrips(t) && i < TripPoints
    ensures ValidTrips(r)
  {
    var t1 :=
      if f.attr == TripTempNames[i] then
        t.(points := t.points[i := t.points[i].(tripTemp := GetUnitValue(f.value) as real / 1000.0)])
      else t;
    if f.attr == TripTypeNames[i] then
      t1.(points := t1.points[i := t1.points[i].(tripType := Some(f.value))],
          highest := if i > t1.highest then i else t1.highest)
    else t1
  }

  /** The passes i .. TRIP_POINTS - 1 of the inner loop. */
  function TripUpdate(t: Trips, f: Field, i: nat): (r: Trips)
    requires ValidTrips(t) && i <= TripPoints
    ensures ValidTrips(r)
    decreases TripPoints - i
  {
    if i == TripPoints then t else TripUpdate(TripAt(t, f, i), f, i + 1)
  }

  // ---------------------------------------------------------------------
  // the field loop

  /** The locals of print_thermal_information once a sensor's field list
      has been walked. `typeZone` is declared outside the sensor loop, so a
      sensor starts with the value the previous sensor left. */
  datatype ThermalScan = ThermalScan(temperature: real, trips: Trips, state: Option<string>, typeZone: bool)

  function ThermalStart(typeZone: bool): ThermalScan
  {
    ThermalScan(-1.0, NoTrips, None, typeZone)
  }

  /** `if (!state) state = strdup("ok")` */
  function Ok(state: Option<string>): Option<string>
  {
    if state.None? then Some("ok") else state
  }

  /** The temperature a `temperature` field gives: the integer read, taken
      as tenths of a kelvin when the value mentions "dK". */
  function ProcTemperature(value: string): real
  {
    var n := GetUnitValue(value) as real;
    if Contains(value, "dK") then n / 10.0 - AbsoluteZero else n
  }

  /** One field of the chain of tests in the field loop. */
  function ThermalStep(s: ThermalScan, f: Field): (r: ThermalScan)
    requires ValidTrips(s.trips)
    ensures ValidTrips(r.trips)
  {
    if f.attr == "state" then
      s.(state := Some(f.value))
    else if f.attr == "type" then
      s.(typeZone := Contains(f.value, "thermal zone") || Contains(f.value, "acpitz"), state := Ok(s.state))
    else if f.attr == "temperature" then
      s.(temperature := ProcTemperature(f.value), state := Ok(s.state))
    else if f.attr == "sys_temp" then
      s.(temperature := GetUnitValue(f.value) as real / 1000.0, state := Ok(s.state))
    else
      s.(trips := TripUpdate(s.trips, f, 0))
  }

  /** The locals after the given fields, in processing order, starting from
      the carried type flag. */
  function ScanThermal(fields: seq<Field>, typeZone: bool): (s: ThermalScan)
    ensures ValidTrips(s.trips)
  {
    if fields == [] then ThermalStart(typeZone)
    else ThermalStep(ScanThermal(fields[..|fields| - 1], typeZone), fields[|fields| - 1])
  }

  // ---------------------------------------------------------------------
  // the active trip point and the lines

  /** Trip point i is reached: the temperature is at least its temperature,
      which is itself at least MIN_TEMP. */
  predicate Reached(t: Trips, temperature: real, i: nat)
    requires ValidTrips(t) && i < TripPoints
  {
    temperature >= t.points[i].tripTemp && t.points[i].tripTemp >= MinTemp
  }

  /** The first reached trip point among i .. trip_points, in index order. */
  function FirstReached(t: Trips, temperature: real, i: nat): Option<nat>
    requires ValidTrips(t) && i <= TripPoints
    decreases TripPoints - i
  {
    if i as int > t.highest || i == TripPoints then None
    else if Reached(t, temperature, i) then Some(i)
    else FirstReached(t, temperature, i + 1)
  }

  lemma {:induction false} FirstReachedBounds(t: Trips, temperature: real, i: nat)
    requires ValidTrips(t) && i <= TripPoints
    ensures FirstReached(t, temperature, i).Some? ==>
      i <= FirstReached(t, temperature, i).value <= t.highest
    decreases TripPoints - i
  {
    if !(i as int > t.highest || i == TripPoints) && !Reached(t, temperature, i) {
      FirstReachedBounds(t, temperature, i + 1);
    }
  }

  /** The state after the trip-point loop: the type of the first reached
      trip point, which may be NULL, and the state from the fields when no
      trip point is reached. */
  function SelectedState(s: ThermalScan): Option<string>
    requires ValidTrips(s.trips)
  {
    var k := FirstReached(s.trips, s.temperature, 0);
    FirstReachedBounds(s.trips, s.temperature, 0);
    if k.Some? then s.trips.points[k.value].tripType else s.state
  }

  /** The lines printed for one sensor, numbered `num`. */
  datatype ThermalLine =
    | ThermalSlotEmpty(num: nat)
    | ThermalStatus(num: nat, state: string, temperature: real, scale: string)
    | TripPointLine(num: nat, index: nat, mode: Option<string>, temperature: real, scale: string)

  /** The trip-point lines for the indices below n whose temperature is at
      least MIN_TEMP. */
  function TripLinesBelow(t: Trips, num: nat, units: int, n: nat): seq<ThermalLine>
    requires ValidTrips(t) && n <= TripPoints
  {
    if n == 0 then []
    else
      var p := t.points[n - 1];
      var r := GetRealTemp(p.tripTemp, units);
      TripLinesBelow(t, num, units, n - 1) +
        (if p.tripTemp >= MinTemp then [TripPointLine(num, n - 1, p.tripType, r.value, r.scale)] else [])
  }

  function ThermalLines(s: ThermalScan, num: nat, showEmptySlots: bool, units: int, showTripPoints: bool): seq<ThermalLine>
    requires ValidTrips(s.trips)
  {
    var state := SelectedState(s);
    if state.None? then
      if showEmptySlots then [ThermalSlotEmpty(num)] else []
    else
      var r := GetRealTemp(s.temperature, units);
      [ThermalStatus(num, state.value, r.value, r.scale)] +
        (if showTripPoints then TripLinesBelow(s.trips, num, units, s.trips.highest + 1) else [])
  }

  // ---------------------------------------------------------------------
  // the sensors

  /** The type flag after the given sensors (TRUE before the first). */
  function ZoneAfter(devices: seq<seq<Field>>): bool
  {
    if devices == [] then true
    else ScanThermal(devices[|devices| - 1], ZoneAfter(devices[..|devices| - 1])).typeZone
  }

  /** The number of sensors among the given ones that count as thermal
      zones. */
  function ThermalCount(devices: seq<seq<Field>>): nat
  {
    if devices == [] then 0
    else
      var front := devices[..|devices| - 1];
      var last := if ScanThermal(devices[|devices| - 1], ZoneAfter(front)).typeZone then 1 else 0;
      ThermalCount(front) + last
  }

  /** Everything print_thermal_information prints for the sensors, in
      order: a sensor that does not count as a zone prints nothing and takes
      no number. */
  function ThermalReport(devices: seq<seq<Field>>, showEmptySlots: bool, units: int, showTripPoints: bool)
    : seq<ThermalLine>
  {
    if devices == [] then []
    else
      var front := devices[..|devices| - 1];
      var s := ScanThermal(devices[|devices| - 1], ZoneAfter(front));
      ThermalReport(front, showEmptySlots, units, showTripPoints) +
        (if s.typeZone then ThermalLines(s, ThermalCount(front), showEmptySlots, units, showTripPoints) else [])
  }

  /** One more sensor: the flag, the count and the report extended by it. */
  lemma ThermalReportSnoc(devices: seq<seq<Field>>, d: seq<Field>, showEmptySlots: bool, units: int,
                          showTripPoints: bool)
    ensures var s := ScanThermal(d, ZoneAfter(devices));
      ZoneAfter(devices + [d]) == s.typeZone &&
      ThermalCount(devices + [d]) == ThermalCount(devices) + (if s.typeZone then 1 else 0) &&
      ThermalReport(devices + [d], showEmptySlots, units, showTripPoints) ==
        ThermalReport(devices, showEmptySlots, units, showTripPoints) +
          (if s.typeZone then ThermalLines(s, ThermalCount(devices), showEmptySlots, units, showTripPoints) else [])
  {
    assert (devices + [d])[..|devices|] == devices;
  }

  // ---------------------------------------------------------------------
  // the resolver

  /** print_thermal_information: the outer loop over the sensors. */
  method PrintThermalInformation(sensors: seq<seq<Field>>, showEmptySlots: bool, units: int, showTripPoints: bool)
    returns (out: seq<ThermalLine>)
    ensures out == ThermalReport(sensors, showEmptySlots, units, showTripPoints)
  {
    out := [];
    var sensorNum := 1;
    var typeZone := true;
    var d := 0;
    while d < |sensors|
      invariant 0 <= d <= |sensors|
      invariant typeZone == ZoneAfter(sensors[..d])
      invariant sensorNum == ThermalCount(sensors[..d]) + 1
      invariant out == ThermalReport(sensors[..d], showEmptySlots, units, showTripPoints)
    {
      var lines;
      assert sensors[..d + 1] == sensors[..d] + [sensors[d]];
      ThermalReportSnoc(sensors[..d], sensors[d], showEmptySlots, units, showTripPoints);
      lines, typeZone := ThermalInformation(sensors[d], sensorNum - 1, typeZone, showEmptySlots, units, showTripPoints);
      out := out + lines;
      if typeZone {
        sensorNum := sensorNum + 1;
      }
      d := d + 1;
    }
    assert sensors[..d] == sensors;
  }

  /** One pass of the outer loop: the field loop, then the lines. */
  method ThermalInformation(fields: seq<Field>, num: nat, typeZoneIn: bool, showEmptySlots: bool, units: int,
                            showTripPoints: bool)
    returns (lines: seq<ThermalLine>, typeZone: bool)
    ensures typeZone == ScanThermal(fields, typeZoneIn).typeZone
    ensures lines == if typeZone then ThermalLines(ScanThermal(fields, typeZoneIn), num, showEmptySlots, units, showTripPoints) else []
  {
    var temperature := -1.0;
    var trip := new TripPoint[TripPoints](_ => NoTrip);
    var tripPoints := -1;
    var state: Option<string> := None;
    typeZone := typeZoneIn;
    assert trip[..] == NoTrips.points;
    var j := 0;
    while j < |fields|
      invariant 0 <= j <= |fields|
      invariant trip.Length == TripPoints
      invariant ThermalScan(temperature, Trips(trip[..], tripPoints), state, typeZone) == ScanThermal(fields[..j], typeZoneIn)
    {
      assert fields[..j + 1][..j] == fields[..j];
      temperature, tripPoints, state, typeZone := ThermalField(trip, temperature, tripPoints, state, typeZone, fields[j]);
      j := j + 1;
    }
    assert fields[..j] == fields;
    lines := [];
    if typeZone {
      var s := ThermalScan(temperature, Trips(trip[..], tripPoints), state, typeZone);
      lines := ThermalOutput(trip, s, num, showEmptySlots, units, showTripPoints);
    }
  }

  /** One pass of the field loop: the chain of tests on the attribute. */
  method ThermalField(trip: array<TripPoint>, temperature0: real, tripPoints0: int, state0: Option<string>,
                      typeZone0: bool, value: Field)
    returns (temperature: real, tripPoints: int, state: Option<string>, typeZone: bool)
    requires trip.Length == TripPoints && -1 <= tripPoints0 < TripPoints
    modifies trip
    ensures ThermalScan(temperature, Trips(trip[..], tripPoints), state, typeZone)
         == ThermalStep(ThermalScan(temperature0, Trips(old(trip[..]), tripPoints0), state0, typeZone0), value)
  {
    temperature, tripPoints, state, typeZone := temperature0, tripPoints0, state0, typeZone0;
    if value.attr == "state" {
      state := Some(value.value);
    } else if value.attr == "type" {
      typeZone := Contains(value.value, "thermal zone") || Contains(value.value, "acpitz");
      if state.None? { state := Some("ok"); }
    } else if value.attr == "temperature" {
      temperature := GetUnitValue(value.value) as real;
      if Contains(value.value, "dK") {
        temperature := temperature / 10.0 - AbsoluteZero;
      }
      if state.None? { state := Some("ok"); }
    } else if value.attr == "sys_temp" {
      temperature := GetUnitValue(value.value) as real / 1000.0;
      if state.None? { state := Some("ok"); }
    } else {
      tripPoints := TripField(trip, tripPoints, value);
    }
  }

  /** The inner `for` loop over the trip points for one field: the
      entries of `trip` it names are updated in place. */
  method TripField(trip: array<TripPoint>, tripPoints: int, value: Field) returns (highest: int)
    requires trip.Length == TripPoints && -1 <= tripPoints < TripPoints
    modifies trip
    ensures Trips(trip[..], highest) == TripUpdate(Trips(old(trip[..]), tripPoints), value, 0)
  {
    highest := tripPoints;
    var i := 0;
    while i < TripPoints
      invariant 0 <= i <= TripPoints
      invariant -1 <= highest < TripPoints
      invariant TripUpdate(Trips(trip[..], highest), value, i) == TripUpdate(Trips(old(trip[..]), tripPoints), value, 0)
    {
      highest := TripPass(trip, highest, value, i);
      i := i + 1;
    }
  }

  /** Pass i of the inner loop. */
  method TripPass(trip: array<TripPoint>, tripPoints: int, value: Field, i: nat) returns (highest: int)
    requires trip.Length == TripPoints && -1 <= tripPoints < TripPoints && i < TripPoints
    modifies trip
    ensures Trips(trip[..], highest) == TripAt(Trips(old(trip[..]), tripPoints), value, i)
  {
    highest := tripPoints;
    if value.attr == TripTempNames[i] {
      trip[i] := trip[i].(tripTemp := GetUnitValue(value.value) as real / 1000.0);
    }
    if value.attr == TripTypeNames[i] {
      trip[i] := trip[i].(tripType := Some(value.value));
      if i > highest {
        highest := i;
      }
    }
  }

  /** The lines of a sensor that counts as a zone, from its locals. */
  method ThermalOutput(trip: array<TripPoint>, s: ThermalScan, num: nat, showEmptySlots: bool, units: int,
                       showTripPoints: bool)
    returns (lines: seq<ThermalLine>)
    requires ValidTrips(s.trips) && trip[..] == s.trips.points
    ensures lines == ThermalLines(s, num, showEmptySlots, units, showTripPoints)
  {
    var state := SelectTripState(trip, s.trips.highest, s.temperature, s.state);
    if state.None? {
      lines := if showEmptySlots then [ThermalSlotEmpty(num)] else [];
    } else {
      var r := GetRealTemp(s.temperature, units);
      lines := [ThermalStatus(num, state.value, r.value, r.scale)];
      if showTripPoints {
        var tripLines := TripPointLines(trip, s.trips.highest, num, units);
        lines := lines + tripLines;
      }
    }
  }

  /** The loop that looks for the first reached trip point and stops there. */
  method SelectTripState(trip: array<TripPoint>, tripPoints: int, temperature: real, state: Option<string>)
    returns (r: Option<string>)
    requires trip.Length == TripPoints && -1 <= tripPoints < TripPoints
    ensures r == SelectedState(ThermalScan(temperature, Trips(trip[..], tripPoints), state, true))
  {
    ghost var t := Trips(trip[..], tripPoints);
    r := state;
    var i := 0;
    while i <= tripPoints
      invariant 0 <= i <= tripPoints + 1
      invariant FirstReached(t, temperature, i) == FirstReached(t, temperature, 0)
    {
      if temperature >= trip[i].tripTemp && trip[i].tripTemp >= MinTemp {
        assert Reached(t, temperature, i);
        r := trip[i].tripType;
        return;
      }
      i := i + 1;
    }
  }

  /** The loop that prints the trip points whose temperature is at least
      MIN_TEMP. */
  method TripPointLines(trip: array<TripPoint>, tripPoints: int, num: nat, units: int)
    returns (lines: seq<ThermalLine>)
    requires trip.Length == TripPoints && -1 <= tripPoints < TripPoints
    ensures lines == TripLinesBelow(Trips(trip[..], tripPoints), num, units, tripPoints + 1)
  {
    ghost var t := Trips(trip[..], tripPoints);
    lines := [];
    var i := 0;
    while i <= tripPoints
      invariant 0 <= i <= tripPoints + 1
      invariant lines == TripLinesBelow(t, num, units, i)
    {
      if trip[i].tripTemp >= MinTemp {
        var r := GetRealTemp(trip[i].tripTemp, units);
        lines := lines + [TripPointLine(num, i, trip[i].tripType, r.value, r.scale)];
      }
      i := i + 1;
    }
  }
}
