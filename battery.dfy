/** print_battery_information (acpi.c): how the fields of each battery
    directory become the battery's status line and capacity line. The fields
    of a device are taken in processing order, the order of its field list,
    which is the reverse of reading order; a later field of the same kind
    overwrites what an earlier one set. */
module AcpiBattery {
  import opened CLib
  import opened AcpiFields

  /** MIN_PRESENT_RATE and MIN_CAPACITY: the source compares `int` rates and
      capacities with these `double` constants. */
  const MinPresentRate: real := 0.01
  const MinCapacity: real := 0.01

  /** The locals of print_battery_information once a device's field list has
      been walked (-1 and NULL are the "not seen" sentinels). */
  datatype BatteryScan = BatteryScan(
    remainingCapacity: int,
    remainingEnergy: int,
    presentRate: int,
    voltage: int,
    designCapacity: int,
    designCapacityUnit: int,
    lastCapacity: int,
    lastCapacityUnit: int,
    state: Option<string>,
    typeBattery: bool)

  /** The locals before the first field. */
  const BatteryStart := BatteryScan(-1, -1, -1, -1, -1, -1, -1, -1, None, true)

  /** `if (!state) state = strdup("available")` */
  function Available(state: Option<string>): Option<string>
  {
    if state.None? then Some("available") else state
  }

  /** The attributes whose field marks the battery as present. */
  predicate IsCapacityAttr(attr: string)
  {
    StrCaseEq(attr, "remaining capacity") || attr == "charge_now" || attr == "energy_now" ||
    StrCaseEq(attr, "last full capacity") || attr == "charge_full" || attr == "energy_full"
  }

  /** The attributes whose value is taken as the state text. */
  predicate IsStateAttr(attr: string)
  {
    attr == "charging state" || attr == "State"
  }

  /** One field of the chain of tests in the field loop; only the first test
      that matches applies. */
  function BatteryStep(b: BatteryScan, f: Field): (r: BatteryScan)
    requires b.voltage != 0
    ensures r.voltage != 0
  {
    var n := GetUnitValue(f.value);
    if StrCaseEq(f.attr, "remaining capacity") then
      b.(remainingCapacity := n, state := Available(b.state))
    else if f.attr == "charge_now" then
      b.(remainingCapacity := CDiv(n, 1000), state := Available(b.state))
    else if f.attr == "energy_now" then
      b.(remainingEnergy := CDiv(n, 1000), state := Available(b.state))
    else if StrCaseEq(f.attr, "present rate") then
      b.(presentRate := n)
    else if f.attr == "current_now" then
      b.(presentRate := CDiv(n, 1000))
    else if f.attr == "power_now" then
      b.(presentRate := CDiv(n, 1000))
    else if StrCaseEq(f.attr, "last full capacity") then
      b.(lastCapacity := n, state := Available(b.state))
    else if f.attr == "charge_full" then
      b.(lastCapacity := CDiv(n, 1000), state := Available(b.state))
    else if f.attr == "energy_full" then
      b.(lastCapacityUnit := CDiv(n, 1000), state := Available(b.state))
    else if f.attr == "charge_full_design" then
      b.(designCapacity := CDiv(n, 1000))
    else if f.attr == "energy_full_design" then
      b.(designCapacityUnit := CDiv(n, 1000))
    else if f.attr == "type" then
      b.(typeBattery := StrCaseEq(f.value, "battery"))
    else if IsStateAttr(f.attr) then
      b.(state := Some(f.value))
    else if f.attr == "voltage_now" then
      b.(voltage := if CDiv(n, 1000) == 0 then -1 else CDiv(n, 1000))
    else
      b
  }

  /** The locals after the given fields, in processing order. The voltage is
      never 0: a scaled voltage of 0 is stored as -1, so it can divide. */
  function ScanBattery(fields: seq<Field>): (b: BatteryScan)
    ensures b.voltage != 0
  {
    if fields == [] then BatteryStart
    else BatteryStep(ScanBattery(fields[..|fields| - 1]), fields[|fields| - 1])
  }

  /** The capacities after the energy-to-charge conversion: mWh values are
      turned into mAh through the voltage when one is known, and are kept as
      mWh (with the unit label saying so) when not. */
  datatype Charge = Charge(remaining: int, rate: int, lastFull: int, design: int, unit: string)

  function Reconcile(b: BatteryScan): Charge
    requires b.voltage != 0
  {
    var v := b.voltage;
    var lastConverts := b.lastCapacityUnit != -1 && b.lastCapacity == -1;
    var designConverts := b.designCapacityUnit != -1 && b.designCapacity == -1;
    var energyConverts := b.remainingEnergy != -1 && b.remainingCapacity == -1;
    Charge(
      if !energyConverts then b.remainingCapacity
      else if v != -1 then CDiv(b.remainingEnergy * 1000, v)
      else b.remainingEnergy,
      if energyConverts && v != -1 then CDiv(b.presentRate * 1000, v) else b.presentRate,
      if !lastConverts then b.lastCapacity
      else if v != -1 then CDiv(b.lastCapacityUnit * 1000, v)
      else b.lastCapacityUnit,
      if !designConverts then b.designCapacity
      else if v != -1 then CDiv(b.designCapacityUnit * 1000, v)
      else b.designCapacityUnit,
      if v == -1 && (lastConverts || designConverts) then "mWh" else "mAh")
  }

  /** The charge percentage of the status line: 0 unless the last full
      capacity is positive, otherwise the truncated ratio capped at 100. */
  function Percentage(remaining: int, lastFull: int): (p: int)
    ensures p <= 100
  {
    if (lastFull as real) < MinCapacity then 0
    else if CDiv(remaining * 100, lastFull) > 100 then 100
    else CDiv(remaining * 100, lastFull)
  }

  /** The time estimate: a number of seconds (-1 for none) and the text
      that follows it, if any. */
  datatype Estimate = Estimate(seconds: int, post: Option<string>)

  function TimeEstimate(state: string, rate: int, remaining: int, lastFull: int): Estimate
  {
    if rate == -1 then
      Estimate(-1, Some("rate information unavailable"))
    else if StrCaseEq(state, "charging") then
      if (rate as real) > MinPresentRate then
        Estimate(CDiv(3600 * (lastFull - remaining), rate), Some(" until charged"))
      else
        Estimate(-1, Some("charging at zero rate - will never fully charge."))
    else if StrCaseEq(state, "discharging") then
      if (rate as real) > MinPresentRate then
        Estimate(CDiv(3600 * remaining, rate), Some(" remaining"))
      else
        Estimate(-1, Some("discharging at zero rate - will never fully discharge."))
    else
      Estimate(-1, None)
  }

  /** What the status line carries after the percentage. */
  datatype Tail =
    | NoTail
    | Notice(text: string)
    | Clock(hours: int, minutes: int, seconds: int, suffix: string)

  /** HH:MM:SS and the text when the estimate is positive, the text alone
      otherwise. The clock always adds up to the estimate. */
  function TailOf(e: Estimate): (t: Tail)
    requires e.seconds > 0 ==> e.post.Some?
    ensures t.Clock? <==> e.seconds > 0
    ensures t.Clock? ==>
      t.hours * 3600 + t.minutes * 60 + t.seconds == e.seconds &&
      t.hours >= 0 && 0 <= t.minutes < 60 && 0 <= t.seconds < 60 &&
      t.suffix == e.post.value
    ensures t.Notice? <==> e.seconds <= 0 && e.post.Some?
    ensures t.Notice? ==> t.text == e.post.value
  {
    if e.seconds > 0 then
      var hours := CDiv(e.seconds, 3600);
      var rest := e.seconds - 3600 * hours;
      var minutes := CDiv(rest, 60);
      Clock(hours, minutes, rest - 60 * minutes, e.post.value)
    else if e.post.Some? then Notice(e.post.value)
    else NoTail
  }

  /** The capacity line's last full capacity and percentage: a value of at
      most 100 is taken for a percentage of the design capacity. */
  datatype Detail = Detail(lastFull: int, percentage: int)

  function CapacityDetail(design: int, lastFull: int): (d: Detail)
    requires design > 0
    ensures d.percentage <= 100
  {
    if lastFull <= 100 then
      Detail(CDiv(lastFull * design, 100), lastFull)
    else
      var p := CDiv(lastFull * 100, design);
      Detail(lastFull, if p > 100 then 100 else p)
  }

  /** The lines printed for one device, numbered `num`. */
  datatype BatteryLine =
    | BatterySlotEmpty(num: nat)
    | BatteryStatus(num: nat, state: string, percentage: int, tail: Tail)
    | BatteryCapacity(num: nat, design: int, lastFull: int, unit: string, percentage: int)

  function BatteryLines(b: BatteryScan, num: nat, showEmptySlots: bool, showCapacity: bool): seq<BatteryLine>
    requires b.voltage != 0
  {
    if b.state.None? then
      if showEmptySlots then [BatterySlotEmpty(num)] else []
    else
      var c := Reconcile(b);
      var e := TimeEstimate(b.state.value, c.rate, c.remaining, c.lastFull);
      TimeEstimateHasText(b.state.value, c.rate, c.remaining, c.lastFull);
      var status := BatteryStatus(num, b.state.value, Percentage(c.remaining, c.lastFull), TailOf(e));
      if showCapacity && c.design > 0 then
        var d := CapacityDetail(c.design, c.lastFull);
        [status, BatteryCapacity(num, c.design, d.lastFull, c.unit, d.percentage)]
      else
        [status]
  }

  /** A positive estimate always comes with its text. */
  lemma TimeEstimateHasText(state: string, rate: int, remaining: int, lastFull: int)
    ensures TimeEstimate(state, rate, remaining, lastFull).seconds > 0 ==>
      TimeEstimate(state, rate, remaining, lastFull).post.Some?
  {
  }

  /** The number of devices among the first ones that are batteries. */
  function BatteryCount(devices: seq<seq<Field>>): nat
  {
    if devices == [] then 0
    else
      var last := if ScanBattery(devices[|devices| - 1]).typeBattery then 1 else 0;
      BatteryCount(devices[..|devices| - 1]) + last
  }

  /** Everything print_battery_information prints for the devices, in
      order: a device whose type is not "Battery" prints nothing and takes
      no number. */
  function BatteryReport(devices: seq<seq<Field>>, showEmptySlots: bool, showCapacity: bool): seq<BatteryLine>
  {
    if devices == [] then []
    else
      var front := devices[..|devices| - 1];
      var b := ScanBattery(devices[|devices| - 1]);
      BatteryReport(front, showEmptySlots, showCapacity) +
        (if b.typeBattery then BatteryLines(b, BatteryCount(front), showEmptySlots, showCapacity) else [])
  }

  // ---------------------------------------------------------------------
  // the resolver

  /** print_battery_information: the outer loop over the devices. */
  method PrintBatteryInformation(batteries: seq<seq<Field>>, showEmptySlots: bool, showCapacity: bool)
    returns (out: seq<BatteryLine>)
    ensures out == BatteryReport(batteries, showEmptySlots, showCapacity)
  {
    out := [];
    var batteryNum := 1;
    var d := 0;
    while d < |batteries|
      invariant 0 <= d <= |batteries|
      invariant batteryNum == BatteryCount(batteries[..d]) + 1
      invariant out == BatteryReport(batteries[..d], showEmptySlots, showCapacity)
    {
      var lines, isBattery := BatteryInformation(batteries[d], batteryNum - 1, showEmptySlots, showCapacity);
      assert batteries[..d + 1][..d] == batteries[..d];
      out := out + lines;
      if isBattery {
        batteryNum := batteryNum + 1;
      }
      d := d + 1;
    }
    assert batteries[..d] == batteries;
  }

  /** One pass of the outer loop: the field loop, then the lines. */
  method BatteryInformation(fields: seq<Field>, num: nat, showEmptySlots: bool, showCapacity: bool)
    returns (lines: seq<BatteryLine>, isBattery: bool)
    ensures isBattery == ScanBattery(fields).typeBattery
    ensures lines == if isBattery then BatteryLines(ScanBattery(fields), num, showEmptySlots, showCapacity) else []
  {
    var b := BatteryStart;
    var j := 0;
    while j < |fields|
      invariant 0 <= j <= |fields|
      invariant b == ScanBattery(fields[..j])
    {
      assert fields[..j + 1][..j] == fields[..j];
      b := BatteryField(b, fields[j]);
      j := j + 1;
    }
    assert fields[..j] == fields;
    isBattery := b.typeBattery;
    lines := [];
    if b.typeBattery {
      lines := BatteryOutput(b, num, showEmptySlots, showCapacity);
    }
  }

  /** One pass of the field loop: the chain of tests on the attribute, each
      branch overwriting one of the locals (held in `b`). */
  method BatteryField(b: BatteryScan, value: Field) returns (r: BatteryScan)
    requires b.voltage != 0
    ensures r == BatteryStep(b, value)
  {
    r := b;
    if StrCaseEq(value.attr, "remaining capacity") {
      r := r.(remainingCapacity := GetUnitValue(value.value));
      if r.state.None? { r := r.(state := Some("available")); }
    } else if value.attr == "charge_now" {
      r := r.(remainingCapacity := CDiv(GetUnitValue(value.value), 1000));
      if r.state.None? { r := r.(state := Some("available")); }
    } else if value.attr == "energy_now" {
      r := r.(remainingEnergy := CDiv(GetUnitValue(value.value), 1000));
      if r.state.None? { r := r.(state := Some("available")); }
    } else if StrCaseEq(value.attr, "present rate") {
      r := r.(presentRate := GetUnitValue(value.value));
    } else if value.attr == "current_now" {
      r := r.(presentRate := CDiv(GetUnitValue(value.value), 1000));
    } else if value.attr == "power_now" {
      r := r.(presentRate := CDiv(GetUnitValue(value.value), 1000));
    } else if StrCaseEq(value.attr, "last full capacity") {
      r := r.(lastCapacity := GetUnitValue(value.value));
      if r.state.None? { r := r.(state := Some("available")); }
    } else if value.attr == "charge_full" {
      r := r.(lastCapacity := CDiv(GetUnitValue(value.value), 1000));
      if r.state.None? { r := r.(state := Some("available")); }
    } else if value.attr == "energy_full" {
      r := r.(lastCapacityUnit := CDiv(GetUnitValue(value.value), 1000));
      if r.state.None? { r := r.(state := Some("available")); }
    } else if value.attr == "charge_full_design" {
      r := r.(designCapacity := CDiv(GetUnitValue(value.value), 1000));
    } else if value.attr == "energy_full_design" {
      r := r.(designCapacityUnit := CDiv(GetUnitValue(value.value), 1000));
    } else if value.attr == "type" {
      r := r.(typeBattery := StrCaseEq(value.value, "battery"));
    } else if value.attr == "charging state" || value.attr == "State" {
      r := r.(state := Some(value.value));
    } else if value.attr == "voltage_now" {
      r := r.(voltage := CDiv(GetUnitValue(value.value), 1000));
      if r.voltage == 0 {
        r := r.(voltage := -1);
      }
    }
  }

  /** The lines of a battery once its fields are read. */
  method BatteryOutput(b: BatteryScan, num: nat, showEmptySlots: bool, showCapacity: bool)
    returns (lines: seq<BatteryLine>)
    requires b.voltage != 0
    ensures lines == BatteryLines(b, num, showEmptySlots, showCapacity)
  {
    if b.state.None? {
      lines := if showEmptySlots then [BatterySlotEmpty(num)] else [];
      return;
    }
    var state := b.state.value;
    var c := ConvertEnergy(b);
    var percentage := StatusPercentage(c.remaining, c.lastFull);
    var seconds, poststr := EstimateTime(state, c.rate, c.remaining, c.lastFull);
    TimeEstimateHasText(state, c.rate, c.remaining, c.lastFull);
    var tail := ClockTail(seconds, poststr);
    lines := [BatteryStatus(num, state, percentage, tail)];
    if showCapacity && c.design > 0 {
      var lastCapacity, detailPercentage := CapacityLine(c.design, c.lastFull);
      lines := lines + [BatteryCapacity(num, c.design, lastCapacity, c.unit, detailPercentage)];
    }
  }

  /** The conversion of energy values (mWh) to charge values (mAh), in place
      on copies of the locals. */
  method ConvertEnergy(b: BatteryScan) returns (c: Charge)
    requires b.voltage != 0
    ensures c == Reconcile(b)
  {
    var voltage := b.voltage;
    var remainingCapacity := b.remainingCapacity;
    var presentRate := b.presentRate;
    var lastCapacity := b.lastCapacity;
    var designCapacity := b.designCapacity;
    var capacityUnit := "mAh";
    if b.lastCapacityUnit != -1 && lastCapacity == -1 {
      if voltage != -1 {
        lastCapacity := CDiv(b.lastCapacityUnit * 1000, voltage);
      } else {
        lastCapacity := b.lastCapacityUnit;
        capacityUnit := "mWh";
      }
    }
    if b.designCapacityUnit != -1 && designCapacity == -1 {
      if voltage != -1 {
        designCapacity := CDiv(b.designCapacityUnit * 1000, voltage);
      } else {
        designCapacity := b.designCapacityUnit;
        capacityUnit := "mWh";
      }
    }
    if b.remainingEnergy != -1 && remainingCapacity == -1 {
      if voltage != -1 {
        remainingCapacity := CDiv(b.remainingEnergy * 1000, voltage);
        presentRate := CDiv(presentRate * 1000, voltage);
      } else {
        remainingCapacity := b.remainingEnergy;
      }
    }
    c := Charge(remainingCapacity, presentRate, lastCapacity, designCapacity, capacityUnit);
  }

  /** The percentage of the status line. */
  method StatusPercentage(remainingCapacity: int, lastCapacity: int) returns (percentage: int)
    ensures percentage == Percentage(remainingCapacity, lastCapacity)
  {
    if (lastCapacity as real) < MinCapacity {
      percentage := 0;
    } else {
      percentage := CDiv(remainingCapacity * 100, lastCapacity);
    }
    if percentage > 100 {
      percentage := 100;
    }
  }

  /** The estimate: seconds and the text that follows them. */
  method EstimateTime(state: string, presentRate: int, remainingCapacity: int, lastCapacity: int)
    returns (seconds: int, poststr: Option<string>)
    ensures Estimate(seconds, poststr) == TimeEstimate(state, presentRate, remainingCapacity, lastCapacity)
  {
    if presentRate == -1 {
      poststr := Some("rate information unavailable");
      seconds := -1;
    } else if StrCaseEq(state, "charging") {
      if (presentRate as real) > MinPresentRate {
        seconds := CDiv(3600 * (lastCapacity - remainingCapacity), presentRate);
        poststr := Some(" until charged");
      } else {
        poststr := Some("charging at zero rate - will never fully charge.");
        seconds := -1;
      }
    } else if StrCaseEq(state, "discharging") {
      if (presentRate as real) > MinPresentRate {
        seconds := CDiv(3600 * remainingCapacity, presentRate);
        poststr := Some(" remaining");
      } else {
        poststr := Some("discharging at zero rate - will never fully discharge.");
        seconds := -1;
      }
    } else {
      poststr := None;
      seconds := -1;
    }
  }

  /** HH:MM:SS as the source splits the seconds: one truncating division
      and one subtraction for the hours, then the same for the minutes. */
  method ClockTail(seconds: int, poststr: Option<string>) returns (tail: Tail)
    requires seconds > 0 ==> poststr.Some?
    ensures tail == TailOf(Estimate(seconds, poststr))
  {
    if seconds > 0 {
      var s := seconds;
      var hours := CDiv(s, 3600);
      s := s - 3600 * hours;
      var minutes := CDiv(s, 60);
      s := s - 60 * minutes;
      tail := Clock(hours, minutes, s, poststr.value);
    } else if poststr.Some? {
      tail := Notice(poststr.value);
    } else {
      tail := NoTail;
    }
  }

  /** The capacity line's values. */
  method CapacityLine(designCapacity: int, lastCapacity: int) returns (lastFull: int, percentage: int)
    requires designCapacity > 0
    ensures Detail(lastFull, percentage) == CapacityDetail(designCapacity, lastCapacity)
  {
    lastFull := lastCapacity;
    if lastFull <= 100 {
      percentage := lastFull;
      lastFull := CDiv(percentage * designCapacity, 100);
    } else {
      percentage := CDiv(lastFull * 100, designCapacity);
    }
    if percentage > 100 {
      percentage := 100;
    }
  }
}
