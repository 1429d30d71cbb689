/** What print_battery_information promises about its output: which text
    becomes the state, what the percentage and the time estimate mean, how
    the lines are numbered, and a worked example. */
module AcpiBatteryFacts {
  import opened CLib
  import opened AcpiFields
  import opened AcpiBattery

  // ---------------------------------------------------------------------
  // the state

  /** How one field changes the state: a state attribute sets it, a
      capacity attribute sets "available" if nothing set it before, any
      other attribute leaves it alone. */
  lemma BatteryStepState(b: BatteryScan, f: Field)
    requires b.voltage != 0
    ensures IsStateAttr(f.attr) ==> BatteryStep(b, f).state == Some(f.value)
    ensures IsCapacityAttr(f.attr) ==> BatteryStep(b, f).state == Available(b.state)
    ensures !IsStateAttr(f.attr) && !IsCapacityAttr(f.attr) ==> BatteryStep(b, f).state == b.state
  {
    if IsStateAttr(f.attr) {
      StateAttrIsNoOtherAttr(f.attr);
    } else if IsCapacityAttr(f.attr) {
      CapacityStepState(b, f);
    } else {
      OtherStepState(b, f);
    }
  }

  /** The state attributes are none of the attributes tested before them. */
  lemma StateAttrIsNoOtherAttr(attr: string)
    requires IsStateAttr(attr)
    ensures !StrCaseEq(attr, "remaining capacity") && !StrCaseEq(attr, "present rate")
    ensures !StrCaseEq(attr, "last full capacity") && !IsCapacityAttr(attr)
  {
  }

  lemma CapacityStepState(b: BatteryScan, f: Field)
    requires b.voltage != 0 && IsCapacityAttr(f.attr)
    ensures BatteryStep(b, f).state == Available(b.state)
  {
  }

  lemma OtherStepState(b: BatteryScan, f: Field)
    requires b.voltage != 0 && !IsCapacityAttr(f.attr) && !IsStateAttr(f.attr)
    ensures BatteryStep(b, f).state == b.state
  {
  }

  /** The state alone, one field at a time. */
  function StateStep(state: Option<string>, f: Field): Option<string>
  {
    if IsStateAttr(f.attr) then Some(f.value)
    else if IsCapacityAttr(f.attr) then Available(state)
    else state
  }

  function StateOf(fields: seq<Field>): Option<string>
  {
    if fields == [] then None
    else StateStep(StateOf(fields[..|fields| - 1]), fields[|fields| - 1])
  }

  /** The state the field loop ends with is the one of the state fold. */
  lemma {:induction false} ScanBatteryState(fields: seq<Field>)
    ensures ScanBattery(fields).state == StateOf(fields)
  {
    if fields != [] {
      ScanBatteryState(fields[..|fields| - 1]);
      BatteryStepState(ScanBattery(fields[..|fields| - 1]), fields[|fields| - 1]);
    }
  }

  /** No state attribute among the fields after position i. */
  predicate NoStateAfter(fields: seq<Field>, i: int)
  {
    forall k :: 0 <= k < |fields| && i < k ==> !IsStateAttr(fields[k].attr)
  }

  /** Some capacity attribute among the fields. */
  predicate HasCapacityAttr(fields: seq<Field>)
  {
    exists i :: 0 <= i < |fields| && IsCapacityAttr(fields[i].attr)
  }

  lemma NoStateAfterFront(fields: seq<Field>, i: int)
    requires fields != [] && NoStateAfter(fields, i)
    ensures NoStateAfter(fields[..|fields| - 1], i)
  {
    var front := fields[..|fields| - 1];
    forall k | 0 <= k < |front| && i < k ensures !IsStateAttr(front[k].attr) {
      assert front[k] == fields[k];
    }
  }

  lemma HasCapacityAttrSnoc(fields: seq<Field>)
    requires fields != []
    ensures HasCapacityAttr(fields) <==>
      HasCapacityAttr(fields[..|fields| - 1]) || IsCapacityAttr(fields[|fields| - 1].attr)
  {
    var front := fields[..|fields| - 1];
    if HasCapacityAttr(front) {
      var i :| 0 <= i < |front| && IsCapacityAttr(front[i].attr);
      assert fields[i] == front[i];
    }
    if HasCapacityAttr(fields) {
      var i :| 0 <= i < |fields| && IsCapacityAttr(fields[i].attr);
      if i < |front| {
        assert fields[i] == front[i];
      }
    }
  }

  /** The last state field decides the state. */
  lemma {:induction false} StateOfLastStateField(fields: seq<Field>, i: nat)
    requires i < |fields| && IsStateAttr(fields[i].attr) && NoStateAfter(fields, i)
    ensures StateOf(fields) == Some(fields[i].value)
  {
    var front := fields[..|fields| - 1];
    if i < |fields| - 1 {
      assert !IsStateAttr(fields[|fields| - 1].attr);
      assert front[i] == fields[i];
      NoStateAfterFront(fields, i);
      StateOfLastStateField(front, i);
    }
  }

  /** Without a state field, the state is "available" exactly when some
      capacity field is present. */
  lemma {:induction false} StateOfWithoutStateField(fields: seq<Field>)
    requires NoStateAfter(fields, -1)
    ensures StateOf(fields) == if HasCapacityAttr(fields) then Some("available") else None
  {
    if fields != [] {
      NoStateAfterFront(fields, -1);
      StateOfWithoutStateField(fields[..|fields| - 1]);
      HasCapacityAttrSnoc(fields);
      assert !IsStateAttr(fields[|fields| - 1].attr);
    }
  }

  /** The state of a battery: the value of the last state field processed;
      without one, "available" exactly when some capacity field is present,
      and no state at all (an empty slot) otherwise. */
  lemma BatteryStateRule(fields: seq<Field>)
    ensures forall i :: 0 <= i < |fields| && IsStateAttr(fields[i].attr) && NoStateAfter(fields, i) ==>
      ScanBattery(fields).state == Some(fields[i].value)
    ensures NoStateAfter(fields, -1) ==>
      ScanBattery(fields).state == if HasCapacityAttr(fields) then Some("available") else None
  {
    ScanBatteryState(fields);
    forall i | 0 <= i < |fields| && IsStateAttr(fields[i].attr) && NoStateAfter(fields, i)
      ensures ScanBattery(fields).state == Some(fields[i].value)
    {
      StateOfLastStateField(fields, i);
    }
    if NoStateAfter(fields, -1) {
      StateOfWithoutStateField(fields);
    }
  }

  // ---------------------------------------------------------------------
  // the percentage

  /** An `int` is below MIN_CAPACITY exactly when it is not positive. */
  lemma BelowMinimumMeansNotPositive(x: int)
    ensures (x as real) < MinCapacity <==> x <= 0
    ensures (x as real) > MinPresentRate <==> x > 0
  {
  }

  /** The status percentage is 0 when the last full capacity is unknown or
      not positive, 100 when the battery holds at least that much, and the
      truncated ratio in between. A missing remaining capacity (-1) with a
      known last full capacity prints a negative percentage. */
  lemma PercentageMeaning(remaining: int, lastFull: int)
    ensures lastFull <= 0 ==> Percentage(remaining, lastFull) == 0
    ensures lastFull > 0 && remaining >= lastFull ==> Percentage(remaining, lastFull) == 100
    ensures lastFull > 0 && 0 <= remaining <= lastFull ==>
      0 <= Percentage(remaining, lastFull) <= 100 &&
      Percentage(remaining, lastFull) * lastFull <= remaining * 100 < (Percentage(remaining, lastFull) + 1) * lastFull
    ensures lastFull > 0 && remaining < 0 ==> Percentage(remaining, lastFull) <= 0
  {
    BelowMinimumMeansNotPositive(lastFull);
    if lastFull > 0 && remaining >= 0 {
      CDivNonNegative(remaining * 100, lastFull);
      if remaining >= lastFull {
        assert remaining * 100 >= lastFull * 100;
        assert CDiv(remaining * 100, lastFull) >= 100 by {
          DivAtLeast(remaining * 100, lastFull, 100);
        }
      }
    }
  }

  lemma DivAtLeast(a: int, b: int, q: int)
    requires b > 0 && q >= 0 && a >= q * b
    ensures a / b >= q
  {
    var d := a / b;
    assert a == b * d + a % b && a % b < b;
    if d < q {
      MulMonotone(b, d, q - 1);
      assert false;
    }
  }

  lemma MulMonotone(b: int, x: int, y: int)
    requires b >= 0 && x <= y
    ensures b * x <= b * y
  {
    assert b * y - b * x == b * (y - x);
  }

  lemma PercentageOfMissingRemaining()
    ensures Percentage(-1, 50) == -2
  {
    BelowMinimumMeansNotPositive(50);
  }

  // ---------------------------------------------------------------------
  // the time estimate

  /** Discharging at a positive rate, the estimate is the whole number of
      seconds the remaining capacity lasts. */
  lemma DischargingEstimate(state: string, rate: int, remaining: int, lastFull: int)
    requires StrCaseEq(state, "discharging") && rate > 0 && remaining >= 0
    ensures var e := TimeEstimate(state, rate, remaining, lastFull);
      e.post == Some(" remaining") &&
      e.seconds * rate <= 3600 * remaining < (e.seconds + 1) * rate
  {
    BelowMinimumMeansNotPositive(rate);
    CDivNonNegative(3600 * remaining, rate);
  }

  /** Charging at a positive rate, the estimate is the whole number of
      seconds until the last full capacity is reached. */
  lemma ChargingEstimate(state: string, rate: int, remaining: int, lastFull: int)
    requires StrCaseEq(state, "charging") && rate > 0 && lastFull >= remaining
    ensures var e := TimeEstimate(state, rate, remaining, lastFull);
      e.post == Some(" until charged") &&
      e.seconds * rate <= 3600 * (lastFull - remaining) < (e.seconds + 1) * rate
  {
    BelowMinimumMeansNotPositive(rate);
    CDivNonNegative(3600 * (lastFull - remaining), rate);
  }

  /** A discharging battery whose remaining capacity is missing (-1) or
      read as 0 or below gets no clock: the estimate 3600*remaining/rate is
      not positive, and the text " remaining" is printed alone. */
  lemma DischargingMissingRemaining(state: string, rate: int, remaining: int, lastFull: int)
    requires StrCaseEq(state, "discharging") && rate > 0 && remaining <= 0
    ensures var e := TimeEstimate(state, rate, remaining, lastFull);
      e.seconds <= 0 && TailOf(e) == Notice(" remaining")
  {
    BelowMinimumMeansNotPositive(rate);
  }

  /** A charging battery already at or above its last full capacity gets no
      clock either: the text " until charged" is printed alone. (A missing
      remaining capacity, -1, is covered by ChargingEstimate: the estimate
      is then taken over lastFull + 1.) */
  lemma ChargingPastFull(state: string, rate: int, remaining: int, lastFull: int)
    requires StrCaseEq(state, "charging") && rate > 0 && remaining >= lastFull
    ensures var e := TimeEstimate(state, rate, remaining, lastFull);
      e.seconds <= 0 && TailOf(e) == Notice(" until charged")
  {
    BelowMinimumMeansNotPositive(rate);
  }

  /** Without an estimate: a rate of -1 says the rate is unknown, any other
      rate that is not positive says it is zero, and a state that is neither
      charging nor discharging gets no text at all. */
  lemma EstimateNotices(state: string, rate: int, remaining: int, lastFull: int)
    ensures rate == -1 ==>
      TimeEstimate(state, rate, remaining, lastFull) == Estimate(-1, Some("rate information unavailable"))
    ensures rate != -1 && rate <= 0 && StrCaseEq(state, "discharging") ==>
      TimeEstimate(state, rate, remaining, lastFull) ==
        Estimate(-1, Some("discharging at zero rate - will never fully discharge."))
    ensures rate != -1 && rate <= 0 && StrCaseEq(state, "charging") ==>
      TimeEstimate(state, rate, remaining, lastFull) ==
        Estimate(-1, Some("charging at zero rate - will never fully charge."))
    ensures rate != -1 && !StrCaseEq(state, "charging") && !StrCaseEq(state, "discharging") ==>
      TimeEstimate(state, rate, remaining, lastFull) == Estimate(-1, None)
  {
    BelowMinimumMeansNotPositive(rate);
  }

  /** A charge given in mWh with a known voltage but no rate: the missing
      rate (-1) is scaled along with the energy, becomes 0 once the voltage
      exceeds 1000 mV, and the line then reads "zero rate" instead of "rate
      information unavailable". */
  lemma ScaledMissingRateReadsAsZero(energy: int, voltage: int)
    requires energy != -1 && voltage > 1000
    ensures var b := BatteryStart.(remainingEnergy := energy, voltage := voltage, state := Some("Discharging"));
      Reconcile(b).rate == 0 &&
      TimeEstimate("Discharging", Reconcile(b).rate, Reconcile(b).remaining, Reconcile(b).lastFull) ==
        Estimate(-1, Some("discharging at zero rate - will never fully discharge."))
  {
  }

  // ---------------------------------------------------------------------
  // the capacity line

  /** The energy fallback: a charge value read from the device is kept
      whenever there is one (the energy value is then ignored), and a
      remaining charge keeps the rate as read. */
  lemma EnergyFallbackKeepsCharge(b: BatteryScan)
    requires b.voltage != 0
    ensures b.lastCapacity != -1 ==> Reconcile(b).lastFull == b.lastCapacity
    ensures b.designCapacity != -1 ==> Reconcile(b).design == b.designCapacity
    ensures b.remainingCapacity != -1 ==>
      Reconcile(b).remaining == b.remainingCapacity && Reconcile(b).rate == b.presentRate
  {
  }

  /** Without a known voltage, an energy value stands in for its missing
      charge value unconverted, and the rate is never rescaled. */
  lemma EnergyFallbackWithoutVoltage(b: BatteryScan)
    requires b.voltage == -1
    ensures b.lastCapacity == -1 ==> Reconcile(b).lastFull == b.lastCapacityUnit
    ensures b.designCapacity == -1 ==> Reconcile(b).design == b.designCapacityUnit
    ensures b.remainingCapacity == -1 ==> Reconcile(b).remaining == b.remainingEnergy
    ensures Reconcile(b).rate == b.presentRate
  {
  }

  /** The capacities are labelled mWh exactly when the last full or the
      design capacity had to fall back to an energy value with no voltage
      known; the remaining-energy fallback never changes the label. */
  lemma EnergyUnitLabel(b: BatteryScan)
    requires b.voltage != 0
    ensures Reconcile(b).unit == "mWh" <==>
      b.voltage == -1 &&
      ((b.lastCapacity == -1 && b.lastCapacityUnit != -1) || (b.designCapacity == -1 && b.designCapacityUnit != -1))
    ensures Reconcile(b).unit == "mWh" || Reconcile(b).unit == "mAh"
    ensures Reconcile(b.(remainingEnergy := -1)).unit == Reconcile(b).unit
  {
  }

  /** A voltage that scales to 0 is stored as -1, so it never divides. */
  lemma ZeroVoltageIsMissing(b: BatteryScan, value: string)
    requires b.voltage != 0 && -1000 < GetUnitValue(value) < 1000
    ensures BatteryStep(b, Field("voltage_now", value)).voltage == -1
  {
  }

  /** A last full capacity above 100 is reported as a share of the design
      capacity, capped at 100; one of at most 100 is a percentage already and
      the capacity is derived from it. */
  lemma CapacityDetailMeaning(design: int, lastFull: int)
    requires design > 0
    ensures 100 < lastFull <= design ==>
      CapacityDetail(design, lastFull) == Detail(lastFull, lastFull * 100 / design) &&
      CapacityDetail(design, lastFull).percentage <= 100
    ensures lastFull > design && lastFull > 100 ==> CapacityDetail(design, lastFull) == Detail(lastFull, 100)
    ensures 0 <= lastFull <= 100 ==>
      CapacityDetail(design, lastFull).percentage == lastFull &&
      CapacityDetail(design, lastFull).lastFull * 100 <= lastFull * design
  {
    if lastFull > 100 {
      CDivNonNegative(lastFull * 100, design);
      if lastFull > design {
        DivAtLeast(lastFull * 100, design, 100);
      } else {
        assert lastFull * 100 <= design * 100;
      }
    } else if lastFull >= 0 {
      CDivNonNegative(lastFull * design, 100);
    }
  }

  /** The percentage branch also takes a missing last full capacity (-1)
      or any other negative one: the percentage printed is that negative
      value, uncapped, and the capacity shown is its truncated share of the
      design capacity, 0 or below. */
  lemma CapacityDetailOfNegative(design: int, lastFull: int)
    requires design > 0 && lastFull < 0
    ensures CapacityDetail(design, lastFull).percentage == lastFull
    ensures var shown := CapacityDetail(design, lastFull).lastFull;
      shown <= 0 && -shown * 100 <= -lastFull * design < (-shown + 1) * 100
    ensures CapacityDetail(250, -1) == Detail(-2, -1)
  {
    var a := lastFull * design;
    assert a < 0 by {
      MulMonotone(design, lastFull, -1);
    }
    var q := CDiv(a, 100);
    assert -q == (-a) / 100;
  }

  // ---------------------------------------------------------------------
  // numbering

  /** Every line carries a number below n. */
  predicate NumbersBelow(lines: seq<BatteryLine>, n: int)
  {
    forall i :: 0 <= i < |lines| ==> lines[i].num < n
  }

  /** The numbers of the lines never go down. */
  predicate NumbersAscending(lines: seq<BatteryLine>)
  {
    forall i, j :: 0 <= i <= j < |lines| ==> lines[i].num <= lines[j].num
  }

  lemma BatteryLinesNumbered(b: BatteryScan, num: nat, showEmptySlots: bool, showCapacity: bool)
    requires b.voltage != 0
    ensures forall i :: 0 <= i < |BatteryLines(b, num, showEmptySlots, showCapacity)| ==>
      BatteryLines(b, num, showEmptySlots, showCapacity)[i].num == num
  {
  }

  lemma NumbersConcat(head: seq<BatteryLine>, last: seq<BatteryLine>, n: nat)
    requires NumbersBelow(head, n) && NumbersAscending(head)
    requires forall i :: 0 <= i < |last| ==> last[i].num == n
    ensures NumbersBelow(head + last, n + 1) && NumbersAscending(head + last)
  {
    var r := head + last;
    forall i | 0 <= i < |r| ensures r[i].num < n + 1 {
      if i >= |head| {
        assert r[i] == last[i - |head|];
      } else {
        assert r[i] == head[i];
      }
    }
    forall i, j | 0 <= i <= j < |r| ensures r[i].num <= r[j].num {
      if j >= |head| {
        assert r[j] == last[j - |head|];
        if i >= |head| {
          assert r[i] == last[i - |head|];
        } else {
          assert r[i] == head[i];
        }
      } else {
        assert r[i] == head[i] && r[j] == head[j];
      }
    }
  }

  /** Batteries are numbered from 0 in processing order: every line carries
      a number below the count of batteries, and the numbers never go down. */
  lemma {:induction false} BatteryReportNumbers(devices: seq<seq<Field>>, showEmptySlots: bool, showCapacity: bool)
    ensures NumbersBelow(BatteryReport(devices, showEmptySlots, showCapacity), BatteryCount(devices))
    ensures NumbersAscending(BatteryReport(devices, showEmptySlots, showCapacity))
  {
    if devices != [] {
      var front := devices[..|devices| - 1];
      var b := ScanBattery(devices[|devices| - 1]);
      BatteryReportNumbers(front, showEmptySlots, showCapacity);
      var head := BatteryReport(front, showEmptySlots, showCapacity);
      if b.typeBattery {
        BatteryLinesNumbered(b, BatteryCount(front), showEmptySlots, showCapacity);
        NumbersConcat(head, BatteryLines(b, BatteryCount(front), showEmptySlots, showCapacity), BatteryCount(front));
      } else {
        assert BatteryReport(devices, showEmptySlots, showCapacity) == head + [];
      }
    }
  }

  /** With empty slots shown and no capacity lines, every battery prints
      exactly one line, so line i belongs to battery i and carries i. */
  lemma {:induction false} BatteryReportOneLineEach(devices: seq<seq<Field>>)
    ensures |BatteryReport(devices, true, false)| == BatteryCount(devices)
    ensures forall i :: 0 <= i < |BatteryReport(devices, true, false)| ==>
      BatteryReport(devices, true, false)[i].num == i
  {
    if devices != [] {
      var front := devices[..|devices| - 1];
      var b := ScanBattery(devices[|devices| - 1]);
      BatteryReportOneLineEach(front);
      var head := BatteryReport(front, true, false);
      var r := BatteryReport(devices, true, false);
      if b.typeBattery {
        var last := BatteryLines(b, BatteryCount(front), true, false);
        assert |last| == 1 && last[0].num == BatteryCount(front);
        assert r == head + last;
        forall i | 0 <= i < |r| ensures r[i].num == i {
          if i < |head| {
            assert r[i] == head[i];
          } else {
            assert r[i] == last[0];
          }
        }
      } else {
        assert r == head + [];
      }
    }
  }

  // ---------------------------------------------------------------------
  // the worked example

  lemma Value50000(s: string)
    requires s == "50000"
    ensures GetUnitValue(s) == 50000
  {
    assert DecimalText(50000) + "" == s;
    GetUnitValueReadsNumber(50000, "", "");
  }

  lemma Value100000(s: string)
    requires s == "100000"
    ensures GetUnitValue(s) == 100000
  {
    assert DecimalText(100000) + "" == s;
    GetUnitValueReadsNumber(100000, "", "");
  }

  lemma Value10000(s: string)
    requires s == "10000"
    ensures GetUnitValue(s) == 10000
  {
    assert DecimalText(10000) + "" == s;
    GetUnitValueReadsNumber(10000, "", "");
  }

  lemma ExampleStep1(v: string)
    requires GetUnitValue(v) == 50000
    ensures BatteryStep(BatteryStart, Field("charge_now", v)) ==
      BatteryStart.(remainingCapacity := 50, state := Some("available"))
  {
  }

  lemma ExampleStep2(b: BatteryScan, v: string)
    requires b.voltage != 0 && GetUnitValue(v) == 100000
    ensures BatteryStep(b, Field("charge_full", v)) == b.(lastCapacity := 100, state := Available(b.state))
  {
  }

  lemma ExampleStep3(b: BatteryScan)
    requires b.voltage != 0
    ensures BatteryStep(b, Field("charging state", "Discharging")) == b.(state := Some("Discharging"))
  {
    StateAttrIsNoOtherAttr("charging state");
  }

  lemma ExampleStep4(b: BatteryScan, v: string)
    requires b.voltage != 0 && GetUnitValue(v) == 10000
    ensures BatteryStep(b, Field("current_now", v)) == b.(presentRate := 10)
  {
  }

  /** The field loop over the example: charge 50 mAh of 100 mAh, 10 mA. */
  lemma ExampleScan(v1: string, v2: string, v4: string)
    requires GetUnitValue(v1) == 50000 && GetUnitValue(v2) == 100000 && GetUnitValue(v4) == 10000
    ensures ScanBattery([Field("charge_now", v1), Field("charge_full", v2),
        Field("charging state", "Discharging"), Field("current_now", v4)]) ==
      BatteryStart.(remainingCapacity := 50, lastCapacity := 100, presentRate := 10, state := Some("Discharging"))
  {
    var fs := [Field("charge_now", v1), Field("charge_full", v2),
        Field("charging state", "Discharging"), Field("current_now", v4)];
    var b1 := BatteryStart.(remainingCapacity := 50, state := Some("available"));
    var b2 := b1.(lastCapacity := 100);
    var b3 := b2.(state := Some("Discharging"));
    assert ScanBattery(fs[..1]) == b1 by {
      assert fs[..1][..0] == [];
      ExampleStep1(v1);
    }
    assert ScanBattery(fs[..2]) == b2 by {
      assert fs[..2][..1] == fs[..1];
      ExampleStep2(b1, v2);
    }
    assert ScanBattery(fs[..3]) == b3 by {
      assert fs[..3][..2] == fs[..2];
      ExampleStep3(b2);
    }
    assert fs[..4][..3] == fs[..3];
    assert fs[..4] == fs;
    ExampleStep4(b3, v4);
  }

  /** The lines of the example's battery: 50 % and 3600 * 50 / 10 = 18000
      seconds, that is five hours, remaining. */
  lemma ExampleLines()
    ensures BatteryLines(BatteryStart.(remainingCapacity := 50, lastCapacity := 100, presentRate := 10,
        state := Some("Discharging")), 0, false, false) ==
      [BatteryStatus(0, "Discharging", 50, Clock(5, 0, 0, " remaining"))]
  {
    BelowMinimumMeansNotPositive(100);
    BelowMinimumMeansNotPositive(10);
  }

  /** A worked example: a discharging battery with half its charge
      left that draws a tenth of its capacity per hour prints "Battery 0:
      Discharging, 50%, 05:00:00 remaining" and, without -i, no capacity
      line. */
  lemma DischargingExample(chargeNow: string, chargeFull: string, currentNow: string)
    requires chargeNow == "50000" && chargeFull == "100000" && currentNow == "10000"
    ensures BatteryReport([[Field("charge_now", chargeNow), Field("charge_full", chargeFull),
        Field("charging state", "Discharging"), Field("current_now", currentNow)]], false, false) ==
      [BatteryStatus(0, "Discharging", 50, Clock(5, 0, 0, " remaining"))]
  {
    Value50000(chargeNow);
    Value100000(chargeFull);
    Value10000(currentNow);
    ExampleScan(chargeNow, chargeFull, currentNow);
    ExampleLines();
  }
}
