/** print_cooling_information (acpi.c): the line of each cooling device.
    The fields of a device are taken in processing order; a later field of
    the same kind overwrites what an earlier one set. */
module AcpiCooling {
  import opened CLib
  import opened AcpiFields
  import AcpiThermal
  import AcpiThermalFacts

  /** The locals once a device's field list has been walked. */
  datatype CoolingScan = CoolingScan(state: Option<string>, typ: Option<string>, curState: int, maxState: int,
                                     typeCooling: bool)

  /** The locals before the first field; the type flag is reset per device. */
  const CoolingStart := CoolingScan(None, None, -1, -1, true)

  /** Whether a type names a thermal zone rather than a cooling device. */
  predicate ZoneType(value: string)
  {
    Contains(value, "thermal zone") || Contains(value, "acpitz")
  }

  /** One field of the chain of tests in the field loop; only `status`
      sets the state. */
  function CoolingStep(c: CoolingScan, f: Field): CoolingScan
  {
    if f.attr == "status" then
      c.(state := Some(f.value))
    else if f.attr == "type" then
      c.(typ := Some(f.value), typeCooling := !ZoneType(f.value))
    else if f.attr == "cur_state" then
      c.(curState := GetUnitValue(f.value))
    else if f.attr == "max_state" then
      c.(maxState := GetUnitValue(f.value))
    else
      c
  }

  /** The locals after the given fields, in processing order. */
  function ScanCooling(fields: seq<Field>): CoolingScan
  {
    if fields == [] then CoolingStart
    else CoolingStep(ScanCooling(fields[..|fields| - 1]), fields[|fields| - 1])
  }

  /** The lines printed for one cooling device, numbered `num`. */
  datatype CoolingLine =
    | CoolingSlotEmpty(num: nat)
    | CoolingStatus(num: nat, state: string)
    | CoolingNoState(num: nat, typ: string)
    | CoolingProgress(num: nat, typ: string, curState: int, maxState: int)

  function CoolingLines(c: CoolingScan, num: nat, showEmptySlots: bool): seq<CoolingLine>
  {
    if c.state.None? && c.typ.None? then
      if showEmptySlots then [CoolingSlotEmpty(num)] else []
    else if c.state.Some? then
      [CoolingStatus(num, c.state.value)]
    else if c.curState < 0 || c.maxState < 0 then
      [CoolingNoState(num, c.typ.value)]
    else
      [CoolingProgress(num, c.typ.value, c.curState, c.maxState)]
  }

  /** The number of devices among the given ones that are cooling devices. */
  function CoolingCount(devices: seq<seq<Field>>): nat
  {
    if devices == [] then 0
    else
      var last := if ScanCooling(devices[|devices| - 1]).typeCooling then 1 else 0;
      CoolingCount(devices[..|devices| - 1]) + last
  }

  /** Everything print_cooling_information prints for the devices, in
      order: a thermal zone prints nothing here and takes no number. */
  function CoolingReport(devices: seq<seq<Field>>, showEmptySlots: bool): seq<CoolingLine>
  {
    if devices == [] then []
    else
      var front := devices[..|devices| - 1];
      var c := ScanCooling(devices[|devices| - 1]);
      CoolingReport(front, showEmptySlots) +
        (if c.typeCooling then CoolingLines(c, CoolingCount(front), showEmptySlots) else [])
  }

  // ---------------------------------------------------------------------
  // the resolver

  /** print_cooling_information: the outer loop over the devices. */
  method PrintCoolingInformation(cooling: seq<seq<Field>>, showEmptySlots: bool)
    returns (out: seq<CoolingLine>)
    ensures out == CoolingReport(cooling, showEmptySlots)
  {
    out := [];
    var sensorNum := 1;
    var d := 0;
    while d < |cooling|
      invariant 0 <= d <= |cooling|
      invariant sensorNum == CoolingCount(cooling[..d]) + 1
      invariant out == CoolingReport(cooling[..d], showEmptySlots)
    {
      var lines, isCooling := CoolingInformation(cooling[d], sensorNum - 1, showEmptySlots);
      assert cooling[..d + 1][..d] == cooling[..d];
      out := out + lines;
      if isCooling {
        sensorNum := sensorNum + 1;
      }
      d := d + 1;
    }
    assert cooling[..d] == cooling;
  }

  /** One pass of the outer loop: the field loop, then the line. */
  method CoolingInformation(fields: seq<Field>, num: nat, showEmptySlots: bool)
    returns (lines: seq<CoolingLine>, isCooling: bool)
    ensures isCooling == ScanCooling(fields).typeCooling
    ensures lines == if isCooling then CoolingLines(ScanCooling(fields), num, showEmptySlots) else []
  {
    var state: Option<string> := None;
    var typ: Option<string> := None;
    var curState, maxState := -1, -1;
    var typeCooling := true;
    var j := 0;
    while j < |fields|
      invariant 0 <= j <= |fields|
      invariant CoolingScan(state, typ, curState, maxState, typeCooling) == ScanCooling(fields[..j])
    {
      var value := fields[j];
      assert fields[..j + 1][..j] == fields[..j];
      if value.attr == "status" {
        state := Some(value.value);
      } else if value.attr == "type" {
        typ := Some(value.value);
        typeCooling := !Contains(value.value, "thermal zone") && !Contains(value.value, "acpitz");
      } else if value.attr == "cur_state" {
        curState := GetUnitValue(value.value);
      } else if value.attr == "max_state" {
        maxState := GetUnitValue(value.value);
      }
      j := j + 1;
    }
    assert fields[..j] == fields;
    isCooling := typeCooling;
    lines := [];
    if typeCooling {
      if state.None? && typ.None? {
        if showEmptySlots {
          lines := [CoolingSlotEmpty(num)];
        }
      } else if state.Some? {
        lines := [CoolingStatus(num, state.value)];
      } else if curState < 0 || maxState < 0 {
        lines := [CoolingNoState(num, typ.value)];
      } else {
        lines := [CoolingProgress(num, typ.value, curState, maxState)];
      }
    }
  }

  // ---------------------------------------------------------------------
  // properties

  /** The last `status` field processed gives the state; a `state` field,
      which the thermal resolver reads, is ignored here. */
  lemma {:induction false} CoolingLastStatusField(fields: seq<Field>, i: nat)
    requires i < |fields| && fields[i].attr == "status" && NoAttrAfter(fields, "status", i)
    ensures ScanCooling(fields).state == Some(fields[i].value)
  {
    var front := fields[..|fields| - 1];
    if i < |fields| - 1 {
      assert fields[|fields| - 1].attr != "status";
      assert front[i] == fields[i];
      NoAttrAfterFront(fields, "status", i);
      CoolingLastStatusField(front, i);
    }
  }

  /** Without a `status` field there is no state. */
  lemma {:induction false} CoolingWithoutStatus(fields: seq<Field>)
    requires NoAttrAfter(fields, "status", -1)
    ensures ScanCooling(fields).state.None?
  {
    if fields != [] {
      NoAttrAfterFront(fields, "status", -1);
      CoolingWithoutStatus(fields[..|fields| - 1]);
      assert fields[|fields| - 1].attr != "status";
    }
  }

  /** The last `type` field processed gives the type text, and the device
      is a cooling device unless that text names a thermal zone. */
  lemma {:induction false} CoolingLastTypeField(fields: seq<Field>, i: nat)
    requires i < |fields| && fields[i].attr == "type" && NoAttrAfter(fields, "type", i)
    ensures ScanCooling(fields).typ == Some(fields[i].value)
    ensures ScanCooling(fields).typeCooling == !ZoneType(fields[i].value)
  {
    var front := fields[..|fields| - 1];
    if i < |fields| - 1 {
      assert fields[|fields| - 1].attr != "type";
      assert front[i] == fields[i];
      NoAttrAfterFront(fields, "type", i);
      CoolingLastTypeField(front, i);
    }
  }

  /** Without a `type` field there is no type text and the device counts
      as a cooling device: unlike the thermal flag, this one is reset for
      every device. */
  lemma {:induction false} CoolingWithoutType(fields: seq<Field>)
    requires NoAttrAfter(fields, "type", -1)
    ensures ScanCooling(fields).typ.None? && ScanCooling(fields).typeCooling
  {
    if fields != [] {
      NoAttrAfterFront(fields, "type", -1);
      CoolingWithoutType(fields[..|fields| - 1]);
      assert fields[|fields| - 1].attr != "type";
    }
  }

  /** The last `cur_state` field processed gives the current state; -1
      without one. */
  lemma {:induction false} CurStateLastField(fields: seq<Field>, i: nat)
    requires i < |fields| && fields[i].attr == "cur_state" && NoAttrAfter(fields, "cur_state", i)
    ensures ScanCooling(fields).curState == GetUnitValue(fields[i].value)
  {
    var front := fields[..|fields| - 1];
    if i < |fields| - 1 {
      assert fields[|fields| - 1].attr != "cur_state";
      assert front[i] == fields[i];
      NoAttrAfterFront(fields, "cur_state", i);
      CurStateLastField(front, i);
    }
  }

  lemma {:induction false} CurStateMissing(fields: seq<Field>)
    requires NoAttrAfter(fields, "cur_state", -1)
    ensures ScanCooling(fields).curState == -1
  {
    if fields != [] {
      NoAttrAfterFront(fields, "cur_state", -1);
      CurStateMissing(fields[..|fields| - 1]);
      assert fields[|fields| - 1].attr != "cur_state";
    }
  }

  /** Likewise `max_state`. */
  lemma {:induction false} MaxStateLastField(fields: seq<Field>, i: nat)
    requires i < |fields| && fields[i].attr == "max_state" && NoAttrAfter(fields, "max_state", i)
    ensures ScanCooling(fields).maxState == GetUnitValue(fields[i].value)
  {
    var front := fields[..|fields| - 1];
    if i < |fields| - 1 {
      assert fields[|fields| - 1].attr != "max_state";
      assert front[i] == fields[i];
      NoAttrAfterFront(fields, "max_state", i);
      MaxStateLastField(front, i);
    }
  }

  lemma {:induction false} MaxStateMissing(fields: seq<Field>)
    requires NoAttrAfter(fields, "max_state", -1)
    ensures ScanCooling(fields).maxState == -1
  {
    if fields != [] {
      NoAttrAfterFront(fields, "max_state", -1);
      MaxStateMissing(fields[..|fields| - 1]);
      assert fields[|fields| - 1].attr != "max_state";
    }
  }

  /** A device with neither a `status` nor a `type` field is a cooling
      device and prints an empty slot (or nothing). */
  lemma EmptySlotRule(fields: seq<Field>, num: nat, showEmptySlots: bool)
    requires NoAttrAfter(fields, "status", -1) && NoAttrAfter(fields, "type", -1)
    ensures ScanCooling(fields).typeCooling
    ensures CoolingLines(ScanCooling(fields), num, showEmptySlots) ==
      if showEmptySlots then [CoolingSlotEmpty(num)] else []
  {
    CoolingWithoutStatus(fields);
    CoolingWithoutType(fields);
  }

  /** Otherwise the text of the last `status` field is the line, whatever
      the type and the counts say. */
  lemma StatusLineRule(fields: seq<Field>, i: nat, num: nat, showEmptySlots: bool)
    requires i < |fields| && fields[i].attr == "status" && NoAttrAfter(fields, "status", i)
    ensures CoolingLines(ScanCooling(fields), num, showEmptySlots) == [CoolingStatus(num, fields[i].value)]
  {
    CoolingLastStatusField(fields, i);
  }

  /** Without a `status` field, the type text is shown with "cur of max"
      when both counts read as non-negative, and with "no state information
      available" when either is negative. */
  lemma TypeLineRule(fields: seq<Field>, i: nat, num: nat, showEmptySlots: bool)
    requires NoAttrAfter(fields, "status", -1)
    requires i < |fields| && fields[i].attr == "type" && NoAttrAfter(fields, "type", i)
    ensures var c := ScanCooling(fields);
      CoolingLines(c, num, showEmptySlots) ==
        if c.curState >= 0 && c.maxState >= 0 then [CoolingProgress(num, fields[i].value, c.curState, c.maxState)]
        else [CoolingNoState(num, fields[i].value)]
  {
    CoolingWithoutStatus(fields);
    CoolingLastTypeField(fields, i);
  }

  /** In particular a missing `cur_state` or `max_state` field gives "no
      state information available". */
  lemma MissingCountRule(fields: seq<Field>, i: nat, num: nat, showEmptySlots: bool)
    requires NoAttrAfter(fields, "status", -1)
    requires i < |fields| && fields[i].attr == "type" && NoAttrAfter(fields, "type", i)
    requires !HasAttr(fields, "cur_state") || !HasAttr(fields, "max_state")
    ensures CoolingLines(ScanCooling(fields), num, showEmptySlots) == [CoolingNoState(num, fields[i].value)]
  {
    TypeLineRule(fields, i, num, showEmptySlots);
    if !HasAttr(fields, "cur_state") {
      NoAttrAnywhere(fields, "cur_state");
      CurStateMissing(fields);
    } else {
      NoAttrAnywhere(fields, "max_state");
      MaxStateMissing(fields);
    }
  }

  /** A device with a `type` field is listed by exactly one of the thermal
      and the cooling resolvers, whatever flag the previous sensor left. */
  lemma CoolingOrZone(fields: seq<Field>, typeZone: bool)
    requires HasAttr(fields, "type")
    ensures ScanCooling(fields).typeCooling == !AcpiThermal.ScanThermal(fields, typeZone).typeZone
  {
    LastAttrExists(fields, "type");
    var i :| 0 <= i < |fields| && fields[i].attr == "type" && NoAttrAfter(fields, "type", i);
    AcpiThermalFacts.ZoneLastTypeField(fields, i, typeZone);
    CoolingLastTypeField(fields, i);
  }

  /** Cooling devices are numbered from 0 in processing order: with empty
      slots shown, each prints exactly one line, and the line at position i
      carries the number i. */
  lemma {:induction false} CoolingReportNumbers(devices: seq<seq<Field>>, showEmptySlots: bool)
    ensures |CoolingReport(devices, showEmptySlots)| <= CoolingCount(devices)
    ensures showEmptySlots ==> |CoolingReport(devices, showEmptySlots)| == CoolingCount(devices)
    ensures forall i :: 0 <= i < |CoolingReport(devices, showEmptySlots)| ==>
      CoolingReport(devices, showEmptySlots)[i].num < CoolingCount(devices)
    ensures showEmptySlots ==> forall i :: 0 <= i < |CoolingReport(devices, showEmptySlots)| ==>
      CoolingReport(devices, showEmptySlots)[i].num == i
  {
    if devices != [] {
      var front := devices[..|devices| - 1];
      CoolingReportNumbers(front, showEmptySlots);
      var head := CoolingReport(front, showEmptySlots);
      var r := CoolingReport(devices, showEmptySlots);
      var c := ScanCooling(devices[|devices| - 1]);
      if c.typeCooling {
        var last := CoolingLines(c, CoolingCount(front), showEmptySlots);
        assert r == head + last;
        forall i | 0 <= i < |r|
          ensures r[i].num < CoolingCount(devices) && (showEmptySlots ==> r[i].num == i)
        {
          if i < |head| {
            assert r[i] == head[i];
          } else {
            assert r[i] == last[i - |head|];
          }
        }
      } else {
        assert r == head;
      }
    }
  }
}
