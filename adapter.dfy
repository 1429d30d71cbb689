/** print_ac_adapter_information (acpi.c): the state line of each AC
    adapter. The fields of a device are taken in processing order; a later
    field of the same kind overwrites what an earlier one set. */
module AcpiAdapter {
  import opened CLib
  import opened AcpiFields

  /** The locals once a device's field list has been walked: the state text
      (NULL when none) and whether the device is a mains adapter. */
  datatype AdapterScan = AdapterScan(state: Option<string>, typeAc: bool)

  /** The locals before the first field; the type flag is reset per device. */
  const AdapterStart := AdapterScan(None, true)

  /** The text of an `online` field: "off-line" only for a value that reads
      as 0, "on-line" for any other, including an unreadable one (-1). */
  function OnlineText(value: string): string
  {
    if GetUnitValue(value) != 0 then "on-line" else "off-line"
  }

  /** One field of the chain of tests in the field loop. */
  function AdapterStep(a: AdapterScan, f: Field): AdapterScan
  {
    if f.attr == "state" || f.attr == "status" then
      a.(state := Some(f.value))
    else if f.attr == "online" then
      a.(state := Some(OnlineText(f.value)))
    else if f.attr == "type" then
      a.(typeAc := StrCaseEq(f.value, "mains"))
    else
      a
  }

  /** The locals after the given fields, in processing order. */
  function ScanAdapter(fields: seq<Field>): AdapterScan
  {
    if fields == [] then AdapterStart
    else AdapterStep(ScanAdapter(fields[..|fields| - 1]), fields[|fields| - 1])
  }

  /** The lines printed for one adapter, numbered `num`. */
  datatype AdapterLine =
    | AdapterSlotEmpty(num: nat)
    | AdapterStatus(num: nat, state: string)

  function AdapterLines(a: AdapterScan, num: nat, showEmptySlots: bool): seq<AdapterLine>
  {
    if a.state.None? then
      if showEmptySlots then [AdapterSlotEmpty(num)] else []
    else
      [AdapterStatus(num, a.state.value)]
  }

  /** The number of devices among the given ones that are mains adapters. */
  function AdapterCount(devices: seq<seq<Field>>): nat
  {
    if devices == [] then 0
    else
      var last := if ScanAdapter(devices[|devices| - 1]).typeAc then 1 else 0;
      AdapterCount(devices[..|devices| - 1]) + last
  }

  /** Everything print_ac_adapter_information prints for the devices, in
      order: a device whose type is not "Mains" prints nothing and takes no
      number. */
  function AdapterReport(devices: seq<seq<Field>>, showEmptySlots: bool): seq<AdapterLine>
  {
    if devices == [] then []
    else
      var front := devices[..|devices| - 1];
      var a := ScanAdapter(devices[|devices| - 1]);
      AdapterReport(front, showEmptySlots) +
        (if a.typeAc then AdapterLines(a, AdapterCount(front), showEmptySlots) else [])
  }

  // ---------------------------------------------------------------------
  // the resolver

  /** print_ac_adapter_information: the outer loop over the devices. */
  method PrintAcAdapterInformation(adapters: seq<seq<Field>>, showEmptySlots: bool)
    returns (out: seq<AdapterLine>)
    ensures out == AdapterReport(adapters, showEmptySlots)
  {
    out := [];
    var adapterNum := 1;
    var d := 0;
    while d < |adapters|
      invariant 0 <= d <= |adapters|
      invariant adapterNum == AdapterCount(adapters[..d]) + 1
      invariant out == AdapterReport(adapters[..d], showEmptySlots)
    {
      var lines, isAdapter := AdapterInformation(adapters[d], adapterNum - 1, showEmptySlots);
      assert adapters[..d + 1][..d] == adapters[..d];
      out := out + lines;
      if isAdapter {
        adapterNum := adapterNum + 1;
      }
      d := d + 1;
    }
    assert adapters[..d] == adapters;
  }

  /** One pass of the outer loop: the field loop, then the line. */
  method AdapterInformation(fields: seq<Field>, num: nat, showEmptySlots: bool)
    returns (lines: seq<AdapterLine>, isAdapter: bool)
    ensures isAdapter == ScanAdapter(fields).typeAc
    ensures lines == if isAdapter then AdapterLines(ScanAdapter(fields), num, showEmptySlots) else []
  {
    var state: Option<string> := None;
    var typeAc := true;
    var j := 0;
    while j < |fields|
      invariant 0 <= j <= |fields|
      invariant AdapterScan(state, typeAc) == ScanAdapter(fields[..j])
    {
      var value := fields[j];
      assert fields[..j + 1][..j] == fields[..j];
      if value.attr == "state" || value.attr == "status" {
        state := Some(value.value);
      } else if value.attr == "online" {
        state := Some(if GetUnitValue(value.value) != 0 then "on-line" else "off-line");
      } else if value.attr == "type" {
        typeAc := StrCaseEq(value.value, "mains");
      }
      j := j + 1;
    }
    assert fields[..j] == fields;
    isAdapter := typeAc;
    lines := [];
    if typeAc {
      if state.None? {
        if showEmptySlots {
          lines := [AdapterSlotEmpty(num)];
        }
      } else {
        lines := [AdapterStatus(num, state.value)];
      }
    }
  }

  // ---------------------------------------------------------------------
  // properties

  /** The attributes that set the state. */
  predicate IsAdapterStateAttr(attr: string)
  {
    attr == "state" || attr == "status" || attr == "online"
  }

  /** The state text a state field gives. */
  function AdapterStateText(f: Field): string
  {
    if f.attr == "online" then OnlineText(f.value) else f.value
  }

  /** No state field after position i. */
  predicate NoAdapterStateAfter(fields: seq<Field>, i: int)
  {
    forall k :: 0 <= k < |fields| && i < k ==> !IsAdapterStateAttr(fields[k].attr)
  }

  lemma NoAdapterStateAfterFront(fields: seq<Field>, i: int)
    requires fields != [] && NoAdapterStateAfter(fields, i)
    ensures NoAdapterStateAfter(fields[..|fields| - 1], i)
  {
    var front := fields[..|fields| - 1];
    forall k | 0 <= k < |front| && i < k ensures !IsAdapterStateAttr(front[k].attr) {
      assert front[k] == fields[k];
    }
  }

  /** The last state, status or online field processed decides the state. */
  lemma {:induction false} AdapterLastStateField(fields: seq<Field>, i: nat)
    requires i < |fields| && IsAdapterStateAttr(fields[i].attr) && NoAdapterStateAfter(fields, i)
    ensures ScanAdapter(fields).state == Some(AdapterStateText(fields[i]))
  {
    var front := fields[..|fields| - 1];
    if i < |fields| - 1 {
      assert !IsAdapterStateAttr(fields[|fields| - 1].attr);
      assert front[i] == fields[i];
      NoAdapterStateAfterFront(fields, i);
      AdapterLastStateField(front, i);
    }
  }

  /** Without such a field the adapter has no state: an empty slot. */
  lemma {:induction false} AdapterWithoutStateField(fields: seq<Field>)
    requires NoAdapterStateAfter(fields, -1)
    ensures ScanAdapter(fields).state.None?
  {
    if fields != [] {
      NoAdapterStateAfterFront(fields, -1);
      AdapterWithoutStateField(fields[..|fields| - 1]);
      assert !IsAdapterStateAttr(fields[|fields| - 1].attr);
    }
  }

  /** `online` reads "off-line" exactly when its value reads as 0; an
      unreadable value reads "on-line". */
  lemma OnlineMeaning(value: string)
    ensures OnlineText(value) == "off-line" <==> GetUnitValue(value) == 0
    ensures OnlineText(value) == "on-line" || OnlineText(value) == "off-line"
    ensures OnlineText(DecimalText(0)) == "off-line" && OnlineText(DecimalText(1)) == "on-line"
    ensures OnlineText("yes") == "on-line"
  {
    GetUnitValueReadsNumber(0, "", "yes");
    GetUnitValueReadsNumber(1, "", "yes");
    assert DecimalText(0) + "" == DecimalText(0);
    assert DecimalText(1) + "" == DecimalText(1);
  }

  /** Whether the device is an adapter: the last `type` field processed
      decides, by a case-insensitive comparison with "mains"... */
  lemma {:induction false} AdapterLastTypeField(fields: seq<Field>, i: nat)
    requires i < |fields| && fields[i].attr == "type" && NoAttrAfter(fields, "type", i)
    ensures ScanAdapter(fields).typeAc == StrCaseEq(fields[i].value, "mains")
  {
    var front := fields[..|fields| - 1];
    if i < |fields| - 1 {
      assert fields[|fields| - 1].attr != "type";
      assert front[i] == fields[i];
      NoAttrAfterFront(fields, "type", i);
      AdapterLastTypeField(front, i);
    }
  }

  /** ... and a device without a `type` field counts as an adapter. */
  lemma {:induction false} AdapterWithoutType(fields: seq<Field>)
    requires NoAttrAfter(fields, "type", -1)
    ensures ScanAdapter(fields).typeAc
  {
    if fields != [] {
      NoAttrAfterFront(fields, "type", -1);
      AdapterWithoutType(fields[..|fields| - 1]);
      assert fields[|fields| - 1].attr != "type";
    }
  }

  /** Adapters are numbered from 0 in processing order: the lines of the
      report carry the numbers 0, 1, ... in turn, one per adapter. */
  lemma {:induction false} AdapterReportNumbers(devices: seq<seq<Field>>, showEmptySlots: bool)
    ensures |AdapterReport(devices, showEmptySlots)| <= AdapterCount(devices)
    ensures forall i :: 0 <= i < |AdapterReport(devices, showEmptySlots)| ==>
      AdapterReport(devices, showEmptySlots)[i].num < AdapterCount(devices)
    ensures showEmptySlots ==> forall i :: 0 <= i < |AdapterReport(devices, showEmptySlots)| ==>
      AdapterReport(devices, showEmptySlots)[i].num == i
  {
    if devices != [] {
      var front := devices[..|devices| - 1];
      AdapterReportNumbers(front, showEmptySlots);
      var head := AdapterReport(front, showEmptySlots);
      var r := AdapterReport(devices, showEmptySlots);
      var a := ScanAdapter(devices[|devices| - 1]);
      if a.typeAc {
        var last := AdapterLines(a, AdapterCount(front), showEmptySlots);
        assert r == head + last;
        forall i | 0 <= i < |r| ensures r[i].num < AdapterCount(devices) {
          if i < |head| {
            assert r[i] == head[i];
          } else {
            assert r[i] == last[i - |head|];
          }
        }
        if showEmptySlots {
          assert |head| == AdapterCount(front) by {
            AdapterReportCountsAll(front);
          }
          forall i | 0 <= i < |r| ensures r[i].num == i {
            if i < |head| {
              assert r[i] == head[i];
            } else {
              assert r[i] == last[i - |head|];
            }
          }
        }
      } else {
        assert r == head;
      }
    }
  }

  /** With empty slots shown, every adapter prints exactly one line. */
  lemma {:induction false} AdapterReportCountsAll(devices: seq<seq<Field>>)
    ensures |AdapterReport(devices, true)| == AdapterCount(devices)
  {
    if devices != [] {
      AdapterReportCountsAll(devices[..|devices| - 1]);
    }
  }
}
