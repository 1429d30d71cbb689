/** How one line of a status file becomes an attribute/value pair
    (parse_field), how a value is read as a number (get_unit_value), the
    tables naming the files read per device, and the per-file fold that
    collects the pairs into a list (parse_info_file). */
module AcpiFields {
  import opened CLib
  import opened LinkedList

  /** `struct field`: one observation of a device. */
  datatype Field = Field(attr: string, value: string)

  // ---------------------------------------------------------------------
  // get_unit_value

  /** get_unit_value: the integer sscanf's `%d` reads at the front of the
      value, or the sentinel -1 when there is none. */
  function GetUnitValue(value: string): int
  {
    match ScanInt(value)
    case Some(n) => n
    case None => -1
  }

  /** A value that starts with a number reads as that number; one that does
      not reads as -1 (which a literal "-1" also gives). */
  lemma GetUnitValueReadsNumber(n: int, rest: string, junk: string)
    requires rest == [] || !IsDigit(rest[0])
    requires junk == [] || (!IsSpace(junk[0]) && !IsDigit(junk[0]) && junk[0] != '-' && junk[0] != '+')
    ensures GetUnitValue(DecimalText(n) + rest) == n
    ensures GetUnitValue(junk) == -1
  {
    ScanDecimalText(n, rest);
    assert junk != [] ==> SkipSpace(junk) == junk;
  }

  // ---------------------------------------------------------------------
  // parse_field

  /** The position of the first ':' at or after `from` (ColonFromFirst). */
  function ColonFrom(line: string, from: nat): (r: Option<nat>)
    decreases |line| - from
    ensures r.Some? ==> from <= r.value < |line|
  {
    if from >= |line| then None
    else if line[from] == ':' then Some(from)
    else ColonFrom(line, from + 1)
  }

  lemma {:induction false} ColonFromFirst(line: string, from: nat)
    decreases |line| - from
    ensures ColonFrom(line, from).Some? ==> line[ColonFrom(line, from).value] == ':'
    ensures ColonFrom(line, from).Some? ==>
      forall i :: from <= i < ColonFrom(line, from).value ==> line[i] != ':'
    ensures ColonFrom(line, from).None? ==> forall i :: from <= i < |line| ==> line[i] != ':'
  {
    if from < |line| && line[from] != ':' {
      ColonFromFirst(line, from + 1);
    }
  }

  /** The first position at or after `k` that does not hold a space
      (SpacesEndStops). */
  function SpacesEnd(line: string, k: nat): (r: nat)
    requires k <= |line|
    decreases |line| - k
    ensures k <= r <= |line|
  {
    if k == |line| || line[k] != ' ' then k else SpacesEnd(line, k + 1)
  }

  lemma {:induction false} SpacesEndStops(line: string, k: nat)
    requires k <= |line|
    decreases |line| - k
    ensures forall i :: k <= i < SpacesEnd(line, k) ==> line[i] == ' '
    ensures SpacesEnd(line, k) == |line| || line[SpacesEnd(line, k)] != ' '
  {
    if k < |line| && line[k] == ' ' {
      SpacesEndStops(line, k + 1);
    }
  }

  /** The string with one trailing newline removed, if it has one. (The
      source reads s[strlen(s) - 1] without checking that s is not empty;
      the model checks.) */
  function DropNewline(s: string): string
  {
    if |s| > 0 && s[|s| - 1] == '\n' then s[..|s| - 1] else s
  }

  /** At most one trailing newline is lost, and only a newline. */
  lemma DropNewlineLosesOneNewline(s: string)
    ensures s == DropNewline(s) || s == DropNewline(s) + "\n"
    ensures |s| > 0 && s[|s| - 1] == '\n' ==> s == DropNewline(s) + "\n"
    ensures DropNewline(s + "\n") == s
  {
    assert (s + "\n")[..|s|] == s;
  }

  /** What parse_field makes of one line. With a given attribute name the
      whole line is the value. Otherwise the attribute is the text before the
      first ':' found at position 1 or later (the scan never examines
      position 0), and the value is the text after that ':' with its leading
      spaces skipped; a line with no such ':' gives no field. */
  function FieldOf(line: string, givenAttr: Option<string>): Option<Field>
  {
    match givenAttr
    case Some(a) => Some(Field(DropNewline(a), DropNewline(line)))
    case None =>
      match ColonFrom(line, 1)
      case None => None
      case Some(j) => Some(Field(DropNewline(line[..j]), DropNewline(line[SpacesEnd(line, j + 1)..])))
  }

  /** parse_field, walking the line with a cursor as the source does; the
      two result buffers become the Field's strings. */
  method ParseField(buf: string, givenAttr: Option<string>) returns (r: Option<Field>)
    ensures r == FieldOf(buf, givenAttr)
  {
    var attr: string;
    var p: int := 0;
    if givenAttr.None? {
      var hasAttr := false;
      // while (*(p++)) { if (*p == ':') ... }
      while p < |buf|
        invariant 0 <= p <= |buf|
        invariant !hasAttr
        invariant forall i :: 1 <= i <= p && i < |buf| ==> buf[i] != ':'
      {
        p := p + 1;
        if p < |buf| && buf[p] == ':' {
          hasAttr := true;
          break;
        }
      }
      if !hasAttr {
        ColonFromFirst(buf, 1);
        return None;
      }
      ColonFromUnique(buf, 1, p);
      attr := buf[..p];
      // `*p` is the ':' itself here, so this test never succeeds
      if p < |buf| && buf[p] == ' ' {
        p := p + 1;
      }
      ghost var colon := p;
      // while (*(p++)) { if (*p != ' ') break; }
      while p < |buf|
        invariant colon <= p <= |buf|
        invariant forall i :: colon < i <= p && i < |buf| ==> buf[i] == ' '
      {
        p := p + 1;
        if p >= |buf| || buf[p] != ' ' {
          break;
        }
      }
      assert p == SpacesEnd(buf, colon + 1) by {
        SpacesEndUnique(buf, colon + 1, p);
      }
    } else {
      attr := givenAttr.value;
    }
    var value := buf[p..];
    if |attr| > 0 && attr[|attr| - 1] == '\n' {
      attr := attr[..|attr| - 1];
    }
    if |value| > 0 && value[|value| - 1] == '\n' {
      value := value[..|value| - 1];
    }
    r := Some(Field(attr, value));
  }

  /** A ':' at p with none between `from` and p is where ColonFrom stops. */
  lemma {:induction false} ColonFromUnique(line: string, from: nat, p: nat)
    requires from <= p < |line| && line[p] == ':'
    requires forall i :: from <= i < p ==> line[i] != ':'
    decreases p - from
    ensures ColonFrom(line, from) == Some(p)
  {
    if from < p {
      ColonFromUnique(line, from + 1, p);
    }
  }

  /** A position k <= p <= |line| preceded only by spaces and followed by a
      non-space or the end is where SpacesEnd stops. */
  lemma {:induction false} SpacesEndUnique(line: string, k: nat, p: nat)
    requires k <= p <= |line|
    requires forall i :: k <= i < p ==> line[i] == ' '
    requires p == |line| || line[p] != ' '
    decreases p - k
    ensures SpacesEnd(line, k) == p
  {
    if k < p {
      SpacesEndUnique(line, k + 1, p);
    }
  }

  /** Without a given attribute: no field exactly when no ':' follows the
      first character. */
  lemma FieldOfNone(line: string)
    ensures FieldOf(line, None).None? <==> forall i :: 1 <= i < |line| ==> line[i] != ':'
  {
    ColonFromFirst(line, 1);
  }

  /** Without a given attribute: for the first ':' at j >= 1, followed by the
      spaces up to k, the attribute is the text before j and the value the
      text from k on, each less one trailing newline. */
  lemma FieldOfSplit(line: string, j: nat, k: nat)
    requires 1 <= j < k <= |line| && line[j] == ':'
    requires forall i :: 1 <= i < j ==> line[i] != ':'
    requires forall i :: j < i < k ==> line[i] == ' '
    requires k == |line| || line[k] != ' '
    ensures FieldOf(line, None) == Some(Field(DropNewline(line[..j]), DropNewline(line[k..])))
  {
    ColonFromUnique(line, 1, j);
    SpacesEndUnique(line, j + 1, k);
  }

  /** A line written as "attr:", any run of spaces, the value and a newline
      parses back to that attribute and value, provided the attribute holds
      no ':' and the value does not start with a space. */
  lemma FieldOfFormatted(attr: string, pad: string, value: string)
    requires |attr| > 0 && ':' !in attr && attr[|attr| - 1] != '\n'
    requires forall i :: 0 <= i < |pad| ==> pad[i] == ' '
    requires value == [] || value[0] != ' '
    ensures FieldOf(attr + ":" + pad + value + "\n", None) == Some(Field(attr, value))
  {
    var line := attr + ":" + pad + value + "\n";
    var j := |attr|;
    var k := j + 1 + |pad|;
    assert FieldOf(line, None) == Some(Field(DropNewline(line[..j]), DropNewline(line[k..]))) by {
      assert line[j] == ':';
      assert forall i :: 1 <= i < j ==> line[i] == attr[i];
      assert forall i :: j < i < k ==> line[i] == pad[i - j - 1];
      assert line[k] == if value == [] then '\n' else value[0];
      FieldOfSplit(line, j, k);
    }
    assert DropNewline(line[..j]) == attr by {
      assert line[..j] == attr;
    }
    assert DropNewline(line[k..]) == value by {
      assert line[k..] == value + "\n";
      DropNewlineLosesOneNewline(value);
    }
  }

  // ---------------------------------------------------------------------
  // the file tables of get_info

  /** sys_list: each file read from a device directory of the sys interface
      holds one bare value, and the table names the attribute that value
      gets. Every file keeps its own name except `status`, which becomes
      "charging state", and `temp`, which becomes "sys_temp". (Every file
      yields a different attribute, so the order in which the files are read
      decides nothing and a map keeps all the table says.) */
  const SysAttr: map<string, string> := map[
    "current_now" := "current_now",
    "power_now" := "power_now",
    "charge_now" := "charge_now",
    "energy_now" := "energy_now",
    "voltage_now" := "voltage_now",
    "voltage_min_design" := "voltage_min_design",
    "charge_full" := "charge_full",
    "energy_full" := "energy_full",
    "charge_full_design" := "charge_full_design",
    "energy_full_design" := "energy_full_design",
    "online" := "online",
    "status" := "charging state",
    "type" := "type",
    "temp" := "sys_temp",
    "trip_point_0_type" := "trip_point_0_type",
    "trip_point_0_temp" := "trip_point_0_temp",
    "trip_point_1_type" := "trip_point_1_type",
    "trip_point_1_temp" := "trip_point_1_temp",
    "trip_point_2_type" := "trip_point_2_type",
    "trip_point_2_temp" := "trip_point_2_temp",
    "trip_point_3_type" := "trip_point_3_type",
    "trip_point_3_temp" := "trip_point_3_temp",
    "trip_point_4_type" := "trip_point_4_type",
    "trip_point_4_temp" := "trip_point_4_temp",
    "cur_state" := "cur_state",
    "max_state" := "max_state"
  ]
  /** The renamings of the sys table; `state`, a proc file, is not in it. */
  lemma SysRenames()
    ensures "status" in SysAttr && SysAttr["status"] == "charging state"
    ensures "temp" in SysAttr && SysAttr["temp"] == "sys_temp"
    ensures "state" !in SysAttr
    ensures forall f :: f in SysAttr && f != "status" && f != "temp" ==> SysAttr[f] == f
  {
  }

  // ---------------------------------------------------------------------
  // parse_info_file

  /** What parse_field makes of each line of a file, in reading order. */
  function ParsedLines(lines: seq<string>, givenAttr: Option<string>): (r: seq<Option<Field>>)
    ensures |r| == |lines|
  {
    if lines == [] then []
    else ParsedLines(lines[..|lines| - 1], givenAttr) + [FieldOf(lines[|lines| - 1], givenAttr)]
  }

  lemma {:induction false} ParsedLinesAt(lines: seq<string>, givenAttr: Option<string>, i: nat)
    requires i < |lines|
    ensures ParsedLines(lines, givenAttr)[i] == FieldOf(lines[i], givenAttr)
  {
    if i < |lines| - 1 {
      ParsedLinesAt(lines[..|lines| - 1], givenAttr, i);
    }
  }

  /** The values present among some optional results, in order. */
  function Somes<T>(parsed: seq<Option<T>>): seq<T>
  {
    if parsed == [] then []
    else if parsed[|parsed| - 1].Some? then Somes(parsed[..|parsed| - 1]) + [parsed[|parsed| - 1].value]
    else Somes(parsed[..|parsed| - 1])
  }

  /** The fields a file's lines give, in reading order; lines that are not
      fields are skipped. */
  function FieldsOf(lines: seq<string>, givenAttr: Option<string>): seq<Field>
  {
    Somes(ParsedLines(lines, givenAttr))
  }

  /** What a list holding `tail` holds once the first n results were put in
      front of it one by one, skipping the missing ones. */
  function Prepended<T>(parsed: seq<Option<T>>, n: nat, tail: seq<T>): seq<T>
    requires n <= |parsed|
  {
    if n == 0 then tail
    else if parsed[n - 1].Some? then [parsed[n - 1].value] + Prepended(parsed, n - 1, tail)
    else Prepended(parsed, n - 1, tail)
  }

  /** Putting the results in front one by one reverses them. */
  lemma {:induction false} PrependedReverses<T>(parsed: seq<Option<T>>, n: nat, tail: seq<T>)
    requires n <= |parsed|
    ensures Prepended(parsed, n, tail) == Reverse(Somes(parsed[..n])) + tail
  {
    if n > 0 {
      PrependedReverses(parsed, n - 1, tail);
      var front := parsed[..n - 1];
      assert parsed[..n][..n - 1] == front;
      if parsed[n - 1].Some? {
        ReverseSnoc(Somes(front), parsed[n - 1].value);
      }
    }
  }

  /** One step of parse_info_file: a line that gave no field is skipped,
      a field is put in front of the list. */
  method AppendParsed(l: Node?<Field>, f: Option<Field>) returns (r: Node?<Field>)
    requires IsList(l)
    ensures IsList(r)
    ensures f.Some? ==> Elements(r) == [f.value] + Elements(l)
    ensures f.None? ==> r == l
  {
    r := l;
    if f.Some? {
      r := Append(l, f.value);
    }
  }

  /** The body of parse_info_file's loop for line i. */
  method ParseInfoLine(l: Node?<Field>, lines: seq<string>, i: nat, givenAttr: Option<string>,
                       ghost parsed: seq<Option<Field>>)
    returns (r: Node?<Field>)
    requires i < |lines| && parsed == ParsedLines(lines, givenAttr) && IsList(l)
    ensures IsList(r)
    ensures parsed[i].Some? ==> Elements(r) == [parsed[i].value] + Elements(l)
    ensures parsed[i].None? ==> Elements(r) == Elements(l)
  {
    var f := ParseField(lines[i], givenAttr);
    ParsedLinesAt(lines, givenAttr, i);
    r := AppendParsed(l, f);
  }

  /** parse_info_file once the file is open (an unopenable file leaves the
      list as it is): each line that parses is put in front of the list, so
      the list ends up holding the file's fields in reverse reading order,
      ahead of what it held before. */
  method ParseInfoFile(l: Node?<Field>, lines: seq<string>, givenAttr: Option<string>) returns (r: Node?<Field>)
    requires IsList(l)
    ensures IsList(r)
    ensures Elements(r) == Reverse(FieldsOf(lines, givenAttr)) + Elements(l)
  {
    ghost var parsed := ParsedLines(lines, givenAttr);
    ghost var tail := Elements(l);
    r := l;
    var i := 0;
    while i < |lines|
      invariant 0 <= i <= |lines|
      invariant IsList(r) && Elements(r) == Prepended(parsed, i, tail)
    {
      r := ParseInfoLine(r, lines, i, givenAttr, parsed);
      i := i + 1;
    }
    assert Prepended(parsed, i, tail) == Reverse(FieldsOf(lines, givenAttr)) + tail by {
      PrependedReverses(parsed, i, tail);
      assert parsed[..i] == parsed;
    }
  }

  // ---------------------------------------------------------------------
  // find_devices

  /** The field lists, in directory order, of the devices that gave at least
      one field; a device whose files gave none is dropped. */
  function Found(infos: seq<seq<Field>>): seq<seq<Field>>
  {
    if infos == [] then []
    else
      var last := infos[|infos| - 1];
      Found(infos[..|infos| - 1]) + (if last != [] then [last] else [])
  }

  /** Exactly the devices with fields are kept. */
  lemma {:induction false} FoundKeepsDevicesWithFields(infos: seq<seq<Field>>)
    ensures forall d :: d in Found(infos) <==> d in infos && d != []
  {
    if infos != [] {
      var front := infos[..|infos| - 1];
      FoundKeepsDevicesWithFields(front);
      assert infos == front + [infos[|infos| - 1]];
    }
  }

  /** The directory loop of find_devices once each device's field list has
      been read: a device is put in front of the list only when it gave a
      field, so the list holds the devices with fields in reverse directory
      order, and every device a resolver walks has at least one field. */
  method FindDevices(infos: seq<seq<Field>>) returns (r: Node?<seq<Field>>)
    ensures IsList(r) && Elements(r) == Reverse(Found(infos))
  {
    r := null;
    var i := 0;
    while i < |infos|
      invariant 0 <= i <= |infos|
      invariant IsList(r) && Elements(r) == Reverse(Found(infos[..i]))
    {
      assert infos[..i + 1][..i] == infos[..i];
      var deviceInfo := infos[i];
      if deviceInfo != [] {
        assert Found(infos[..i + 1]) == Found(infos[..i]) + [deviceInfo];
        ReverseSnoc(Found(infos[..i]), deviceInfo);
        ghost var before := Elements(r);
        r := Append(r, deviceInfo);
        assert Elements(r) == [deviceInfo] + before;
      } else {
        assert Found(infos[..i + 1]) == Found(infos[..i]) + [] == Found(infos[..i]);
      }
      i := i + 1;
    }
    assert infos[..i] == infos;
  }

  // ---------------------------------------------------------------------
  // field positions, for the "last processed field wins" rules

  /** Some field has the attribute. */
  predicate HasAttr(fields: seq<Field>, attr: string)
  {
    exists k :: 0 <= k < |fields| && fields[k].attr == attr
  }

  /** No field after position i has the attribute. */
  predicate NoAttrAfter(fields: seq<Field>, attr: string, i: int)
  {
    forall k :: 0 <= k < |fields| && i < k ==> fields[k].attr != attr
  }

  lemma NoAttrAfterFront(fields: seq<Field>, attr: string, i: int)
    requires fields != [] && NoAttrAfter(fields, attr, i)
    ensures NoAttrAfter(fields[..|fields| - 1], attr, i)
  {
    var front := fields[..|fields| - 1];
    forall k | 0 <= k < |front| && i < k ensures front[k].attr != attr {
      assert front[k] == fields[k];
    }
  }

  lemma HasAttrSnoc(fields: seq<Field>, attr: string)
    requires fields != []
    ensures HasAttr(fields, attr) <==>
      HasAttr(fields[..|fields| - 1], attr) || fields[|fields| - 1].attr == attr
  {
    var front := fields[..|fields| - 1];
    if HasAttr(fields, attr) && fields[|fields| - 1].attr != attr {
      var k :| 0 <= k < |fields| && fields[k].attr == attr;
      assert front[k] == fields[k];
    }
    if HasAttr(front, attr) {
      var k :| 0 <= k < |front| && front[k].attr == attr;
      assert fields[k] == front[k];
    }
  }

  /** A field list with the attribute has a last field with it. */
  lemma {:induction false} LastAttrExists(fields: seq<Field>, attr: string)
    requires HasAttr(fields, attr)
    ensures exists i :: 0 <= i < |fields| && fields[i].attr == attr && NoAttrAfter(fields, attr, i)
  {
    var n := |fields| - 1;
    if fields[n].attr == attr {
      assert NoAttrAfter(fields, attr, n);
    } else {
      var front := fields[..n];
      var k :| 0 <= k < |fields| && fields[k].attr == attr;
      assert front[k] == fields[k];
      LastAttrExists(front, attr);
      var i :| 0 <= i < |front| && front[i].attr == attr && NoAttrAfter(front, attr, i);
      assert fields[i] == front[i];
      forall k | 0 <= k < |fields| && i < k ensures fields[k].attr != attr {
        if k < n {
          assert fields[k] == front[k];
        }
      }
    }
  }

  /** A list without the attribute has no field with it after position -1. */
  lemma NoAttrAnywhere(fields: seq<Field>, attr: string)
    requires !HasAttr(fields, attr)
    ensures NoAttrAfter(fields, attr, -1)
  {
  }
}
