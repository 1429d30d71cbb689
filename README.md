# acpi: the battery, AC adapter, thermal and cooling reports

`acpi` prints the state of a Linux machine's batteries, AC adapters,
thermal zones and cooling devices. It reads the kernel's status files for
each device and turns each line into an attribute/value pair (`parse_field`).
The pairs of a device go into a linked list, one per device (`list.c`). A
resolver per device class then walks the list:

- it overwrites local "last seen" variables that start at the sentinels
  -1 and NULL;
- it classifies the device by its `type`;
- it computes the derived values: percentage, energy-to-charge
  conversion, time estimate, active trip point, cooling level;
- it prints at most two lines per device.

This project models that core in Dafny:

- `clib.dfy` (`CLib`): the C library behaviour the core relies on:
  - C `int` division, which truncates toward zero (`CDiv`);
  - `strcasecmp` against a lower-case literal (`StrCaseEq`);
  - `strstr` (`StrStr`, `Contains`);
  - `sscanf("%d")` (`ScanInt`), with a decimal printer as its partner.
- `list.dfy` (`LinkedList`): `struct list` as a heap class.
  - `list_new` is the constructor; `list_append`, `list_next` and
    `list_length` are methods.
  - `list_append` puts the new node in front. So a list built by
    appending reads backwards (`AppendAll`).
- `fields.dfy` (`AcpiFields`):
  - `parse_field`: a specification function `FieldOf` and a cursor-walking
    method `ParseField` proved equal to it;
  - `get_unit_value`;
  - the `sys_list` table as a constant map;
  - the per-line fold of `parse_info_file` over a sequence of lines;
  - the directory loop of `find_devices`, which keeps only devices that
    gave a field;
  - generic "last field with this attribute" predicates.
- `battery.dfy`, `adapter.dfy`, `thermal.dfy`, `cooling.dfy`: the four
  resolvers. Each has:
  - a fold `ScanX` over a device's fields, in processing order;
  - the lines of one device (`XLines`);
  - the whole report (`XReport`), numbering devices from 0 and skipping
    devices the type test rejects.

  The imperative `PrintXInformation` methods keep the source's nested loops
  and counters, and are proved to produce exactly that report. The thermal
  resolver updates its `trip[]` array in place.
- `battery_facts.dfy`, `thermal_facts.dfy`: the rules these reports follow,
  and the two worked examples:
  - 50 %, `05:00:00 remaining`;
  - `critical` at 45.0 degrees C.

Printed lines are datatypes carrying the values and the labels, not
formatted text.

The fields of a device are taken in processing order. That is the order of
the device's field list, which is the REVERSE of reading order, because
`list_append` prepends. Every assignment in a resolver is a plain
overwrite, so the last field processed wins.

Some behaviour shows only on a close reading of the code; the model follows
the code:

- the AC adapter reads any `online` value except 0 as on-line, including
  text that does not parse;
- the cooling resolver recognises only `status`, never `state`;
- a thermal sensor that is not a zone takes no number. Its non-zone type
  carries over to later sensors that have no `type` field.

## Model

| member | source | states |
|---|---|---|
| CLib.CDiv | acpi.c:280 | C `/` on `int`: the quotient's magnitude is the magnitudes' quotient and its sign is the operands' sign rule; it truncates toward zero |
| CLib.CDivExamples | acpi.c:280 | `-1 / 1000` is 0 in C, unlike the Euclidean -1; the negative operand cases truncate toward zero |
| CLib.CDivNonNegative | acpi.c:386-389 | on a non-negative dividend and a positive divisor, C division is the ordinary quotient and leaves a remainder in [0, divisor) |
| CLib.StrCaseEqChars | acpi.c:275 | comparing with a lower-case literal in `strcasecmp` style holds exactly when the lengths agree and the characters agree once lower-cased |
| CLib.StrCaseEqIgnoresCase | acpi.c:364 | the case-insensitive comparison does not depend on the case of the compared text |
| CLib.StrStrFrom | acpi.c:502 | `strstr`: the position found holds the needle and no earlier position does; no position is found only when the needle occurs nowhere |
| CLib.ScanDecimalText | acpi.c:246 | `%d` reads back any integer printed in decimal, whatever non-digit follows it |
| AcpiFields.GetUnitValueReadsNumber | acpi.c:243-248 | a value that starts with a number reads as that number; a value starting with anything but a sign, digit or space reads as the sentinel -1 |
| AcpiFields.ParseField | acpi.c:49-97 | the cursor walk over the line produces exactly `FieldOf`: no field, or the attribute and the value each less one trailing newline |
| AcpiFields.FieldOfNone | acpi.c:66-79 | without a given attribute, a line gives no field exactly when no `:` appears at position 1 or later |
| AcpiFields.FieldOfSplit | acpi.c:67-93 | without a given attribute, the attribute is the text before the first `:` at position 1 or later, and the value is the text after it with its leading spaces skipped |
| AcpiFields.FieldOfFormatted | acpi.c:66-93 | a line written as `attr:`, spaces, value and newline parses back to exactly that attribute and value |
| AcpiFields.DropNewlineLosesOneNewline | acpi.c:90-93 | attribute and value lose at most one trailing newline, and nothing else |
| AcpiFields.SysRenames | acpi.c:124-151 | the sys table renames `status` to "charging state" and `temp` to "sys_temp", and keeps every other file's name |
| AcpiFields.ParseInfoFile | acpi.c:99-117 | the list gains the fields of the file's lines in reverse reading order, in front of what it held; lines without a field are skipped |
| AcpiFields.FindDevices | acpi.c:222-231 | the directory loop puts a device in front of the list only when its files gave a field: the list holds the devices with fields, in reverse directory order |
| AcpiFields.FoundKeepsDevicesWithFields | acpi.c:229-230 | exactly the devices with at least one field are kept, so no resolver walks an empty field list |
| AcpiFields.LastAttrExists | acpi.c:273-320 | a field list that holds an attribute has a last field holding it, the one that decides the resolvers' value |
| LinkedList.Node.constructor | list.c:24-36 | `list_new`: a fresh node holding the datum, with a NULL successor |
| LinkedList.Append | list.c:38-45 | `list_append`: a fresh node holding the datum, in front of the old list. The old list is its tail, and no existing node is written (no modifies clause) |
| LinkedList.Next | list.c:47-50 | `list_next`: the successor, with nothing modified; the rest of the list is what follows the head |
| LinkedList.Length | list.c:52-60 | `list_length`: the number of elements the list holds; 0 for NULL |
| LinkedList.LengthAfterAppend | list.c:38-60 | `list_length` of `list_append(l, x)` is one more than `list_length(l)`; appending to NULL gives length 1 |
| LinkedList.AppendAll | list.c:41-44 | appending x1 .. xn from NULL gives a list that reads xn .. x1 from its head |
| LinkedList.ReverseReverse | list.c:41-44 | reading a prepended list backwards restores the original order |
| AcpiBattery.ScanBattery | acpi.c:314-317 | after any fields the voltage is never 0: a scaled voltage of 0 is stored as -1 |
| AcpiBattery.Percentage | acpi.c:351-357 | the status percentage never exceeds 100 |
| AcpiBattery.TailOf | acpi.c:385-393 | HH:MM:SS appears exactly when the estimate is positive. Hours are non-negative, minutes and seconds lie in [0, 59], and h*3600 + m*60 + s equals the estimate. Otherwise the notice alone appears, if there is one |
| AcpiBattery.CapacityDetail | acpi.c:397-406 | the capacity line's percentage never exceeds 100 |
| AcpiBattery.TimeEstimateHasText | acpi.c:361-383 | a positive estimate always comes with its text |
| AcpiBattery.PrintBatteryInformation | acpi.c:250-416 | the nested loops print exactly the battery report: devices in order, non-batteries skipped and unnumbered |
| AcpiBattery.BatteryInformation | acpi.c:257-413 | one device: the field loop yields the scan of its fields; lines are printed only for a battery |
| AcpiBattery.BatteryField | acpi.c:273-318 | one pass of the field loop's chain of tests is one fold step; only the first matching test applies |
| AcpiBattery.BatteryOutput | acpi.c:321-411 | the lines of one battery: an empty slot without state, else the status line and, if asked and the design capacity is positive, the capacity line |
| AcpiBattery.ConvertEnergy | acpi.c:326-350 | the in-place energy-to-charge conversion computes the reconciled charge values and unit label |
| AcpiBattery.StatusPercentage | acpi.c:351-357 | the percentage steps compute the status percentage |
| AcpiBattery.EstimateTime | acpi.c:361-383 | the estimate steps compute the seconds and the text that follows them |
| AcpiBattery.ClockTail | acpi.c:385-393 | one truncating division and one subtraction for the hours, then for the minutes, compute the clock of the estimate |
| AcpiBattery.CapacityLine | acpi.c:397-406 | the capacity line steps compute the last full capacity and percentage shown |
| AcpiBatteryFacts.BatteryStepState | acpi.c:275-318 | a state field sets the state to its value; a capacity-bearing field sets "available" only if no state is set yet; no other field touches the state |
| AcpiBatteryFacts.BatteryStateRule | acpi.c:275-318 | the final state is the value of the last "charging state"/"State" field processed. Without one, it is "available" exactly when some capacity-bearing field is present, and NULL otherwise |
| AcpiBatteryFacts.StateOfWithoutStateField | acpi.c:275-318 | without a state field, the state is "available" exactly when a capacity-bearing field is present |
| AcpiBatteryFacts.BelowMinimumMeansNotPositive | acpi.c:40-41 | on `int`s, `< MIN_CAPACITY` means `<= 0` and `> MIN_PRESENT_RATE` means `>= 1` |
| AcpiBatteryFacts.PercentageMeaning | acpi.c:351-357 | the percentage is 0 for a last full capacity <= 0, and 100 when remaining >= last full. Otherwise it is the truncated ratio, in [0, 100]. A missing remaining capacity gives a non-positive percentage |
| AcpiBatteryFacts.PercentageOfMissingRemaining | acpi.c:351-354 | there is no lower clamp: remaining -1 against 50 prints -2 % |
| AcpiBatteryFacts.DischargingEstimate | acpi.c:372-376 | discharging at a positive rate, the estimate is the truncated 3600*remaining/rate, with text " remaining" |
| AcpiBatteryFacts.ChargingEstimate | acpi.c:364-368 | charging at a positive rate, the estimate is the truncated 3600*(last full - remaining)/rate, with text " until charged" |
| AcpiBatteryFacts.DischargingMissingRemaining | acpi.c:372-392 | discharging at a positive rate with the remaining capacity missing (-1) or otherwise 0 or below, the estimate is not positive, so " remaining" is printed alone |
| AcpiBatteryFacts.ChargingPastFull | acpi.c:364-392 | charging at a positive rate with remaining at or above the last full capacity, the estimate is not positive, so " until charged" is printed alone |
| AcpiBatteryFacts.EstimateNotices | acpi.c:361-383 | a rate of -1 gives "rate information unavailable". A non-positive rate gives the "never fully charge/discharge" texts. Any other state gives no text and no estimate |
| AcpiBatteryFacts.ScaledMissingRateReadsAsZero | acpi.c:343-346 | with only an energy value and a voltage above 1000, the missing rate -1 is rescaled to 0 and reads as "discharging at zero rate" |
| AcpiBatteryFacts.EnergyFallbackKeepsCharge | acpi.c:326-350 | a charge value that was read is kept, and its energy counterpart ignored; a read remaining charge also keeps the rate |
| AcpiBatteryFacts.EnergyFallbackWithoutVoltage | acpi.c:326-350 | without a voltage, an energy value stands in unconverted for its missing charge value, and the rate is never rescaled |
| AcpiBatteryFacts.EnergyUnitLabel | acpi.c:326-350 | the label is "mWh" exactly when there is no voltage and the last full or design capacity fell back to energy; the remaining-energy fallback never changes it |
| AcpiBatteryFacts.ZeroVoltageIsMissing | acpi.c:314-317 | a `voltage_now` that scales to 0 is stored as -1 |
| AcpiBatteryFacts.CapacityDetailMeaning | acpi.c:397-406 | a last full capacity in [0, 100] is taken as a percentage of the design capacity. A larger one gives its share of the design capacity, capped at 100 (negative values: CapacityDetailOfNegative) |
| AcpiBatteryFacts.CapacityDetailOfNegative | acpi.c:397-406 | a missing (-1) or other negative last full capacity also takes the percentage branch: the percentage printed is that negative value and the capacity shown is its truncated share of the design capacity, 0 or below; design 250 and -1 give -2 and -1 % |
| AcpiBatteryFacts.BatteryReportNumbers | acpi.c:321-412 | with any options, every line's number is below the battery count, and numbers never decrease along the report |
| AcpiBatteryFacts.BatteryReportOneLineEach | acpi.c:321-412 | with empty slots shown and no capacity lines, every battery prints exactly one line, and line i carries number i: batteries are numbered from 0 in processing order |
| AcpiBatteryFacts.DischargingExample | acpi.c:250-416 | charge_now=50000, charge_full=100000, Discharging and current_now=10000 give one line: 50 %, 05:00:00 remaining |
| AcpiAdapter.PrintAcAdapterInformation | acpi.c:418-453 | the nested loops print exactly the adapter report: devices in order, non-mains devices skipped and unnumbered |
| AcpiAdapter.AdapterInformation | acpi.c:425-450 | one device: the field loop yields the scan of its fields; lines are printed only for a mains adapter |
| AcpiAdapter.AdapterLastStateField | acpi.c:432-435 | the last `state`, `status` or `online` field processed decides the adapter's state text |
| AcpiAdapter.AdapterWithoutStateField | acpi.c:426-444 | without such a field the adapter has no state and prints an empty slot, if asked |
| AcpiAdapter.OnlineMeaning | acpi.c:434-435 | `online` reads "off-line" exactly when its value parses to 0; anything else, including unparseable text, reads "on-line" |
| AcpiAdapter.AdapterLastTypeField | acpi.c:436-437 | the last `type` field decides, by a case-insensitive comparison with "mains", whether the device is an adapter |
| AcpiAdapter.AdapterWithoutType | acpi.c:427 | a device without a `type` field counts as an adapter |
| AcpiAdapter.AdapterReportNumbers | acpi.c:441-449 | adapters are numbered from 0 in order. With empty slots shown, line i carries number i; every number is below the adapter count |
| AcpiAdapter.AdapterReportCountsAll | acpi.c:441-449 | with empty slots shown, every adapter prints exactly one line |
| AcpiThermal.ScanThermal | acpi.c:485-531 | after any fields, the trip array still has 5 entries and the highest typed index lies in [-1, 4] |
| AcpiThermal.FirstReachedBounds | acpi.c:533-539 | a selected trip point lies between the start index and the highest typed index |
| AcpiThermal.PrintThermalInformation | acpi.c:476-561 | the nested loops, with `type_zone` carried across sensors, print exactly the thermal report |
| AcpiThermal.ThermalInformation | acpi.c:484-558 | one sensor: the field loop yields the scan of its fields and the carried zone flag; lines are printed only for a zone |
| AcpiThermal.ThermalField | acpi.c:497-531 | one pass of the field loop's chain of tests, with `trip[]` updated in place, is one fold step |
| AcpiThermal.TripField | acpi.c:516-528 | the `for` loop over the five trip points updates the array exactly as the trip update |
| AcpiThermal.TripPass | acpi.c:518-527 | pass i sets trip i's temperature or type from a matching field, and raises the highest typed index |
| AcpiThermal.ThermalOutput | acpi.c:532-556 | the lines of one zone: an empty slot without state, else the status line and, if asked, the trip point lines |
| AcpiThermal.SelectTripState | acpi.c:533-539 | the loop with `break` selects the state of the first reached trip point, or keeps the state |
| AcpiThermal.TripPointLines | acpi.c:546-555 | one line per trip point up to the highest typed index whose temperature is at least MIN_TEMP |
| AcpiThermalFacts.GetRealTempMeaning | acpi.c:455-474 | Celsius is kept. Fahrenheit converts back by (F - 32)/1.8. Any other unit gives kelvin, ABSOLUTE_ZERO above the reading |
| AcpiThermalFacts.GetRealTempIncreasing | acpi.c:455-474 | the conversion preserves the order of temperatures, in both directions |
| AcpiThermalFacts.GetRealTempAbsoluteZero | acpi.c:467-470 | -273.1 reads as 0 kelvin and as -459.58 degrees F |
| AcpiThermalFacts.TripNamesFormat | acpi.c:518-522 | the attribute names are those `sprintf` builds from the index |
| AcpiThermalFacts.TripNamesDistinct | acpi.c:518-522 | distinct indices have distinct type names, and no temperature name is a type name |
| AcpiThermalFacts.TripUpdateTypes | acpi.c:522-527 | a field sets trip j's type exactly when it is the type field of j; other entries keep theirs |
| AcpiThermalFacts.TripUpdateHighest | acpi.c:525-526 | the highest typed index rises to j on a type field of j, and is unchanged by other fields |
| AcpiThermalFacts.TripTypeIsSeen | acpi.c:495-527 | a trip point has a type exactly when the sensor has a field with its type name |
| AcpiThermalFacts.TripPointsIsHighestType | acpi.c:493-527 | `trip_points` is the highest index whose type field was seen: that type was seen, and none above it |
| AcpiThermalFacts.FirstReachedMeaning | acpi.c:533-539 | the selection is the first index, in index order, whose temperature was reached and is at least MIN_TEMP. No index is selected when none qualifies |
| AcpiThermalFacts.SelectedStateRule | acpi.c:533-539 | when no trip point qualifies the state is unchanged; otherwise it becomes the first qualifying trip point's type |
| AcpiThermalFacts.NullTripTypeEmptySlot | acpi.c:532-545 | a selected trip point without a type leaves NULL state, so the zone prints as an empty slot |
| AcpiThermalFacts.NullTripTypeExample | acpi.c:495-545 | sys_temp 45000, trip 0 at 40000 with no type and trip 1 typed "hot": trip 0 is selected and the zone prints "slot empty" |
| AcpiThermalFacts.ZoneLastTypeField | acpi.c:501-502 | the last `type` field decides whether the sensor is a zone: it contains "thermal zone" or "acpitz" |
| AcpiThermalFacts.ZoneCarriesOver | acpi.c:482-502 | a sensor without a `type` field keeps the zone flag of the previous sensor |
| AcpiThermalFacts.SkippedAfterNonZone | acpi.c:482-558 | after a non-zone sensor, a sensor without `type` prints nothing and takes no number |
| AcpiThermalFacts.ThermalReportNumbers | acpi.c:532-557 | with any options, every line of the thermal report carries a number below the zone count |
| AcpiThermalFacts.ThermalReportOneLineEach | acpi.c:532-557 | with empty slots shown and no trip-point lines, every zone prints exactly one line, and line i carries number i: zones are numbered from 0 in processing order |
| AcpiThermalFacts.CriticalExample | acpi.c:476-561 | sys_temp=45000, trip_point_0_temp=40000, trip_point_0_type=critical give "critical" at 45.0 degrees C, and with trip points "trip point 0 switches to mode critical at 40.0" |
| AcpiCooling.PrintCoolingInformation | acpi.c:563-607 | the nested loops print exactly the cooling report: zones skipped and unnumbered |
| AcpiCooling.CoolingInformation | acpi.c:570-603 | one device: the field loop yields the scan of its fields; lines are printed only for a cooling device |
| AcpiCooling.CoolingLastStatusField | acpi.c:578-579 | the last `status` field decides the state text |
| AcpiCooling.CoolingWithoutStatus | acpi.c:571-579 | without a `status` field there is no state: `state` is never read |
| AcpiCooling.CoolingLastTypeField | acpi.c:580-582 | the last `type` field gives the type text, and the device is a cooling device exactly when that text names no thermal zone |
| AcpiCooling.CoolingWithoutType | acpi.c:571-573 | without a `type` field there is no type text and the device counts as a cooling device |
| AcpiCooling.CurStateLastField | acpi.c:583-584 | the last `cur_state` field gives the current level |
| AcpiCooling.CurStateMissing | acpi.c:572 | without `cur_state` the current level is -1 |
| AcpiCooling.MaxStateLastField | acpi.c:585-586 | the last `max_state` field gives the maximum level |
| AcpiCooling.MaxStateMissing | acpi.c:572 | without `max_state` the maximum level is -1 |
| AcpiCooling.EmptySlotRule | acpi.c:590-593 | no `status` and no `type` gives an empty slot, if asked |
| AcpiCooling.StatusLineRule | acpi.c:594-595 | a `status` field's text wins over everything else |
| AcpiCooling.TypeLineRule | acpi.c:596-599 | without `status`, the type is shown with "cur of max" when both are >= 0, and with "no state information available" otherwise |
| AcpiCooling.MissingCountRule | acpi.c:596-597 | a missing `cur_state` or `max_state` gives "no state information available" |
| AcpiCooling.CoolingOrZone | acpi.c:580-582 | for a device with a `type` field, the cooling test is exactly the negation of the zone test |
| AcpiCooling.CoolingReportNumbers | acpi.c:590-602 | cooling devices are numbered from 0 in order. With empty slots shown, each prints one line and line i carries number i |

## Left out

- File and directory I/O is not part of this model.
  - `get_info` (acpi.c:161-179), the `chdir`/`opendir`/`readdir` calls of `find_devices` (acpi.c:202-241), and `parse_info_file`'s `fopen`/`fgets` are not modelled. `AcpiFields.FindDevices` takes each device's field list as already read.
  - `find_devices` drops a device whose files gave no field (acpi.c:229-230); `AcpiFields.FindDevices` models that filter.
  - The resolvers take each device's fields as a sequence already in processing order. Their report functions do not require the field lists to be non-empty. Given an empty one, they would print an empty slot and use up a number, which the program never does, because `find_devices` never passes one.
  - `parse_info_file` takes the file as a sequence of lines.
- The order in which directories are listed is not modelled.
  - The device lists are sequences of devices in processing order, not the linked list of linked lists the source builds.
  - The reversal that list building brings is proved once, in `LinkedList.AppendAll` and `AcpiFields.ParseInfoFile`.
- Memory is not modelled: `free_devices`, `list_free`, `strdup`, and the out-of-memory exits of `list_new` and `parse_field`. They only free memory or exit.
- `main.c` is not part of this model: option handling, usage and version text.
- Output formatting is not modelled. Lines are datatypes, not `printf` output: `%02d`, `%.1f` and the device labels are left out.
- AcpiThermal.GetRealTemp: temperatures are `real`. The `float`/`double` rounding of the thermal code is not modelled, nor the `float` stored for a sensor's temperature.
- Integer widths are not modelled. C `int` overflow in the battery arithmetic (`3600 * remaining`, `* 1000`) and in `sscanf("%d")` is excluded: integers are unbounded.
  - LinkedList.Length: the `unsigned int` count of `list_length` does not wrap. Lists of 2^32 nodes are not modelled.
- `BUF_SIZE` truncation is not modelled: lines longer than 1023 characters, which `fgets` splits and `strncpy` truncates.
- AcpiFields.ParseField: for an empty attribute or value the source reads the byte before the string, which is undefined behaviour. The model checks the length instead and drops nothing.
- CLib.StrCaseEq: it compares only against lower-case literals, which is every use the resolvers make. Locale-dependent case folding is not modelled.
- A trip point selected with a NULL type is modelled as `None`. When such a line is printed with `%s`, the trip point line carries `None`.
- The battery resolver's locals are grouped in one record inside the field loop; each branch still overwrites one of them.
