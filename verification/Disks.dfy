/** The SMART readings of a disk, out of numbered attributes or out of smartctl's text. */
module Disks {
  import opened Wrappers
  import opened Strings
  import opened Numbers

  // ---- attributes --------------------------------------------------------------------------------------

  /** Whatever an attribute may hold under a key. */
  datatype Value = Missing | Flag(b: bool) | Whole(n: int) | Words(s: string) | Other

  function ReadInt(value: Value): Option<int> {
    match value
    case Whole(n) => Some(n)
    case Words(s) => LeadingInt(s)
    case _ => None
  }

  datatype Attribute = Attribute(id: Value, raw: Value, value: Value) | NotADict

  const POWER_HOURS := 9
  const POWER_CYCLES := 12
  const POWER_LOSS := 174
  const TEMPERATURE_AIR := 190
  const TEMPERATURE := 194
  const LIFE_LEFT := 231

  datatype Summary = Summary(
    temperature: Option<int>, temperatureAir: Option<int>, powerHours: Option<int>,
    powerCycles: Option<int>, lifeLeft: Option<int>, powerLoss: Option<int>)

  /** Numbers are read as they are and texts by the number in front; flags and anything else are none. */
  lemma ValuesAreRead(n: int, s: string, b: bool)
    ensures ReadInt(Whole(n)) == Some(n) && ReadInt(Words(s)) == LeadingInt(s)
    ensures ReadInt(Flag(b)) == None && ReadInt(Missing) == None && ReadInt(Other) == None
  {
  }

  /** What one attribute says about one id; only the life left is in the normalised value. */
  function Reading(attribute: Attribute, id: int): Option<int> {
    if attribute.Attribute? && ReadInt(attribute.id) == Some(id)
    then ReadInt(if id == LIFE_LEFT then attribute.value else attribute.raw)
    else None
  }

  /** The last attribute that has a reading for an id. */
  function LastReading(attributes: seq<Attribute>, id: int): Option<int> {
    if attributes == [] then None
    else
      var n := |attributes| - 1;
      if Reading(attributes[n], id).Some? then Reading(attributes[n], id) else LastReading(attributes[..n], id)
  }

  predicate Reads(summary: Summary, attributes: seq<Attribute>) {
    && summary.temperature == LastReading(attributes, TEMPERATURE)
    && summary.temperatureAir == LastReading(attributes, TEMPERATURE_AIR)
    && summary.powerHours == LastReading(attributes, POWER_HOURS)
    && summary.powerCycles == LastReading(attributes, POWER_CYCLES)
    && summary.lifeLeft == LastReading(attributes, LIFE_LEFT)
    && summary.powerLoss == LastReading(attributes, POWER_LOSS)
  }

  /** `SmartSummary.from_attributes`: every field is the last reading of its id. */
  method FromAttributes(attributes: seq<Attribute>) returns (summary: Summary)
    ensures Reads(summary, attributes)
  {
    summary := Summary(None, None, None, None, None, None);
    for i := 0 to |attributes|
      invariant Reads(summary, attributes[..i])
    {
      assert attributes[..i + 1][..i] == attributes[..i];
      var attribute := attributes[i];
      if attribute.NotADict? || ReadInt(attribute.id).None? {
        continue;
      }
      var number := ReadInt(attribute.id).value;
      var reading := ReadInt(if number == LIFE_LEFT then attribute.value else attribute.raw);
      if reading.None? {
        continue;
      }
      if number == POWER_CYCLES {
        summary := summary.(powerCycles := reading);
      } else if number == TEMPERATURE {
        summary := summary.(temperature := reading);
      } else if number == TEMPERATURE_AIR {
        summary := summary.(temperatureAir := reading);
      } else if number == POWER_HOURS {
        summary := summary.(powerHours := reading);
      } else if number == LIFE_LEFT {
        summary := summary.(lifeLeft := reading);
      } else if number == POWER_LOSS {
        summary := summary.(powerLoss := reading);
      }
    }
    assert attributes[..|attributes|] == attributes;
  }

  // ---- text ----------------------------------------------------------------------------------------------

  /** The one label that carries a colon of its own. */
  const SAS_HOURS := "Accumulated power on time, hours:minutes"

  function LabelId(heading: string): Option<int> {
    if heading == "Temperature" then Some(TEMPERATURE)
    else if heading == "Power Cycles" then Some(POWER_CYCLES)
    else if heading == "Power On Hours" then Some(POWER_HOURS)
    else if heading == "Current Drive Temperature" then Some(TEMPERATURE)
    else if heading == "Accumulated start-stop cycles" then Some(POWER_CYCLES)
    else if heading == SAS_HOURS then Some(POWER_HOURS)
    else None
  }

  /** `line.partition(":")`: the text before the first colon and after it. */
  function Partition(line: string): Option<(string, string)> {
    if line == "" then None
    else if line[0] == ':' then Some(("", line[1..]))
    else match Partition(line[1..])
         case None => None
         case Some((head, tail)) => Some(([line[0]] + head, tail))
  }

  /** Label and value of a stripped line. */
  function Labelled(line: string): Option<(string, string)> {
    if SAS_HOURS <= line then Some((SAS_HOURS, line[|SAS_HOURS|..]))
    else match Partition(line)
         case None => None
         case Some((head, tail)) => Some((StripSpace(head), tail))
  }

  function LineAttributes(rawLine: string): seq<Attribute> {
    match Labelled(StripSpace(rawLine))
    case None => []
    case Some((heading, value)) =>
      if LabelId(heading).None? then []
      else [Attribute(Whole(LabelId(heading).value), Words(DropCommas(StripSpace(value))), Missing)]
  }

  function AttributesOf(lines: seq<string>): seq<Attribute> {
    if lines == [] then [] else AttributesOf(lines[..|lines| - 1]) + LineAttributes(lines[|lines| - 1])
  }

  /** `smart_text_attributes`. */
  method TextAttributes(text: string) returns (attributes: seq<Attribute>)
    ensures attributes == AttributesOf(Split(text, '\n'))
  {
    var lines := Split(text, '\n');
    attributes := [];
    for i := 0 to |lines|
      invariant attributes == AttributesOf(lines[..i])
    {
      assert lines[..i + 1][..i] == lines[..i];
      var line := StripSpace(lines[i]);
      if line == "" {
        assert LineAttributes(lines[i]) == [];
        continue;
      }
      var heading, value := "", "";
      if SAS_HOURS <= line {
        heading, value := SAS_HOURS, line[|SAS_HOURS|..];
      } else {
        var parts := Partition(line);
        if parts.None? {
          continue;
        }
        heading, value := StripSpace(parts.value.0), parts.value.1;
      }
      if LabelId(heading).None? {
        continue;
      }
      attributes := attributes + [Attribute(Whole(LabelId(heading).value), Words(DropCommas(StripSpace(value))), Missing)];
    }
    assert lines[..|lines|] == lines;
  }

  /** `DiskSmart.summary`: the attributes if there are any, else the text if there is some. */
  method DiskSummary(attributes: seq<Attribute>, text: Option<string>) returns (summary: Summary)
    ensures attributes != [] ==> Reads(summary, attributes)
    ensures attributes == [] && text.Some? ==> Reads(summary, AttributesOf(Split(text.value, '\n')))
    ensures attributes == [] && text.None? ==> Reads(summary, [])
  {
    var found := attributes;
    if attributes == [] && text.Some? && text.value != "" {
      found := TextAttributes(text.value);
    } else if attributes == [] && text.Some? {
      assert Split("", '\n') == [""] && [""][..0] == [];
      assert AttributesOf([""]) == AttributesOf([]) + LineAttributes("");
    }
    summary := FromAttributes(found);
  }

  // ---- what the text says --------------------------------------------------------------------------------

  /** The number a line gives for an id: its label is one of that id, its value begins with a number. */
  function LineReading(line: string, id: int): Option<int> {
    match Labelled(StripSpace(line))
    case None => None
    case Some((heading, value)) => if LabelId(heading) == Some(id) then LeadingInt(value) else None
  }

  /** The last line with a number for an id. */
  function LastLine(lines: seq<string>, id: int): Option<int> {
    if lines == [] then None
    else
      var n := |lines| - 1;
      if LineReading(lines[n], id).Some? then LineReading(lines[n], id) else LastLine(lines[..n], id)
  }

  lemma {:induction false} LastReadingAppend(a: seq<Attribute>, b: seq<Attribute>, id: int)
    ensures LastReading(a + b, id) == if LastReading(b, id).Some? then LastReading(b, id) else LastReading(a, id)
  {
    if b == [] {
      assert a + b == a;
    } else {
      assert (a + b)[..|a + b| - 1] == a + b[..|b| - 1];
      LastReadingAppend(a, b[..|b| - 1], id);
    }
  }

  lemma LineSays(line: string, id: int)
    requires id != LIFE_LEFT
    ensures LastReading(LineAttributes(line), id) == LineReading(line, id)
  {
    match Labelled(StripSpace(line)) {
      case None =>
      case Some((heading, value)) =>
        ReadsTheSameStripped(value);
        var attributes := LineAttributes(line);
        if LabelId(heading).Some? {
          assert attributes[..0] == [];
          assert LastReading(attributes, id) ==
                 if Reading(attributes[0], id).Some? then Reading(attributes[0], id) else LastReading([], id);
        }
    }
  }

  /** The summary of a text is read off its lines: for every id, the last line that has a number for it. */
  lemma {:induction false} TextIsRead(lines: seq<string>, id: int)
    requires id != LIFE_LEFT
    ensures LastReading(AttributesOf(lines), id) == LastLine(lines, id)
  {
    if lines == [] {
    } else {
      var n := |lines| - 1;
      TextIsRead(lines[..n], id);
      LineSays(lines[n], id);
      LastReadingAppend(AttributesOf(lines[..n]), LineAttributes(lines[n]), id);
    }
  }

  lemma {:induction false} LastLineAppend(a: seq<string>, b: seq<string>, id: int)
    ensures LastLine(a + b, id) == if LastLine(b, id).Some? then LastLine(b, id) else LastLine(a, id)
  {
    if b == [] {
      assert a + b == a;
    } else {
      assert (a + b)[..|a + b| - 1] == a + b[..|b| - 1];
      LastLineAppend(a, b[..|b| - 1], id);
    }
  }

  lemma SilentLine(before: seq<string>, line: string, after: seq<string>, id: int)
    requires LineReading(line, id) == None
    ensures LastLine(before + [line] + after, id) == LastLine(before + after, id)
  {
    LastLineAppend(before + [line], after, id);
    LastLineAppend(before, [line], id);
    LastLineAppend(before, after, id);
    assert [line][..0] == [] && LastLine([line], id) == LastLine([], id);
  }

  lemma JoinedTextIsRead(lines: seq<string>, id: int)
    requires lines != [] && id != LIFE_LEFT && forall l :: l in lines ==> Without(l, '\n')
    ensures LastReading(AttributesOf(Split(Join(lines, '\n'), '\n')), id) == LastLine(lines, id)
  {
    SplitJoin(lines, '\n');
    TextIsRead(lines, id);
  }

  /** A line without a number for an id can stand anywhere in the text and changes nothing for it. */
  lemma OtherLinesDoNotMatter(before: seq<string>, line: string, after: seq<string>, id: int)
    requires |before + after| > 0 && id != LIFE_LEFT && Without(line, '\n')
    requires forall l :: l in before + after ==> Without(l, '\n')
    requires LineReading(line, id) == None
    ensures var with, without := Join(before + [line] + after, '\n'), Join(before + after, '\n');
      LastReading(AttributesOf(Split(with, '\n')), id) == LastReading(AttributesOf(Split(without, '\n')), id)
  {
    forall l | l in before + [line] + after
      ensures Without(l, '\n')
    {
      assert l == line || l in before + after;
    }
    JoinedTextIsRead(before + [line] + after, id);
    JoinedTextIsRead(before + after, id);
    SilentLine(before, line, after, id);
  }

  // ---- labels are matched whole ----------------------------------------------------------------------------

  lemma {:induction false} PartitionAtColon(head: string, tail: string)
    requires Without(head, ':')
    ensures Partition(head + ":" + tail) == Some((head, tail))
  {
    if head == "" {
      assert (head + ":" + tail)[1..] == tail;
    } else {
      PartitionAtColon(head[1..], tail);
      assert (head + ":" + tail)[1..] == head[1..] + ":" + tail;
      assert [head[0]] + head[1..] == head;
    }
  }

  lemma {:induction false} StripEndKeepsFront(front: string, tail: string)
    requires front != "" && !IsSpace(front[|front| - 1])
    ensures StripEnd(front + tail) == front + StripEnd(tail)
  {
    if tail == "" {
      assert front + tail == front;
    } else if IsSpace(tail[|tail| - 1]) {
      StripEndKeepsFront(front, tail[..|tail| - 1]);
      assert (front + tail)[..|front + tail| - 1] == front + tail[..|tail| - 1];
    }
  }

  lemma StrippedEndIsNotRead(value: string)
    ensures LeadingInt(StripEnd(value)) == LeadingInt(value)
  {
    ReadsTheSameStripped(value);
    ReadsTheSameStripped(StripEnd(value));
    StripTwice(value);
  }

  lemma {:induction false} StripTwice(value: string)
    ensures StripEnd(SkipSpace(StripEnd(value))) == StripEnd(SkipSpace(value))
  {
    var space := StripEndSplits(value);
    var kept := StripEnd(value);
    SkipBeforeSpace(kept, space);
    if SkipSpace(kept) != "" {
      StripEndDropsSpace(SkipSpace(kept), space);
    }
  }

  lemma {:induction false} StripEndDropsSpace(s: string, space: string)
    requires forall i :: 0 <= i < |space| ==> IsSpace(space[i])
    ensures StripEnd(s + space) == StripEnd(s)
  {
    if space == "" {
      assert s + space == s;
    } else {
      StripEndDropsSpace(s, space[..|space| - 1]);
      assert (s + space)[..|s + space| - 1] == s + space[..|space| - 1];
    }
  }

  /** The line begins with the one label that has a colon of its own. */
  predicate IsSasLine(heading: string, value: string) {
    SAS_HOURS <= heading + ":" + value
  }

  lemma SasLineStripped(heading: string, value: string)
    ensures IsSasLine(heading, StripEnd(value)) <==> IsSasLine(heading, value)
  {
    var space := StripEndSplits(value);
    var line, kept := heading + ":" + value, heading + ":" + StripEnd(value);
    assert line == kept + space;
    assert !IsSpace(SAS_HOURS[|SAS_HOURS| - 1]);
    assert forall i :: |kept| <= i < |line| ==> line[i] == space[i - |kept|];
  }

  lemma RestIsStripped(s: string, n: nat)
    requires n <= |StripEnd(s)|
    ensures |StripEnd(s)| <= |s|
    ensures LeadingInt(StripEnd(s)[n..]) == LeadingInt(s[n..])
  {
    var space := StripEndSplits(s);
    var kept := StripEnd(s)[n..];
    assert s[n..] == kept + space;
    StripEndDropsSpace(kept, space);
    StrippedEndIsNotRead(kept + space);
    StrippedEndIsNotRead(kept);
  }

  /** A line `label: value` is read exactly if its whole label is one the summary knows; no longer
      label passes for a shorter one. The label with a colon of its own is looked for first: a line
      that begins with it is read as hours, by what follows it. */
  lemma LabelsAreMatchedWhole(heading: string, value: string, id: int)
    requires heading != "" && Without(heading, ':') && StripSpace(heading) == heading && !IsSpace(heading[0])
    ensures LineReading(heading + ":" + value, id) ==
            if IsSasLine(heading, value)
            then if id == POWER_HOURS then LeadingInt((heading + ":" + value)[|SAS_HOURS|..]) else None
            else if LabelId(heading) == Some(id) then LeadingInt(value) else None
  {
    var line := heading + ":" + value;
    assert SkipSpace(line) == line;
    assert line == (heading + ":") + value;
    StripEndKeepsFront(heading + ":", value);
    SasLineStripped(heading, value);
    if IsSasLine(heading, value) {
      RestIsStripped(line, |SAS_HOURS|);
    } else {
      PartitionAtColon(heading, StripEnd(value));
      StrippedEndIsNotRead(value);
    }
  }

  // ---- which field is which --------------------------------------------------------------------------------

  /** The field behind each number; the life left is read from the normalised value, all else raw. */
  predicate OnlyField(summary: Summary, id: Option<int>, raw: Option<int>, value: Option<int>) {
    && summary.powerHours == (if id == Some(9) then raw else None)
    && summary.powerCycles == (if id == Some(12) then raw else None)
    && summary.powerLoss == (if id == Some(174) then raw else None)
    && summary.temperatureAir == (if id == Some(190) then raw else None)
    && summary.temperature == (if id == Some(194) then raw else None)
    && summary.lifeLeft == (if id == Some(231) then value else None)
  }

  /** One attribute, whatever its id is written as, fills in the field of its number and no other; one
      without a readable id, or that is no dictionary, fills in nothing. */
  lemma FieldsByNumber(summary: Summary, attribute: Attribute)
    requires Reads(summary, [attribute])
    ensures match attribute
            case Attribute(id, raw, value) => OnlyField(summary, ReadInt(id), ReadInt(raw), ReadInt(value))
            case NotADict => OnlyField(summary, None, None, None)
  {
    var one := [attribute];
    assert one[..0] == [];
    forall i
      ensures LastReading(one, i) == Reading(one[0], i)
    {
      assert LastReading(one[..0], i) == None;
    }
  }

  lemma LineHasThreeReadings(line: string, id: int)
    requires id != 194 && id != 12 && id != 9
    ensures LastReading(LineAttributes(line), id) == None
  {
    var last := LineAttributes(line);
    if last != [] {
      assert last[..0] == [];
      assert LastReading(last[..0], id) == None && Reading(last[0], id) == None;
    }
  }

  /** A text says nothing about the life left, the second temperature or the power losses. */
  lemma {:induction false} TextHasThreeReadings(lines: seq<string>, id: int)
    requires id != 194 && id != 12 && id != 9
    ensures LastReading(AttributesOf(lines), id) == None
  {
    if lines == [] {
    } else {
      var n := |lines| - 1;
      TextHasThreeReadings(lines[..n], id);
      LineHasThreeReadings(lines[n], id);
      LastReadingAppend(AttributesOf(lines[..n]), LineAttributes(lines[n]), id);
    }
  }

  lemma PlainHeading(heading: string, value: string, id: int)
    requires heading != "" && heading[0] != 'A' && Without(heading, ':')
    requires !IsSpace(heading[0]) && !IsSpace(heading[|heading| - 1])
    ensures LineReading(heading + ":" + value, id) == if LabelId(heading) == Some(id) then LeadingInt(value) else None
  {
    StripEndKeepsFront(heading, "");
    assert heading + "" == heading;
    assert (heading + ":" + value)[0] == heading[0] && SAS_HOURS[0] == 'A';
    LabelsAreMatchedWhole(heading, value, id);
  }

  /** The labels of NVMe drives. */
  lemma NvmeLabels(value: string, id: int)
    ensures LineReading("Temperature:" + value, id) == if id == 194 then LeadingInt(value) else None
    ensures LineReading("Power Cycles:" + value, id) == if id == 12 then LeadingInt(value) else None
    ensures LineReading("Power On Hours:" + value, id) == if id == 9 then LeadingInt(value) else None
  {
    PlainHeading("Temperature", value, id);
    PlainHeading("Power Cycles", value, id);
    PlainHeading("Power On Hours", value, id);
    assert "Temperature" + ":" == "Temperature:" && "Power Cycles" + ":" == "Power Cycles:";
    assert "Power On Hours" + ":" == "Power On Hours:";
  }

  const DRIVE_TEMPERATURE := "Current Drive Temperature:"
  const START_STOP := "Accumulated start-stop cycles:"

  /** The labels of SAS drives. */
  lemma SasLabels(value: string, id: int)
    ensures LineReading(DRIVE_TEMPERATURE + value, id) == if id == 194 then LeadingInt(value) else None
    ensures LineReading(START_STOP + value, id) == if id == 12 then LeadingInt(value) else None
    ensures LineReading(SAS_HOURS + value, id) == if id == 9 then LeadingInt(value) else None
  {
    DriveLabel(value, id);
    StartStopLabel(value, id);
    SasHoursLabel(value, id);
  }

  lemma DriveLabel(value: string, id: int)
    ensures LineReading(DRIVE_TEMPERATURE + value, id) == if id == 194 then LeadingInt(value) else None
  {
    PlainHeading("Current Drive Temperature", value, id);
    assert "Current Drive Temperature" + ":" == "Current Drive Temperature:";
  }

  lemma StartStopLabel(value: string, id: int)
    ensures LineReading(START_STOP + value, id) == if id == 12 then LeadingInt(value) else None
  {
    var heading := "Accumulated start-stop cycles";
    StripEndKeepsFront(heading, "");
    assert heading + "" == heading && heading + ":" == "Accumulated start-stop cycles:";
    NoSasLine(heading, value);
    LabelsAreMatchedWhole(heading, value, id);
  }

  lemma NoSasLine(heading: string, value: string)
    requires |heading| > 12 && heading[12] != 'p'
    ensures !IsSasLine(heading, value)
  {
    assert (heading + ":" + value)[12] == heading[12] && SAS_HOURS[12] == 'p';
  }

  lemma SasHoursLabel(value: string, id: int)
    ensures LineReading(SAS_HOURS + value, id) == if id == 9 then LeadingInt(value) else None
  {
    var heading := "Accumulated power on time, hours";
    StripEndKeepsFront(heading, "");
    assert heading + "" == heading && heading + ":" + ("minutes" + value) == SAS_HOURS + value;
    assert (SAS_HOURS + value)[|SAS_HOURS|..] == value;
    LabelsAreMatchedWhole(heading, "minutes" + value, id);
  }

  /** Any other label is none. */
  lemma OtherLabels(heading: string, value: string, id: int)
    requires heading != "" && Without(heading, ':') && StripSpace(heading) == heading && !IsSpace(heading[0])
    requires heading != "Temperature" && heading != "Power Cycles" && heading != "Power On Hours"
    requires heading != "Current Drive Temperature" && heading != "Accumulated start-stop cycles"
    requires heading != "Accumulated power on time, hours"
    ensures LineReading(heading + ":" + value, id) == None
  {
    LabelsAreMatchedWhole(heading, value, id);
    if IsSasLine(heading, value) {
      SasHeading(heading, value);
    } else {
      assert ':' in SAS_HOURS;
    }
  }

  lemma SasHeading(heading: string, value: string)
    requires Without(heading, ':') && IsSasLine(heading, value)
    ensures heading == "Accumulated power on time, hours"
  {
    var line, known := heading + ":" + value, "Accumulated power on time, hours";
    assert SAS_HOURS == known + ":" + "minutes" && Without(known, ':');
    var rest := line[|SAS_HOURS|..];
    assert line == SAS_HOURS + rest == known + ":" + ("minutes" + rest);
    PartitionAtColon(heading, value);
    PartitionAtColon(known, "minutes" + rest);
  }

  /** Space around a line, a label or a value does not matter. */
  lemma SpaceDoesNotMatter(a: string, heading: string, b: string, value: string, c: string, id: int)
    requires forall i :: 0 <= i < |a| ==> IsSpace(a[i])
    requires forall i :: 0 <= i < |b| ==> IsSpace(b[i])
    requires forall i :: 0 <= i < |c| ==> IsSpace(c[i])
    requires heading != "" && Without(heading, ':') && !IsSpace(heading[0]) && !IsSpace(heading[|heading| - 1])
    requires heading[0] != 'A'
    ensures LineReading(a + heading + b + ":" + value + c, id) == LineReading(heading + ":" + value, id)
  {
    PlainHeading(heading, value, id);
    var line := heading + b + ":" + value;
    PaddedLine(a, line, c);
    assert a + heading + b + ":" + value + c == a + (line + c);
    PaddedHeading(heading, b, value, id);
  }

  lemma PaddedLine(a: string, line: string, c: string)
    requires forall i :: 0 <= i < |a| ==> IsSpace(a[i])
    requires forall i :: 0 <= i < |c| ==> IsSpace(c[i])
    requires line != "" && !IsSpace(line[0])
    ensures StripSpace(a + (line + c)) == StripEnd(line) == StripSpace(line)
  {
    SkipSpaceAppend(a, line + c);
    assert (line + c)[0] == line[0];
    assert SkipSpace(line + c) == line + c;
    StripEndDropsSpace(line, c);
  }

  lemma PaddedHeading(heading: string, b: string, value: string, id: int)
    requires forall i :: 0 <= i < |b| ==> IsSpace(b[i])
    requires heading != "" && Without(heading, ':') && !IsSpace(heading[0]) && !IsSpace(heading[|heading| - 1])
    requires heading[0] != 'A'
    ensures LineReading(heading + b + ":" + value, id) == if LabelId(heading) == Some(id) then LeadingInt(value) else None
  {
    var head := heading + b;
    var line := head + ":" + value;
    assert line[0] == heading[0] && SAS_HOURS[0] == 'A' && SkipSpace(line) == line;
    assert line == (head + ":") + value;
    StripEndKeepsFront(head + ":", value);
    forall i | 0 <= i < |head|
      ensures head[i] != ':'
    {
      assert i < |heading| ==> heading[i] in heading;
    }
    PartitionAtColon(head, StripEnd(value));
    assert (head + ":" + StripEnd(value))[0] == heading[0];
    assert SkipSpace(head) == head;
    StripEndDropsSpace(heading, b);
    StripEndKeepsFront(heading, "");
    assert heading + "" == heading;
    StrippedEndIsNotRead(value);
  }

  /** So a sensor of its own is not the temperature of the drive. */
  lemma SensorsAreNotTheTemperature(value: string, id: int)
    ensures LineReading("Temperature Sensor 1:" + value, id) == None
  {
    var heading := "Temperature Sensor 1";
    assert SkipSpace(heading) == heading && StripEnd(heading) == heading;
    assert (heading + ":" + value)[0] == 'T' && SAS_HOURS[0] == 'A';
    assert heading + ":" + value == "Temperature Sensor 1:" + value;
    LabelsAreMatchedWhole(heading, value, id);
  }
}
