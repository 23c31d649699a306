/** The daily schedule page (`src/pages/SchedulePage.jsx`) without its markup:
    where each activity's block sits on the day timeline, the activity template
    a click on an hour slot produces, day navigation, the category colour and
    the per-category counts.

    The timeline starts at 06:00 and gives each hour 64 pixels. Positions are
    exact rationals here; the page computes them in floating point. */
module Schedule {
  import opened Options
  import opened Seqs
  import opened Text
  import opened Recurrence
  import opened Activities
  import opened ActivityForm

  const GridOriginHour: int := 6
  const PixelsPerHour: real := 64.0

  /** A parsed `"HH:MM - HH:MM"` range. Nothing requires the end to follow the start. */
  datatype TimeRange = TimeRange(startHour: int, startMinute: int, endHour: int, endMinute: int)

  /** An activity block's vertical geometry, in pixels. */
  datatype Block = Block(top: real, height: real)

  function MinuteOfDay(hour: int, minute: int): int {
    hour * 60 + minute
  }

  // ---------------------------------------------------------------- geometry

  /** `startPosition`: distance from the grid origin, whole hours plus the
      fraction of an hour the minutes make. In other words, 64/60 pixels per
      minute after 06:00 (negative before it; nothing is clipped). */
  function Top(hour: int, minute: int): (r: real)
    ensures r == (MinuteOfDay(hour, minute) - GridOriginHour * 60) as real * (PixelsPerHour / 60.0)
  {
    (hour - GridOriginHour) as real * PixelsPerHour + (minute as real / 60.0) * PixelsPerHour
  }

  /** `duration`: the range's length in minutes, as pixels. Negative when the
      end is before the start (an overnight range); nothing is clipped. */
  function Height(t: TimeRange): (r: real)
    ensures r == (MinuteOfDay(t.endHour, t.endMinute) - MinuteOfDay(t.startHour, t.startMinute)) as real
                 * (PixelsPerHour / 60.0)
    ensures r < 0.0 <==> MinuteOfDay(t.endHour, t.endMinute) < MinuteOfDay(t.startHour, t.startMinute)
  {
    ((t.endHour - t.startHour) * 60 + (t.endMinute - t.startMinute)) as real / 60.0 * PixelsPerHour
  }

  /** The block of a range: it starts at the start time's position and its
      bottom edge sits at the end time's position. */
  function Layout(t: TimeRange): (b: Block)
    ensures b.top == Top(t.startHour, t.startMinute)
    ensures b.top + b.height == Top(t.endHour, t.endMinute)
  {
    Block(Top(t.startHour, t.startMinute), Height(t))
  }

  /** A block's bottom edge sits where its end time would start a block. */
  lemma BottomIsEndPosition(t: TimeRange)
    ensures Layout(t).top + Layout(t).height == Top(t.endHour, t.endMinute)
  {
  }

  /** Later start, lower block: `Top` is strictly increasing in the time of day. */
  lemma TopStrictlyIncreasing(h1: int, m1: int, h2: int, m2: int)
    requires MinuteOfDay(h1, m1) < MinuteOfDay(h2, m2)
    ensures Top(h1, m1) < Top(h2, m2)
  {
  }

  /** One block lies wholly above another on the page exactly when its activity
      ends no later than the other starts. Blocks of overlapping activities
      therefore overlap: nothing moves them apart. */
  lemma DisjointRangesDisjointBlocks(a: TimeRange, b: TimeRange)
    ensures Layout(a).top + Layout(a).height <= Layout(b).top
            <==> MinuteOfDay(a.endHour, a.endMinute) <= MinuteOfDay(b.startHour, b.startMinute)
  {
    BottomIsEndPosition(a);
    if MinuteOfDay(a.endHour, a.endMinute) < MinuteOfDay(b.startHour, b.startMinute) {
      TopStrictlyIncreasing(a.endHour, a.endMinute, b.startHour, b.startMinute);
    } else if MinuteOfDay(a.endHour, a.endMinute) > MinuteOfDay(b.startHour, b.startMinute) {
      TopStrictlyIncreasing(b.startHour, b.startMinute, a.endHour, a.endMinute);
    }
  }

  lemma LayoutExamples()
    ensures Layout(TimeRange(9, 0, 17, 0)) == Block(192.0, 512.0)
    ensures Layout(TimeRange(6, 30, 7, 30)) == Block(32.0, 64.0)
    ensures Layout(TimeRange(23, 0, 7, 0)).height == -1024.0
  {
  }

  // ---------------------------------------------------------------- parsing

  /** `parseInt` of both halves of `text.split(':')`; `None` when either is
      `NaN`, which includes a text without a colon (its second half is `undefined`). */
  function ParseClock(text: string): (r: Option<(int, int)>)
    ensures var pieces := Split(text, ":");
            r.Some? <==> ParseInt(pieces[0]).Some? && |pieces| >= 2 && ParseInt(pieces[1]).Some?
    ensures var pieces := Split(text, ":");
            r.Some? ==> r.value == (ParseInt(pieces[0]).value, ParseInt(pieces[1]).value)
    ensures r.Some? ==> r.value.0 >= 0 && r.value.1 >= 0
  {
    var pieces := Split(text, ":");
    var hour := ParseInt(pieces[0]);
    var minute := if |pieces| >= 2 then ParseInt(pieces[1]) else None;
    if hour.Some? && minute.Some? then Some((hour.value, minute.value)) else None
  }

  /** Every `HH:MM` text parses to the hour and minute it shows. */
  lemma ParseClockText(s: string)
    requires IsClockText(s)
    ensures ParseClock(s) == Some((ClockHour(s), ClockMinute(s)))
  {
    var hh, mm := s[..2], s[3..];
    assert AllDigits(hh) && AllDigits(mm);
    assert s == Join2(hh, ":", mm);
    SplitJoin2(hh, ":", mm);
    LeadingDigitsOfDigits(hh);
    LeadingDigitsOfDigits(mm);
    TwoDigitsValue(hh);
    TwoDigitsValue(mm);
  }

  /** The range an activity's time string describes, or `None` when the page
      gets no usable position from it: a missing end half (on which the page
      throws) or a `NaN` field (which yields an unusable style). Otherwise the
      range is the parsed start clock followed by the parsed end clock. */
  function ParseTimeRange(time: string): (r: Option<TimeRange>)
    ensures var (startText, endText) := SplitTime(time);
            r.Some? <==> endText.Some? && ParseClock(startText).Some? && ParseClock(endText.value).Some?
    ensures var (startText, endText) := SplitTime(time);
            r.Some? ==> r.value == TimeRange(ParseClock(startText).value.0, ParseClock(startText).value.1,
                                             ParseClock(endText.value).value.0, ParseClock(endText.value).value.1)
  {
    var (startText, endText) := SplitTime(time);
    if endText.None? then None
    else
      match (ParseClock(startText), ParseClock(endText.value))
      case (Some(s), Some(e)) => Some(TimeRange(s.0, s.1, e.0, e.1))
      case _ => None
  }

  /** An `HH:MM - HH:MM` string parses to the clock values it shows. */
  lemma ParseClockRange(startTime: string, endTime: string)
    requires IsClockText(startTime) && IsClockText(endTime)
    ensures ParseTimeRange(ComposeTime(startTime, Some(endTime)))
            == Some(TimeRange(ClockHour(startTime), ClockMinute(startTime), ClockHour(endTime), ClockMinute(endTime)))
  {
    SplitComposeRoundTrip(startTime, endTime);
    ParseClockText(startTime);
    ParseClockText(endTime);
  }

  /** Where the page draws an activity: the layout of its parsed range, and
      nowhere when the range does not parse. */
  function ItemBlock(a: Activity): (r: Option<Block>)
    ensures r.Some? <==> ParseTimeRange(a.time).Some?
    ensures r.Some? ==> r.value == Layout(ParseTimeRange(a.time).value)
  {
    match ParseTimeRange(a.time)
    case Some(t) => Some(Layout(t))
    case None => None
  }

  /** Every activity timed `HH:MM - HH:MM` is drawn from its start clock to its
      end clock. */
  lemma ClockRangeBlock(a: Activity, startTime: string, endTime: string)
    requires IsClockText(startTime) && IsClockText(endTime)
    requires a.time == ComposeTime(startTime, Some(endTime))
    ensures ItemBlock(a) == Some(Layout(TimeRange(ClockHour(startTime), ClockMinute(startTime),
                                                   ClockHour(endTime), ClockMinute(endTime))))
  {
    ParseClockRange(startTime, endTime);
  }

  /** The sample morning exercise, 06:30 to 07:30, is drawn 32 pixels down and
      one hour tall. */
  lemma MorningExerciseBlock()
    ensures ItemBlock(Activity(Some(1), "Morning Exercise", "06:30 - 07:30", "Fitness", "Today", "completed"))
            == Some(Block(32.0, 64.0))
  {
    assert "06:30 - 07:30" == ComposeTime("06:30", Some("07:30"));
    ClockRangeBlock(Activity(Some(1), "Morning Exercise", "06:30 - 07:30", "Fitness", "Today", "completed"),
                    "06:30", "07:30");
  }

  /** The sample learning block, 19:15 to 20:15, is drawn a quarter hour below
      the 19:00 line and one hour tall. */
  lemma LearningBlock()
    ensures ItemBlock(Activity(Some(4), "Learning", "19:15 - 20:15", "Education", "Today", "upcoming"))
            == Some(Block(848.0, 64.0))
  {
    var a := Activity(Some(4), "Learning", "19:15 - 20:15", "Education", "Today", "upcoming");
    assert a.time == ComposeTime("19:15", Some("20:15"));
    assert ClockHour("19:15") == 19 && ClockMinute("19:15") == 15;
    assert ClockHour("20:15") == 20 && ClockMinute("20:15") == 15;
    ClockRangeBlock(a, "19:15", "20:15");
    var t := TimeRange(19, 15, 20, 15);
    assert Layout(t) == Block(848.0, 64.0) by {
      assert Top(19, 15) == 848.0;
      assert Height(t) == 64.0;
    }
  }

  // ---------------------------------------------------------------- slot click

  /** `${hour < 10 ? '0' + hour : hour}`: the hour, zero-padded to two digits.
      The text starts with a zero exactly for the one-digit hours. */
  function HourText(hour: nat): (r: string)
    ensures |r| >= 2 && AllDigits(r)
    ensures r[0] == '0' <==> hour < 10
  {
    if hour < 10 then "0" + Decimal(hour) else Decimal(hour)
  }

  /** `handleTimeSlotClick`: the id-less activity template the page hands to the
      form when the slot starting at `hour` is clicked. Its time splits into the
      slot's whole hour and the next one. */
  function SlotTemplate(hour: nat): (r: Activity)
    ensures r.id.None? && r.title == "" && r.category == "Personal"
    ensures r.date == "Today" && r.status == "upcoming"
    ensures SplitTime(r.time) == (HourText(hour) + ":00", Some(HourText(hour + 1) + ":00"))
  {
    var startText := HourText(hour) + ":00";
    var endText := HourText(hour + 1) + ":00";
    assert ' ' !in startText && ' ' !in endText;
    SplitComposeNoSpace(startText, endText);
    Activity(None, "", ComposeTime(startText, Some(endText)), "Personal", "Today", "upcoming")
  }

  /** Two-digit hours print as `HH`. */
  lemma {:induction false} HourTextIsTwoDigits(hour: nat)
    requires hour < 100
    ensures |HourText(hour)| == 2 && AllDigits(HourText(hour))
    ensures ParseInt(HourText(hour)) == Some(hour)
  {
    var s := HourText(hour);
    LeadingDigitsOfDigits(s);
    if hour < 10 {
      assert s == ['0', DigitChar(hour)];
      assert s[..1] == "0" && DigitsValue("0") == 0;
      assert DigitsValue(s) == DigitsValue(s[..1]) * 10 + (s[1] as int - '0' as int);
    } else {
      assert Decimal(hour) == Decimal(hour / 10) + [DigitChar(hour % 10)];
      assert |Decimal(hour / 10)| == 1;
      DecimalValue(hour);
    }
  }

  /** The slot's clock text parses back to the whole hour. */
  lemma ParseHourClock(hour: nat)
    requires hour < 100
    ensures IsClockText(HourText(hour) + ":00")
    ensures ParseClock(HourText(hour) + ":00") == Some((hour, 0))
  {
    HourTextIsTwoDigits(hour);
    var h := HourText(hour);
    assert h + ":00" == Join2(h, ":", "00");
    SplitJoin2(h, ":", "00");
    assert ParseInt("00") == Some(0);
  }

  /** For every slot the page shows (06:00 to 21:00), the template's time string
      parses to that whole hour through the next, so its block starts at
      `(hour - 6) * 64` and is exactly one hour tall. */
  lemma SlotTemplateLayout(hour: nat)
    requires 6 <= hour <= 21
    ensures ParseTimeRange(SlotTemplate(hour).time) == Some(TimeRange(hour, 0, hour + 1, 0))
    ensures ItemBlock(SlotTemplate(hour)) == Some(Block((hour - 6) as real * 64.0, 64.0))
  {
    var a := SlotTemplate(hour);
    ParseHourClock(hour);
    ParseHourClock(hour + 1);
    var t := TimeRange(hour, 0, hour + 1, 0);
    assert ParseTimeRange(a.time) == Some(t);
    assert Height(t) == 64.0;
    assert Top(hour, 0) == (hour - 6) as real * 64.0;
    assert Layout(t) == Block((hour - 6) as real * 64.0, 64.0);
    assert ItemBlock(a) == Some(Layout(t));
  }

  /** Clicking a slot and submitting the form unchanged adds an activity with no
      id, in the Personal category, drawn as a one-hour block at that slot. */
  lemma SlotClickThroughForm(hour: nat, freshId: int)
    requires 6 <= hour <= 21
    ensures var a := Submit(Some(SlotTemplate(hour)), InitialForm(Some(SlotTemplate(hour))), freshId);
            a.id.None? && a.category == "Personal"
            && ItemBlock(a) == Some(Block((hour - 6) as real * 64.0, 64.0))
  {
    ParseHourClock(hour);
    ParseHourClock(hour + 1);
    UnchangedSubmitIsIdentity(SlotTemplate(hour), HourText(hour) + ":00", HourText(hour + 1) + ":00", freshId);
    SlotTemplateLayout(hour);
  }

  // ---------------------------------------------------------------- navigation

  /** `nextDay`: the day after. */
  function NextDay(current: Day): (r: Day)
    ensures r > current && r - current == 1
  {
    current + 1
  }

  /** `previousDay`: the day before, which `nextDay` leads back from. */
  function PreviousDay(current: Day): (r: Day)
    ensures r < current && NextDay(r) == current
  {
    current - 1
  }

  /** Each button moves exactly one day, and each undoes the other. */
  lemma DayNavigation(current: Day)
    ensures NextDay(current) - current == 1 && current - PreviousDay(current) == 1
    ensures NextDay(PreviousDay(current)) == current
    ensures PreviousDay(NextDay(current)) == current
  {
  }

  // ---------------------------------------------------------------- colours and counts

  /** `getCategoryColor`: fitness, work and education in any case map to
      primary, secondary and accent; every other category to gray. */
  function CategoryColor(category: string): (r: string)
    ensures r == "primary" <==> ToLower(category) == "fitness"
    ensures r == "secondary" <==> ToLower(category) == "work"
    ensures r == "accent" <==> ToLower(category) == "education"
    ensures r == "gray" <==> Classify(category) == OtherCategory
  {
    match Classify(category)
    case Fitness => "primary"
    case Work => "secondary"
    case Education => "accent"
    case OtherCategory => "gray"
  }

  /** The colour ignores case. */
  lemma CategoryColorIgnoresCase(category: string)
    ensures CategoryColor(category) == CategoryColor(ToLower(category))
  {
    ClassifyIgnoresCase(category);
  }

  /** Adding an activity raises its own category's count by one and leaves the
      others alone. */
  lemma CategoryCountAfterAdd(list: seq<Activity>, a: Activity, name: string)
    ensures CategoryCount(AddActivity(list, a), name)
            == CategoryCount(list, name) + (if a.category == name then 1 else 0)
  {
    FilterSnoc(list, a, InCategory(name));
  }

  /** A lower-case "fitness" activity is coloured as Fitness but not counted as one. */
  lemma CountIsCaseSensitive()
    ensures var a := Activity(Some(1), "Run", "07:00 - 08:00", "fitness", "Today", "planned");
            CategoryColor(a.category) == "primary" && CategoryCount([a], "Fitness") == 0
  {
  }
}
