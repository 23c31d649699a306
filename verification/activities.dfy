/** The activity record shared by the schedule page and the activities page,
    the category classification both pages use, and the add, edit and delete
    handlers they both apply to their activity list (`SchedulePage.jsx` and
    `ShiftyPage.jsx` carry the same three handlers). */
module Activities {
  import opened Options
  import opened Seqs
  import opened Text

  /** An activity. `id` is `None` for a record that has no id at all, such as
      the template the schedule builds when a time slot is clicked; JavaScript
      compares two missing ids as equal, and so does `None == None`.
      The stored icon is left out: it is always the icon of the category. */
  datatype Activity = Activity(
    id: Option<int>,
    title: string,
    time: string,
    category: string,
    date: string,
    status: string)

  function ActivityIds(list: seq<Activity>): seq<Option<int>> {
    Map(list, (a: Activity) => a.id)
  }

  // ---------------------------------------------------------------- time ranges

  /** The separator between the start and the end of a time range. */
  const TimeSeparator: string := " - "

  /** A clock time as an `<input type="time">` produces it: `HH:MM`. */
  predicate IsClockText(s: string) {
    |s| == 5 && IsDigit(s[0]) && IsDigit(s[1]) && s[2] == ':' && IsDigit(s[3]) && IsDigit(s[4])
  }

  /** The hour a clock text shows. */
  function ClockHour(s: string): int
    requires IsClockText(s)
  {
    10 * DigitValue(s[0]) + DigitValue(s[1])
  }

  /** The minute a clock text shows. */
  function ClockMinute(s: string): int
    requires IsClockText(s)
  {
    10 * DigitValue(s[3]) + DigitValue(s[4])
  }

  /** `const [startTime, endTime] = time.split(' - ')`: the first two pieces.
      Without a separator the start is the whole string and there is no end;
      with one, the start is the text before the first separator, holds no
      separator itself, and is followed by the separator and the end. */
  function SplitTime(time: string): (r: (string, Option<string>))
    ensures r.1.None? <==> forall k :: !OccursAt(time, TimeSeparator, k)
    ensures r.1.None? ==> r.0 == time
    ensures r.1.Some? ==> r.0 + TimeSeparator + r.1.value <= time
    ensures r.1.Some? ==> forall k :: !OccursAt(r.0, TimeSeparator, k)
    ensures r.1.Some? ==> IndexOf(time, TimeSeparator, 0) == Some(|r.0|)
    ensures r.1.Some? ==>
      r.1.value == time[|r.0| + |TimeSeparator|..PieceEnd(time, TimeSeparator, |r.0| + |TimeSeparator|)]
  {
    var pieces := Split(time, TimeSeparator);
    if |pieces| >= 2 then
      SecondOfSplit(time, TimeSeparator, pieces);
      JoinCons(pieces[0], pieces[1..], TimeSeparator);
      assert pieces == [pieces[0]] + pieces[1..];
      (pieces[0], Some(pieces[1]))
    else
      (pieces[0], None)
  }

  /** `${startTime} - ${endTime}`, where a missing end prints as `undefined`:
      the start, the separator, then the end. */
  function ComposeTime(startTime: string, endTime: Option<string>): (r: string)
    ensures |r| == |startTime| + |TimeSeparator| + |endTime.GetOr("undefined")|
    ensures r[..|startTime|] == startTime
    ensures OccursAt(r, TimeSeparator, |startTime|)
    ensures r[|startTime| + |TimeSeparator|..] == endTime.GetOr("undefined")
  {
    var r := Join2(startTime, TimeSeparator, endTime.GetOr("undefined"));
    assert r[|startTime|..|startTime| + |TimeSeparator|] == TimeSeparator;
    r
  }

  /** Splitting a composed time range gives back both halves whenever neither
      contains a space. */
  lemma SplitComposeNoSpace(startTime: string, endTime: string)
    requires ' ' !in startTime && ' ' !in endTime
    ensures SplitTime(ComposeTime(startTime, Some(endTime))) == (startTime, Some(endTime))
  {
    SplitJoin2(startTime, TimeSeparator, endTime);
  }

  /** Splitting a composed `HH:MM - HH:MM` range gives back both clock times. */
  lemma {:induction false} SplitComposeRoundTrip(startTime: string, endTime: string)
    requires IsClockText(startTime) && IsClockText(endTime)
    ensures SplitTime(ComposeTime(startTime, Some(endTime))) == (startTime, Some(endTime))
  {
    assert ' ' !in startTime && ' ' !in endTime;
    SplitComposeNoSpace(startTime, endTime);
  }

  // ---------------------------------------------------------------- categories

  /** The three categories the pages recognise, whatever their case. */
  datatype CategoryKind = Fitness | Work | Education | OtherCategory

  /** `switch (category.toLowerCase())` over 'fitness', 'work' and 'education'. */
  function Classify(category: string): (k: CategoryKind)
    ensures k == Fitness <==> ToLower(category) == "fitness"
    ensures k == Work <==> ToLower(category) == "work"
    ensures k == Education <==> ToLower(category) == "education"
  {
    var c := ToLower(category);
    if c == "fitness" then Fitness
    else if c == "work" then Work
    else if c == "education" then Education
    else OtherCategory
  }

  /** Classification ignores case. */
  lemma ClassifyIgnoresCase(category: string)
    ensures Classify(category) == Classify(ToLower(category))
  {
    ToLowerIdempotent(category);
  }

  /** The icons of `getCategoryIcon`. */
  datatype Icon = ActivityIcon | CoffeeIcon | BookOpenIcon | StarIcon

  /** `getCategoryIcon` of the activities page and of the activity form. */
  function CategoryIcon(category: string): (i: Icon)
    ensures i == ActivityIcon <==> ToLower(category) == "fitness"
    ensures i == CoffeeIcon <==> ToLower(category) == "work"
    ensures i == BookOpenIcon <==> ToLower(category) == "education"
    ensures i == StarIcon <==> Classify(category) == OtherCategory
  {
    match Classify(category)
    case Fitness => ActivityIcon
    case Work => CoffeeIcon
    case Education => BookOpenIcon
    case OtherCategory => StarIcon
  }

  function InCategory(name: string): Activity -> bool {
    (a: Activity) => a.category == name
  }

  /** The summary cards' `filter(a => a.category === name).length`: an exact,
      case-sensitive match, unlike the colour and the icon. */
  function CategoryCount(list: seq<Activity>, name: string): (r: nat)
    ensures r <= |list|
    ensures r == 0 <==> forall i :: 0 <= i < |list| ==> list[i].category != name
  {
    Count(list, InCategory(name))
  }

  lemma CategoryIconExamples()
    ensures CategoryIcon("Fitness") == ActivityIcon
    ensures CategoryIcon("WORK") == CoffeeIcon
    ensures CategoryIcon("Personal") == StarIcon
  {
  }

  // ---------------------------------------------------------------- handlers

  /** `handleAddSubmit`: the new activity goes at the end; nothing else moves. */
  function AddActivity(list: seq<Activity>, newActivity: Activity): (r: seq<Activity>)
    ensures |r| == |list| + 1 && r[..|list|] == list && r[|list|] == newActivity
  {
    list + [newActivity]
  }

  /** `handleEditSubmit`: every activity with the updated activity's id is
      replaced by it; the others and the order are unchanged. */
  function EditActivity(list: seq<Activity>, updated: Activity): (r: seq<Activity>)
    ensures |r| == |list|
    ensures forall i :: 0 <= i < |r| && list[i].id == updated.id ==> r[i] == updated
    ensures forall i :: 0 <= i < |r| && list[i].id != updated.id ==> r[i] == list[i]
  {
    Map(list, (a: Activity) => if a.id == updated.id then updated else a)
  }

  /** `handleDeleteActivity`: with an activity selected, exactly the
      activities with its id go; with none selected, nothing happens. */
  function DeleteActivity(list: seq<Activity>, current: Option<Activity>): (r: seq<Activity>)
    ensures current.None? ==> r == list
    ensures current.Some? ==> forall i :: 0 <= i < |r| ==> r[i] in list && r[i].id != current.value.id
    ensures current.Some? ==> forall i :: 0 <= i < |list| && list[i].id != current.value.id ==> list[i] in r
  {
    match current
    case None => list
    case Some(c) => Filter(list, (a: Activity) => a.id != c.id)
  }

  /** Editing never changes the sequence of ids. */
  lemma EditKeepsIds(list: seq<Activity>, updated: Activity)
    ensures ActivityIds(EditActivity(list, updated)) == ActivityIds(list)
  {
  }

  /** Submitting the same edit twice is the same as submitting it once. */
  lemma EditIdempotent(list: seq<Activity>, updated: Activity)
    ensures EditActivity(EditActivity(list, updated), updated) == EditActivity(list, updated)
  {
  }

  /** Deleting works piecewise, so the survivors keep their order. */
  lemma DeleteKeepsOrder(a: seq<Activity>, b: seq<Activity>, current: Activity)
    ensures DeleteActivity(a + b, Some(current))
            == DeleteActivity(a, Some(current)) + DeleteActivity(b, Some(current))
  {
    FilterConcat(a, b, (x: Activity) => x.id != current.id);
  }

  /** Deleting an activity just added under an id nobody else has restores the list. */
  lemma DeleteUndoesAdd(list: seq<Activity>, newActivity: Activity)
    requires newActivity.id !in ActivityIds(list)
    ensures DeleteActivity(AddActivity(list, newActivity), Some(newActivity)) == list
  {
    DeleteKeepsOrder(list, [newActivity], newActivity);
    assert forall i :: 0 <= i < |list| ==> ActivityIds(list)[i] == list[i].id;
  }

  /** Deleting an id-less activity removes every id-less activity, since all of
      them share the same missing id. */
  lemma DeleteIdlessRemovesAllIdless(list: seq<Activity>, current: Activity)
    requires current.id.None?
    ensures forall i :: 0 <= i < |DeleteActivity(list, Some(current))| ==>
              DeleteActivity(list, Some(current))[i].id.Some?
  {
  }
}
