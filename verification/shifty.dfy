/** The activities page (`src/pages/ShiftyPage.jsx`) without its markup: the
    status badge, the Today and Tomorrow lists and the summary counts. Its add,
    edit and delete handlers are the shared ones of module `Activities`. */
module Shifty {
  import opened Options
  import opened Seqs
  import opened Activities

  datatype BadgeVariant = SuccessBadge | PrimaryBadge | GrayBadge | InfoBadge | SecondaryBadge

  datatype Badge = Badge(variant: BadgeVariant, text: string)

  /** `getStatusBadge`: the four known statuses get their own variant and a
      capitalised label; any other status gets the secondary variant, labelled
      with the raw status. The match is case-sensitive. */
  function StatusBadge(status: string): (b: Badge)
    ensures b.variant == SuccessBadge <==> status == "active"
    ensures b.variant == PrimaryBadge <==> status == "upcoming"
    ensures b.variant == GrayBadge <==> status == "completed"
    ensures b.variant == InfoBadge <==> status == "planned"
    ensures b.variant == SecondaryBadge <==> b.text == status
  {
    match status
    case "active" => Badge(SuccessBadge, "Active")
    case "upcoming" => Badge(PrimaryBadge, "Upcoming")
    case "completed" => Badge(GrayBadge, "Completed")
    case "planned" => Badge(InfoBadge, "Planned")
    case _ => Badge(SecondaryBadge, status)
  }

  predicate IsToday(a: Activity) {
    a.date == "Today"
  }

  predicate IsTomorrow(a: Activity) {
    a.date == "Tomorrow"
  }

  /** The "Today" section: `filter(a => a.date === 'Today')`, so every activity
      dated Today and nothing else. */
  function TodayList(list: seq<Activity>): (r: seq<Activity>)
    ensures forall i :: 0 <= i < |r| ==> r[i] in list && r[i].date == "Today"
    ensures forall i :: 0 <= i < |list| && list[i].date == "Today" ==> list[i] in r
  {
    Filter(list, IsToday)
  }

  /** The "Tomorrow" section: every activity dated Tomorrow and nothing else. */
  function TomorrowList(list: seq<Activity>): (r: seq<Activity>)
    ensures forall i :: 0 <= i < |r| ==> r[i] in list && r[i].date == "Tomorrow"
    ensures forall i :: 0 <= i < |list| && list[i].date == "Tomorrow" ==> list[i] in r
  {
    Filter(list, IsTomorrow)
  }

  /** The "Today's Activities" card: the same filter, counted; zero exactly
      when nothing is dated Today. */
  function TodayCount(list: seq<Activity>): (r: nat)
    ensures r <= |list|
    ensures r == 0 <==> forall i :: 0 <= i < |list| ==> list[i].date != "Today"
  {
    Count(list, IsToday)
  }

  predicate IsUpcoming(a: Activity) {
    a.status == "upcoming"
  }

  predicate IsPlanned(a: Activity) {
    a.status == "planned"
  }

  predicate IsUpcomingOrPlanned(a: Activity) {
    a.status == "upcoming" || a.status == "planned"
  }

  /** The "Upcoming" card: activities that are upcoming or planned; zero
      exactly when none is either. */
  function UpcomingCount(list: seq<Activity>): (r: nat)
    ensures r <= |list|
    ensures r == 0 <==> forall i :: 0 <= i < |list| ==> list[i].status != "upcoming" && list[i].status != "planned"
  {
    Count(list, IsUpcomingOrPlanned)
  }

  /** The "Fitness" card: an exact, case-sensitive category match; zero exactly
      when no category is literally "Fitness". */
  function FitnessCount(list: seq<Activity>): (r: nat)
    ensures r <= |list|
    ensures r == 0 <==> forall i :: 0 <= i < |list| ==> list[i].category != "Fitness"
  {
    CategoryCount(list, "Fitness")
  }

  /** The card counts exactly the activities listed under Today, the Today and
      Tomorrow sections never share an activity, and together they list at most
      every activity once. */
  lemma {:induction false} TodayTomorrowPartition(list: seq<Activity>)
    ensures TodayCount(list) == |TodayList(list)|
    ensures forall i :: 0 <= i < |TodayList(list)| ==> TodayList(list)[i] !in TomorrowList(list)
    ensures |TodayList(list)| + |TomorrowList(list)| <= |list|
  {
    CountExclusiveOr(list, IsToday, IsTomorrow, (a: Activity) => IsToday(a) || IsTomorrow(a));
  }

  /** The upcoming card counts the upcoming and the planned activities. */
  lemma {:induction false} UpcomingIsUpcomingPlusPlanned(list: seq<Activity>)
    ensures UpcomingCount(list) == Count(list, IsUpcoming) + Count(list, IsPlanned)
  {
    CountExclusiveOr(list, IsUpcoming, IsPlanned, IsUpcomingOrPlanned);
  }

  /** Adding an activity dated Today grows the Today section by exactly that
      activity, at its end; adding one for another day leaves it as it was. */
  lemma TodayListAfterAdd(list: seq<Activity>, a: Activity)
    ensures TodayList(AddActivity(list, a)) == TodayList(list) + (if IsToday(a) then [a] else [])
  {
    FilterSnoc(list, a, IsToday);
  }

  /** Deleting from the page's list deletes from the Today section and from
      nowhere else in it: the section after the delete is the section before it,
      with the deleted id's entries gone. */
  lemma {:induction false} TodayListAfterDelete(list: seq<Activity>, current: Activity)
    ensures TodayList(DeleteActivity(list, Some(current)))
            == DeleteActivity(TodayList(list), Some(current))
  {
    if |list| > 0 {
      TodayListAfterDelete(list[1..], current);
    }
  }

  /** The page's sample activities: four today, one tomorrow. */
  const SampleActivities: seq<Activity> := [
    Activity(Some(1), "Morning Exercise", "06:30 - 07:30", "Fitness", "Today", "completed"),
    Activity(Some(2), "Work", "09:00 - 17:00", "Work", "Today", "active"),
    Activity(Some(3), "Sports", "17:00 - 18:00", "Fitness", "Today", "upcoming"),
    Activity(Some(4), "Learning", "19:15 - 20:15", "Education", "Today", "upcoming"),
    Activity(Some(5), "Morning Run", "07:00 - 08:00", "Fitness", "Tomorrow", "planned")
  ]

  lemma SampleTodayCount()
    ensures TodayCount(SampleActivities) == 4
  {
  }

  lemma SampleUpcomingCount()
    ensures UpcomingCount(SampleActivities) == 3
  {
  }

  lemma SampleFitnessCount()
    ensures FitnessCount(SampleActivities) == 3
  {
  }

  lemma UnknownStatusBadge()
    ensures StatusBadge("paused") == Badge(SecondaryBadge, "paused")
  {
  }
}
