# Myplanner, modelled in Dafny

Myplanner is a single-page React planner with four screens:
- a shift organizer with repeating shifts and user-defined shift types;
- a daily schedule drawn on an hour timeline;
- an activities overview with Today and Tomorrow lists and summary cards;
- a workout planner built on an exercise library.

This project models the logic inside those screens as pure Dafny functions over immutable datatypes. The markup is not modelled. The model proves what the handlers do to their lists, and covers how the next occurrence of a repeating shift is computed and where an activity block lands on the timeline.

Modules, one per source file, plus shared helpers:

| module | file | models |
|---|---|---|
| `Options` | options.dfy | `undefined`/`null` as `None` |
| `Seqs` | seqs.dfy | `filter`, `map`, `find`, `findIndex`, `some` on sequences |
| `Text` | text.dfy | `toLowerCase`, `split`, `parseInt` and number-to-text |
| `Recurrence` | recurrence.dfy | `calculateNextOccurrence` of the shift organizer |
| `ShiftOrganizer` | shift_organizer.dfy | `src/pages/ShiftOrganizerPage.jsx` |
| `Activities` | activities.dfy | the activity record and the add, edit and delete handlers shared by the schedule and activities pages |
| `ActivityForm` | activity_form.dfy | `src/components/ActivityForm.jsx` |
| `Schedule` | schedule.dfy | `src/pages/SchedulePage.jsx` |
| `Shifty` | shifty.dfy | `src/pages/ShiftyPage.jsx` |
| `Workouts` | workouts.dfy | `src/pages/WorkoutPlannerPage.jsx` over the data of `src/data/workoutData.js` |
| `WorkoutForm` | workout_form.dfy | `src/components/WorkoutForm.jsx` |

Abstractions used throughout:
- **Dates** are integer day numbers, and "today" is a parameter. 2025-05-04 is day 20212.
- **Fresh ids** that the source draws from `Date.now()` are parameters.
- **JavaScript's `%`** truncates toward zero. It is written out as `Recurrence.JsRem`.
- **Missing activity ids.** An activity's id is `Option<int>`, because the template built by a slot click has no id. JavaScript compares two missing ids as equal, and so does the model.
- **Timeline positions** are exact `real` numbers.

Points where the code behaves differently from what a reader might expect:
- **Next occurrence when the anchor is today.** The code returns the anchor date whenever it is not before today. So on day numbers, anchor 2025-05-04 repeating every 10 days, seen on 2025-05-04, gives 2025-05-04 itself (`Recurrence.Scenarios`). In the browser, `new Date('YYYY-MM-DD')` is UTC midnight while `today` is local midnight. West of UTC such an anchor therefore counts as past, and the code computes 2025-05-14. `formatDate` (src/pages/ShiftOrganizerPage.jsx:98-101) parses that date-only string as UTC midnight again and formats it in local time, so the page displays "Tuesday, May 13, 2025". The model stops at the computed day and does not model time zones or `formatDate`.
- **Duration unit.** The code labels an exercise's `defaultDuration` as seconds when it is 60 or more and as minutes otherwise. The library's own comments give Plank, Mountain Climbers and Warrior Pose (30, 30 and 45) in seconds, but the page shows them in minutes. `Workouts.DurationUnit` models the code.
- **Repeat interval below 1.** The code has no guard. For a past anchor and an interval of 0, `%` gives `NaN` and the date arithmetic an Invalid Date. `toISOString` (src/pages/ShiftOrganizerPage.jsx:262) then throws a `RangeError` while the table renders, and with no error boundary in `src/App.jsx` no date is shown at all. `None` in `Recurrence.NextOccurrence` stands for that throw. A negative interval gives a date computed with JavaScript's remainder. The recurrence lemmas assume an interval of at least 1, which the repeat input's `min="1"` (src/pages/ShiftOrganizerPage.jsx:470) asks the browser to enforce.
- **Table order.** The shift table is commented as sorted by next occurrence, but it is sorted by anchor date. The model sorts by anchor date.

## Model

| member | source | states |
|---|---|---|
| Seqs.Filter | src/pages/ShiftyPage.jsx:142 | `filter` keeps exactly the elements that pass, drops none that pass, and is the identity when all pass |
| Seqs.FilterConcat | src/pages/ShiftyPage.jsx:142 | filtering distributes over concatenation, so survivors never change order |
| Seqs.FilterSnoc | src/pages/ShiftyPage.jsx:121-126 | filtering a list with one more activity at the end adds that activity at the end exactly when it passes |
| Seqs.Count | src/pages/ShiftyPage.jsx:199 | a `filter(...).length` count is at most the length, zero exactly when nothing passes, and the length when everything passes |
| Seqs.FilterDistinct | src/components/WorkoutForm.jsx:56-59 | filtering a list without repeats yields a list without repeats |
| Seqs.CountExclusiveOr | src/pages/ShiftyPage.jsx:239 | counting with a disjunction of exclusive conditions adds the two counts |
| Seqs.FindIndex | src/pages/ShiftOrganizerPage.jsx:105 | `None` exactly when nothing matches, otherwise the index of the first match |
| Seqs.Find | src/pages/ShiftOrganizerPage.jsx:105 | `undefined` exactly when nothing matches, otherwise the first matching element |
| Text.ToLower | src/pages/SchedulePage.jsx:86 | lower-casing keeps the length and maps each character |
| Text.ToLowerIdempotent | src/pages/SchedulePage.jsx:86 | lower-casing twice is lower-casing once |
| Text.IndexOf | src/components/ActivityForm.jsx:18 | the first position at or after `from` where the separator occurs, or none |
| Text.Split | src/components/ActivityForm.jsx:18 | `split` gives one piece exactly when the separator does not occur, no piece but the last holds the separator, the first piece ends at the first occurrence, and joining the pieces with the separator gives the text back |
| Text.SplitJoin2 | src/components/ActivityForm.jsx:18-42 | splitting `a + sep + b` on `sep` gives `[a, b]` when neither part contains the separator's first character |
| Text.SplitScansLeftToRight | src/components/ActivityForm.jsx:18 | `split` cuts left to right: every piece but the last ends at the first occurrence of the separator at or after the piece's start, and none occurs from the last piece's start on |
| Text.SecondOfSplit | src/components/ActivityForm.jsx:18 | the second piece runs from just past the first occurrence to the next occurrence, or to the end of the text |
| Text.LeadingDigits | src/pages/SchedulePage.jsx:249-253 | the longest all-digit prefix, which is what `parseInt` reads |
| Text.ParseInt | src/pages/SchedulePage.jsx:249-253 | `NaN` exactly when the text is empty or does not start with a digit; otherwise the value of its leading digits |
| Text.Decimal | src/pages/SchedulePage.jsx:160-161 | a number prints as a non-empty string of digits, one digit exactly below 10, with no leading zero except for 0 itself |
| Text.DecimalValue | src/pages/SchedulePage.jsx:160-161 | the printed digits denote the number |
| Text.ParseDecimal | src/pages/SchedulePage.jsx:160-161 | `parseInt` reads back a printed number |
| Recurrence.JsRem | src/pages/ShiftOrganizerPage.jsx:256 | the remainder is smaller than the divisor, takes the dividend's sign, and differs from the dividend by a multiple of the divisor: the truncated remainder on every input |
| Recurrence.NextOccurrence | src/pages/ShiftOrganizerPage.jsx:242-263 | an anchor not before today is returned itself; the result is invalid exactly when the anchor is past and the interval is 0 |
| Recurrence.NextIsStrictlyFuture | src/pages/ShiftOrganizerPage.jsx:253-260 | for a past anchor, the next occurrence is after today and at most one interval away; it is a full interval away exactly when today is itself an occurrence |
| Recurrence.NextIsOnLattice | src/pages/ShiftOrganizerPage.jsx:253-260 | the next occurrence is a whole number of intervals after the anchor |
| Recurrence.NextIsMinimal | src/pages/ShiftOrganizerPage.jsx:253-260 | no occurrence falls strictly between today and the computed next one |
| Recurrence.NextStepsOnePeriod | src/pages/ShiftOrganizerPage.jsx:253-260 | asking again on the computed day gives the day one interval later, so stepping never skips or repeats an occurrence |
| Recurrence.Scenarios | src/pages/ShiftOrganizerPage.jsx:242-263 | worked cases: anchor today, 16 days after the anchor, anchor in the future, interval 0 |
| ShiftOrganizer.GetShiftType | src/pages/ShiftOrganizerPage.jsx:104-106 | unknown exactly when no built-in or custom type has the id; otherwise the first type with that id; the stand-in reads "Unknown" in gray |
| ShiftOrganizer.GetShiftTypeResolves | src/pages/ShiftOrganizerPage.jsx:104-106 | with well-numbered custom types, ids 1–4 are the built-ins, `5 + i` is custom type `i`, and every other id is unknown |
| ShiftOrganizer.LookupExamples | src/pages/ShiftOrganizerPage.jsx:10-15 | id 4 is the Free Day; id 9 with no custom types is Unknown |
| ShiftOrganizer.NewShiftForm | src/pages/ShiftOrganizerPage.jsx:109-118 | the add form opens on today, the day shift, every 7 days, no notes |
| ShiftOrganizer.EditShiftForm | src/pages/ShiftOrganizerPage.jsx:121-130 | the edit form holds the shift's date, type, interval and notes, so writing it back changes nothing |
| ShiftOrganizer.AddShift | src/pages/ShiftOrganizerPage.jsx:161-173 | the new shift is appended with the fresh id and exactly the form's fields; nothing before it changes |
| ShiftOrganizer.EditShift | src/pages/ShiftOrganizerPage.jsx:176-192 | shifts with the current id take the form's fields, every id is kept, and all other shifts are untouched |
| ShiftOrganizer.DeleteShift | src/pages/ShiftOrganizerPage.jsx:195-200 | exactly the shifts with the current id go; an id nobody has changes nothing |
| ShiftOrganizer.DeleteShiftKeepsOrder | src/pages/ShiftOrganizerPage.jsx:195-200 | deletion works piecewise, so the remaining shifts keep their order |
| ShiftOrganizer.DeleteUndoesAdd | src/pages/ShiftOrganizerPage.jsx:161-200 | deleting a shift just added under a fresh id restores the list |
| ShiftOrganizer.EditWithOwnFormIsIdentity | src/pages/ShiftOrganizerPage.jsx:121-192 | opening a shift for editing and submitting unchanged leaves the list as it was, given distinct ids |
| ShiftOrganizer.AddShiftType | src/pages/ShiftOrganizerPage.jsx:219-229 | a new custom type is appended with id one past all built-in and custom types, and with the form's fields |
| ShiftOrganizer.EditShiftType | src/pages/ShiftOrganizerPage.jsx:205-217 | custom types with the current id take the form's fields and keep their id; others are untouched |
| ShiftOrganizer.WellNumberedIdsDistinct | src/pages/ShiftOrganizerPage.jsx:10-15 | built-in ids 1–4 followed by custom ids 5, 6, … are all different |
| ShiftOrganizer.ApplyTypeActionKeepsNumbering | src/pages/ShiftOrganizerPage.jsx:203-231 | one add or edit of a shift type keeps custom type `i` at id `5 + i` |
| ShiftOrganizer.TypeIdsStayDistinct | src/pages/ShiftOrganizerPage.jsx:203-231 | any sequence of shift-type adds and edits leaves every type, built-in or custom, with its own id |
| ShiftOrganizer.InsertByDate | src/pages/ShiftOrganizerPage.jsx:266-270 | inserting into a date-ordered list keeps it ordered and adds exactly the one shift |
| ShiftOrganizer.SortByDate | src/pages/ShiftOrganizerPage.jsx:266-270 | the table is in anchor-date order and is a permutation of the shifts |
| ShiftOrganizer.SortSortedIsIdentity | src/pages/ShiftOrganizerPage.jsx:266-270 | sorting a list already in date order changes nothing |
| ShiftOrganizer.SortIdempotent | src/pages/ShiftOrganizerPage.jsx:266-270 | sorting the sorted table again changes nothing |
| ShiftOrganizer.SampleShiftsSorted | src/pages/ShiftOrganizerPage.jsx:18-47 | the sample shifts are already in table order |
| Activities.SplitComposeRoundTrip | src/components/ActivityForm.jsx:18-42 | splitting a composed `HH:MM - HH:MM` time gives back both clock times |
| Activities.SplitTime | src/components/ActivityForm.jsx:18 | with no `" - "` the start is the whole text and the end is missing; otherwise the start ends at the first `" - "` and the end runs from just after it to the next `" - "` or the end of the text |
| Activities.ComposeTime | src/components/ActivityForm.jsx:42 | the start, then `" - "`, then the end, with `undefined` printed for a missing end |
| Activities.SplitComposeNoSpace | src/components/ActivityForm.jsx:18-42 | splitting a composed time gives back both halves whenever neither holds a space |
| Activities.Classify | src/pages/ShiftyPage.jsx:83-94 | a category is Fitness, Work or Education exactly when its lower-case form is that word |
| Activities.ClassifyIgnoresCase | src/pages/ShiftyPage.jsx:84 | classification does not depend on case |
| Activities.CategoryIcon | src/pages/ShiftyPage.jsx:83-94 | each of the three categories, in any case, has its own icon; everything else gets the star |
| Activities.CategoryIconExamples | src/components/ActivityForm.jsx:52-63 | "Fitness" and "WORK" get their icons and "Personal" gets the star |
| Activities.AddActivity | src/pages/ShiftyPage.jsx:121-126 | the new activity is appended; existing entries and their order are unchanged |
| Activities.EditActivity | src/pages/ShiftyPage.jsx:129-136 | entries with the updated id become the update; all others are unchanged, in place |
| Activities.DeleteActivity | src/pages/ShiftyPage.jsx:139-146 | with no activity selected nothing changes; otherwise exactly the entries with its id go |
| Activities.EditKeepsIds | src/pages/SchedulePage.jsx:131-139 | editing never changes the sequence of ids |
| Activities.EditIdempotent | src/pages/SchedulePage.jsx:131-139 | submitting the same edit twice equals submitting it once |
| Activities.DeleteKeepsOrder | src/pages/SchedulePage.jsx:141-148 | deletion works piecewise, so the remaining activities keep their order |
| Activities.DeleteUndoesAdd | src/pages/SchedulePage.jsx:123-148 | deleting an activity just added under an unused id restores the list |
| Activities.DeleteIdlessRemovesAllIdless | src/pages/SchedulePage.jsx:141-148 | deleting an id-less activity removes every id-less activity |
| Activities.CategoryCount | src/pages/SchedulePage.jsx:337-355 | a category card counts at most every activity, and is zero exactly when no category equals the name exactly |
| ActivityForm.InitialForm | src/components/ActivityForm.jsx:6-28 | with no activity, the defaults; otherwise the activity's fields, with its time split on `" - "` |
| ActivityForm.Submit | src/components/ActivityForm.jsx:35-50 | the id is the given activity's id, even a missing one, or a fresh id when none is given; the time is the start, `" - "` and the end (`undefined` when missing); the other fields come from the form |
| ActivityForm.SubmitTimeRoundTrip | src/components/ActivityForm.jsx:15-50 | reopening a submitted record restores the form when both times are `HH:MM` |
| ActivityForm.UnchangedSubmitIsIdentity | src/components/ActivityForm.jsx:15-50 | opening a well-formed activity and submitting unchanged gives back the same activity |
| ActivityForm.DefaultSubmit | src/components/ActivityForm.jsx:6-50 | the untouched new-activity form submits a Fitness activity, Today, 09:00 - 10:00, upcoming |
| Schedule.Top | src/pages/SchedulePage.jsx:255 | a block starts 64/60 pixels per minute after 06:00 |
| Schedule.Height | src/pages/SchedulePage.jsx:256 | a block is 64/60 pixels per minute long, and negative exactly when the end precedes the start |
| Schedule.Layout | src/pages/SchedulePage.jsx:255-256 | a block starts at its start time's position and its bottom edge is at its end time's position |
| Schedule.BottomIsEndPosition | src/pages/SchedulePage.jsx:255-256 | a block's bottom edge sits where its end time would start a block |
| Schedule.TopStrictlyIncreasing | src/pages/SchedulePage.jsx:255 | a later start time gives a strictly lower block |
| Schedule.DisjointRangesDisjointBlocks | src/pages/SchedulePage.jsx:255-256 | one block lies wholly above another exactly when its activity ends no later than the other starts, so overlapping activities get overlapping blocks |
| Schedule.LayoutExamples | src/pages/SchedulePage.jsx:255-256 | 09:00–17:00 is at 192 px, 512 px tall; an overnight range has negative height |
| Schedule.ParseClock | src/pages/SchedulePage.jsx:249-253 | hour and minute are `parseInt` of the text before and after the first colon; none when either is `NaN` or there is no colon |
| Schedule.ParseClockText | src/pages/SchedulePage.jsx:249-253 | every `HH:MM` text parses to the hour and minute it shows |
| Schedule.ParseTimeRange | src/pages/SchedulePage.jsx:246-253 | a range exactly when the time has an end half and both halves parse as clocks, and then the start clock followed by the end clock |
| Schedule.ParseClockRange | src/pages/SchedulePage.jsx:246-253 | every `HH:MM - HH:MM` time parses to the hours and minutes it shows |
| Schedule.ItemBlock | src/pages/SchedulePage.jsx:245-267 | an activity is drawn exactly when its time parses, at the layout of the parsed range |
| Schedule.ClockRangeBlock | src/pages/SchedulePage.jsx:245-267 | every activity timed `HH:MM - HH:MM` is drawn from its start clock to its end clock |
| Schedule.MorningExerciseBlock | src/pages/SchedulePage.jsx:13-22 | the sample 06:30 - 07:30 activity is drawn 32 px down and 64 px tall |
| Schedule.LearningBlock | src/pages/SchedulePage.jsx:44-53 | the sample 19:15 - 20:15 activity is drawn 848 px down and 64 px tall |
| Schedule.HourText | src/pages/SchedulePage.jsx:160-161 | an hour prints as at least two digits, starting with 0 exactly when it is below 10 |
| Schedule.SlotTemplate | src/pages/SchedulePage.jsx:159-169 | a slot click gives an id-less, untitled Personal activity for Today, upcoming, whose time splits into the slot's hour and the next, both on the hour |
| Schedule.HourTextIsTwoDigits | src/pages/SchedulePage.jsx:160-161 | an hour below 100 prints as two digits that parse back to the hour |
| Schedule.ParseHourClock | src/pages/SchedulePage.jsx:160-161 | a slot's `HH:00` text is a clock time and parses to that hour |
| Schedule.SlotTemplateLayout | src/pages/SchedulePage.jsx:159-172 | for every slot from 06:00 to 21:00, the template's block starts at that hour and is one hour tall |
| Schedule.SlotClickThroughForm | src/pages/SchedulePage.jsx:159-172 | clicking a slot and submitting the form unchanged adds an id-less Personal activity drawn as that one-hour block |
| Schedule.PreviousDay | src/pages/SchedulePage.jsx:69-73 | the day before, from which the next-day button leads back |
| Schedule.NextDay | src/pages/SchedulePage.jsx:75-79 | the day after: exactly one day later |
| Schedule.DayNavigation | src/pages/SchedulePage.jsx:69-79 | each button moves exactly one day and undoes the other |
| Schedule.CategoryColor | src/pages/SchedulePage.jsx:85-96 | fitness, work and education in any case are primary, secondary and accent; everything else is gray |
| Schedule.CategoryColorIgnoresCase | src/pages/SchedulePage.jsx:86 | the colour does not depend on case |
| Schedule.CategoryCountAfterAdd | src/pages/SchedulePage.jsx:337-355 | adding an activity raises its own category's count by one and no other |
| Schedule.CountIsCaseSensitive | src/pages/SchedulePage.jsx:337 | a "fitness" activity is coloured as Fitness but not counted as one |
| Shifty.StatusBadge | src/pages/ShiftyPage.jsx:68-81 | the four statuses map to success, primary, gray and info; any other status is secondary and labelled with itself |
| Shifty.UnknownStatusBadge | src/pages/ShiftyPage.jsx:78-79 | an unknown status shows as a secondary badge carrying the raw status |
| Shifty.TodayList | src/pages/ShiftyPage.jsx:253 | the Today section lists every activity dated Today and nothing else |
| Shifty.TomorrowList | src/pages/ShiftyPage.jsx:301 | the Tomorrow section lists every activity dated Tomorrow and nothing else |
| Shifty.TodayCount | src/pages/ShiftyPage.jsx:199 | the Today card is at most the number of activities, and zero exactly when none is dated Today |
| Shifty.UpcomingCount | src/pages/ShiftyPage.jsx:239 | the Upcoming card is at most the number of activities, and zero exactly when none is upcoming or planned |
| Shifty.FitnessCount | src/pages/ShiftyPage.jsx:219 | the Fitness card is at most the number of activities, and zero exactly when no category is literally "Fitness" |
| Shifty.TodayTomorrowPartition | src/pages/ShiftyPage.jsx:199-301 | the Today card counts the Today list; the Today and Tomorrow lists share nothing and together list at most every activity |
| Shifty.UpcomingIsUpcomingPlusPlanned | src/pages/ShiftyPage.jsx:239 | the Upcoming card counts the upcoming activities plus the planned ones |
| Shifty.TodayListAfterAdd | src/pages/ShiftyPage.jsx:121-126 | adding a Today activity appends it to the Today list; adding another one leaves that list alone |
| Shifty.TodayListAfterDelete | src/pages/ShiftyPage.jsx:139-146 | deleting from the page deletes the same id from the Today list and nothing else there |
| Shifty.SampleTodayCount | src/pages/ShiftyPage.jsx:12-58 | four of the sample activities are for today |
| Shifty.SampleUpcomingCount | src/pages/ShiftyPage.jsx:12-58 | three of the sample activities are upcoming or planned |
| Shifty.SampleFitnessCount | src/pages/ShiftyPage.jsx:12-58 | three of the sample activities are in the Fitness category |
| Workouts.CategoryColor | src/pages/WorkoutPlannerPage.jsx:29-32 | the colour of the first category with the id, gray when none has it |
| Workouts.CategoryName | src/pages/WorkoutPlannerPage.jsx:104 | the badge name of the first category with the id, undefined exactly when none has it |
| Workouts.CategoryOfKnownId | src/pages/WorkoutPlannerPage.jsx:29-32 | with distinct category ids, every known id gets its own category's colour and name |
| Workouts.Lookup | src/pages/WorkoutPlannerPage.jsx:210 | the first library exercise with the id, none exactly when no exercise has it |
| Workouts.PushPullColor | src/data/workoutData.js:2-8 | Push-Pull is drawn in primary |
| Workouts.UnknownCategoryColor | src/pages/WorkoutPlannerPage.jsx:29-32 | an id no category has, such as `pilates`, is drawn in gray |
| Workouts.ResolveExercises | src/pages/WorkoutPlannerPage.jsx:209-211 | the shown exercises are exactly the ids found in the library, in order with repeats, each the first library entry with that id |
| Workouts.ResolveKnownIds | src/pages/WorkoutPlannerPage.jsx:209-211 | when every id is in the library, every exercise is shown |
| Workouts.PresetExercisesKnown | src/data/workoutData.js:163-200 | every preset workout shows all of its exercises |
| Workouts.DurationUnit | src/pages/WorkoutPlannerPage.jsx:229 | the unit is seconds exactly when the duration is 60 or more, and minutes otherwise |
| Workouts.DurationText | src/pages/WorkoutPlannerPage.jsx:228-230 | no text without a duration, a bare 0 for zero, and otherwise the amount followed by its unit |
| Workouts.DurationTextReadsBack | src/pages/WorkoutPlannerPage.jsx:228-230 | `parseInt` of the duration text gives the default duration back: the unit after the amount does not disturb it, and no duration reads as `NaN` |
| Workouts.LibraryDurationUnits | src/data/workoutData.js:84-158 | Running, Warrior Pose and Plank read in minutes, Downward Dog in seconds |
| Workouts.AddToMyWorkouts | src/pages/WorkoutPlannerPage.jsx:244-250 | the workout is appended only if no listed workout has its id; otherwise the list is unchanged |
| Workouts.SubmitWorkout | src/pages/WorkoutPlannerPage.jsx:46-50 | a created workout is appended with no duplicate check |
| Workouts.AddedIdIsPresent | src/pages/WorkoutPlannerPage.jsx:46-50 | after either way of adding, the workout's id is in the list |
| Workouts.AddToMyWorkoutsKeepsIdsDistinct | src/pages/WorkoutPlannerPage.jsx:244-245 | if the user's workout ids are distinct, they stay distinct |
| Workouts.AddToMyWorkoutsIdempotent | src/pages/WorkoutPlannerPage.jsx:244-250 | adding the same workout twice adds it once |
| Workouts.SubmitTwiceRepeatsId | src/pages/WorkoutPlannerPage.jsx:46-50 | submitting the same workout twice lists its id twice |
| WorkoutForm.AddExercise | src/components/WorkoutForm.jsx:45-53 | a selected id is a no-op; otherwise the exercise and its id are appended to both lists |
| WorkoutForm.RemoveExercise | src/components/WorkoutForm.jsx:55-61 | the id leaves both lists, every other entry stays, neither list gains an entry or grows, and the other fields are untouched |
| WorkoutForm.RemoveKeepsOrder | src/components/WorkoutForm.jsx:55-61 | removal works piecewise on both lists, so the rest keep their order |
| WorkoutForm.RemoveCommutesWithIds | src/components/WorkoutForm.jsx:55-61 | the id list loses exactly what the selection loses |
| WorkoutForm.AddKeepsConsistent | src/components/WorkoutForm.jsx:45-53 | adding keeps the selected ids distinct and the id list equal to them |
| WorkoutForm.RemoveKeepsConsistent | src/components/WorkoutForm.jsx:55-61 | removing keeps the selected ids distinct and the id list equal to them |
| WorkoutForm.RemoveUndoesAdd | src/components/WorkoutForm.jsx:45-61 | adding an exercise that is not selected and removing it restores the form |
| WorkoutForm.ActionsKeepConsistent | src/components/WorkoutForm.jsx:45-61 | any sequence of adds and removes keeps the two lists in agreement |
| WorkoutForm.EmptyFormStaysConsistent | src/components/WorkoutForm.jsx:8-61 | from the empty form, every sequence of adds and removes keeps the ids distinct and the two lists equal |
| WorkoutForm.InitialForm | src/components/WorkoutForm.jsx:19-38 | editing copies the id list unfiltered, while the selection holds only the ids found in the library, each as the library's first entry with that id |
| WorkoutForm.EditFormConsistent | src/components/WorkoutForm.jsx:28-34 | a workout with distinct ids, all in the library, opens with the two lists in agreement |
| WorkoutForm.EditFormCanDisagree | src/components/WorkoutForm.jsx:28-34 | a workout naming an id missing from the library opens with the two lists out of agreement |
| WorkoutForm.Submit | src/components/WorkoutForm.jsx:63-73 | the edited workout's id, or a fresh id without one; every other field comes from the form |
| WorkoutForm.UnchangedSubmitIsIdentity | src/components/WorkoutForm.jsx:19-73 | opening a workout and submitting unchanged gives back the same workout, unknown ids included |
| WorkoutForm.EmptySubmit | src/components/WorkoutForm.jsx:8-73 | the untouched form submits a 30-minute beginner custom workout with no exercises |

## Left out

- Rendering: JSX, Tailwind classes, icons as components, modals, routing and the theme toggle in `src/App.jsx`. `Navbar.jsx`, `Card.jsx` and `ActivityDetails.jsx` are display only and are not part of this model.
- Success-message timers (`setTimeout`) and React state batching: these are event-loop behaviour.
- JavaScript `Date`. Dates are day numbers, so these are not modelled:
  - the UTC-versus-local-midnight offset in `calculateNextOccurrence`;
  - daylight-saving drift in `Math.floor` over milliseconds;
  - the `toISOString`/`toLocaleDateString` formatting, including `formatDate`.
- Recurrence.NextOccurrence: returns the day, not the formatted date string.
- Clock reads: "today" in `handleAddShift`, and the schedule's `today()` button. Both are parameters or absent.
- `Date.now()` ids: they are a `freshId` parameter. Uniqueness of the clock is not modelled, so lemmas that need a fresh id require it.
- Floating point in the timeline: positions are exact reals.
- Text.ParseInt: reads leading decimal digits only. `parseInt`'s leading whitespace, sign and other radix prefixes are not modelled; clock fields never carry them.
- Text.ToLower: folds ASCII A–Z only, not the full Unicode case mapping of `toLowerCase`.
- Form typing (`handleChange`, `handleInputChange`): the shift form's type and interval go through `parseInt` on submit, where a blank field would give `NaN`; the workout form keeps the duration as typed. The model takes these fields as numbers.
- Activity `icon` and schedule item `color` fields: both are display values. The icon is a function of the category (`Activities.CategoryIcon`). The activity form's record has no `color`, so a schedule block added or edited through the form loses its colour class (src/pages/SchedulePage.jsx:261). `ActivityForm.UnchangedSubmitIsIdentity` therefore holds only on the modelled fields.
- ParseTimeRange: a time with no `" - "` makes the page throw a `TypeError` at `endTime.split` (src/pages/SchedulePage.jsx:252), and a `NaN` field gives an unusable style. The model gives `None` for both and does not model the throw.
- Exercise descriptions and target muscles, and the "sets × reps" line of the workout view: display text.
- ShiftOrganizer.SortByDate: does not state that `Array.prototype.sort` keeps equal dates in their original order. JavaScript engines sort stably; the model's insertion also does, but this is not proved.
- Workouts.CategoryColor: models the lookup over any category list. The sample values are proved only for Push-Pull and an unknown id.
