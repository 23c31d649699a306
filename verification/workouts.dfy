/** The workout planner page (`src/pages/WorkoutPlannerPage.jsx`) without its
    markup, over the static data of `src/data/workoutData.js`: the category
    colour and name, how a workout's exercise ids are looked up in the exercise
    library, the duration text, and the two ways a workout joins the user's list. */
module Workouts {
  import opened Options
  import opened Seqs
  import opened Text

  // ---------------------------------------------------------------- data

  datatype WorkoutCategory = WorkoutCategory(id: string, name: string, color: string)

  /** An exercise of the library. Absent default fields are `None`. The
      description and target muscles are display text and are left out. */
  datatype Exercise = Exercise(
    id: int,
    name: string,
    kind: string,
    category: string,
    defaultSets: Option<nat>,
    defaultReps: Option<nat>,
    defaultDuration: Option<nat>)

  /** A workout: exercises are referred to by id. */
  datatype Workout = Workout(
    id: int,
    name: string,
    category: string,
    description: string,
    duration: int,
    difficulty: string,
    exercises: seq<int>)

  const WorkoutCategories: seq<WorkoutCategory> := [
    WorkoutCategory("push-pull", "Push-Pull", "primary"),
    WorkoutCategory("cardio", "Cardio", "secondary"),
    WorkoutCategory("yoga", "Yoga", "accent"),
    WorkoutCategory("home", "Home Training", "success"),
    WorkoutCategory("custom", "Custom", "gray")
  ]

  const ExerciseLibrary: seq<Exercise> := [
    Exercise(1, "Bench Press", "strength", "push-pull", Some(3), Some(10), None),
    Exercise(2, "Push-ups", "strength", "push-pull", Some(3), Some(15), None),
    Exercise(3, "Shoulder Press", "strength", "push-pull", Some(3), Some(10), None),
    Exercise(4, "Pull-ups", "strength", "push-pull", Some(3), Some(8), None),
    Exercise(5, "Bent-over Rows", "strength", "push-pull", Some(3), Some(12), None),
    Exercise(6, "Running", "cardio", "cardio", Some(1), Some(1), Some(20)),
    Exercise(7, "Jumping Jacks", "cardio", "cardio", Some(3), Some(30), None),
    Exercise(8, "Burpees", "cardio", "cardio", Some(3), Some(15), None),
    Exercise(9, "Downward Dog", "flexibility", "yoga", Some(1), None, Some(60)),
    Exercise(10, "Warrior Pose", "balance", "yoga", Some(1), None, Some(45)),
    Exercise(11, "Bodyweight Squats", "strength", "home", Some(3), Some(20), None),
    Exercise(12, "Plank", "strength", "home", Some(3), None, Some(30)),
    Exercise(13, "Mountain Climbers", "cardio", "home", Some(3), None, Some(30))
  ]

  const PresetWorkouts: seq<Workout> := [
    Workout(1, "Push-Pull Workout", "push-pull",
            "A balanced workout targeting both pushing and pulling muscles.", 45, "intermediate", [1, 2, 4, 5]),
    Workout(2, "Cardio Blast", "cardio",
            "High-intensity cardio workout to get your heart pumping.", 30, "intermediate", [6, 7, 8]),
    Workout(3, "Yoga Flow", "yoga",
            "A relaxing yoga sequence to improve flexibility and mindfulness.", 40, "beginner", [9, 10]),
    Workout(4, "Home Body", "home",
            "A full-body workout you can do at home with no equipment.", 35, "beginner", [2, 11, 12, 13])
  ]

  function ExerciseIds(s: seq<Exercise>): seq<int> {
    Map(s, (e: Exercise) => e.id)
  }

  function WorkoutIds(s: seq<Workout>): seq<int> {
    Map(s, (w: Workout) => w.id)
  }

  // ---------------------------------------------------------------- categories

  function CategoryHasId(categoryId: string): WorkoutCategory -> bool {
    (c: WorkoutCategory) => c.id == categoryId
  }

  /** `getCategoryColor`: the colour of the first category with the id, or
      gray when there is none. */
  function CategoryColor(categories: seq<WorkoutCategory>, categoryId: string): (r: string)
    ensures (forall i :: 0 <= i < |categories| ==> categories[i].id != categoryId) ==> r == "gray"
    ensures forall i :: (0 <= i < |categories| && categories[i].id == categoryId
                         && forall j :: 0 <= j < i ==> categories[j].id != categoryId)
                        ==> r == categories[i].color
  {
    match Find(categories, CategoryHasId(categoryId))
    case Some(c) => c.color
    case None => "gray"
  }

  /** `workoutCategories.find(...)?.name`: the badge text, `None` for `undefined`. */
  function CategoryName(categories: seq<WorkoutCategory>, categoryId: string): (r: Option<string>)
    ensures r.None? <==> forall i :: 0 <= i < |categories| ==> categories[i].id != categoryId
    ensures forall i :: (0 <= i < |categories| && categories[i].id == categoryId
                         && forall j :: 0 <= j < i ==> categories[j].id != categoryId)
                        ==> r == Some(categories[i].name)
  {
    match Find(categories, CategoryHasId(categoryId))
    case Some(c) => Some(c.name)
    case None => None
  }

  /** When the category ids are distinct, a known id has exactly its own
      category's colour and name. */
  lemma CategoryOfKnownId(categories: seq<WorkoutCategory>, k: nat)
    requires k < |categories|
    requires forall i, j :: 0 <= i < j < |categories| ==> categories[i].id != categories[j].id
    ensures CategoryColor(categories, categories[k].id) == categories[k].color
    ensures CategoryName(categories, categories[k].id) == Some(categories[k].name)
  {
    var hit := CategoryHasId(categories[k].id);
    assert hit(categories[k]);
    var found := FindIndex(categories, hit);
    assert found == Some(k);
  }

  lemma PushPullColor()
    ensures CategoryColor(WorkoutCategories, "push-pull") == "primary"
  {
    assert CategoryHasId("push-pull")(WorkoutCategories[0]);
  }

  lemma UnknownCategoryColor()
    ensures CategoryColor(WorkoutCategories, "pilates") == "gray"
  {
  }

  // ---------------------------------------------------------------- exercise lookup

  function HasId(id: int): Exercise -> bool {
    (e: Exercise) => e.id == id
  }

  /** `exerciseLibrary.find(ex => ex.id === id)`: the first library entry with
      the id, `None` exactly when no entry has it. */
  function Lookup(library: seq<Exercise>, id: int): (r: Option<Exercise>)
    ensures r.None? <==> forall i :: 0 <= i < |library| ==> library[i].id != id
    ensures r.Some? ==> exists i :: 0 <= i < |library| && library[i] == r.value && r.value.id == id
                                    && forall j :: 0 <= j < i ==> library[j].id != id
  {
    Find(library, HasId(id))
  }

  /** Whether an id names an exercise of the library. */
  function KnownIn(library: seq<Exercise>): int -> bool {
    (id: int) => Lookup(library, id).Some?
  }

  /** The exercise list of the workout view: each id looked up in the library,
      the ones not found skipped. What remains is exactly the known ids, in
      their order and with their repeats, each resolved to the first library
      exercise carrying it. */
  function ResolveExercises(ids: seq<int>, library: seq<Exercise>): (r: seq<Exercise>)
    ensures ExerciseIds(r) == Filter(ids, KnownIn(library))
    ensures forall i :: 0 <= i < |r| ==> Lookup(library, r[i].id) == Some(r[i])
  {
    if |ids| == 0 then []
    else
      var rest := ResolveExercises(ids[1..], library);
      match Lookup(library, ids[0])
      case Some(e) =>
        assert ([e] + rest)[1..] == rest;
        [e] + rest
      case None => rest
  }

  /** A workout whose ids are all in the library shows every one of its exercises. */
  lemma ResolveKnownIds(ids: seq<int>, library: seq<Exercise>)
    requires forall i :: 0 <= i < |ids| ==> Lookup(library, ids[i]).Some?
    ensures ExerciseIds(ResolveExercises(ids, library)) == ids
  {
    assert forall i :: 0 <= i < |ids| ==> KnownIn(library)(ids[i]);
  }

  /** Every exercise id of every preset workout is in the library. */
  lemma PresetExercisesKnown(k: nat)
    requires k < |PresetWorkouts|
    ensures ExerciseIds(ResolveExercises(PresetWorkouts[k].exercises, ExerciseLibrary)) == PresetWorkouts[k].exercises
  {
    var ids := PresetWorkouts[k].exercises;
    forall i | 0 <= i < |ids| ensures Lookup(ExerciseLibrary, ids[i]).Some? {
      assert 1 <= ids[i] <= 13;
      assert HasId(ids[i])(ExerciseLibrary[ids[i] - 1]);
    }
    ResolveKnownIds(ids, ExerciseLibrary);
  }

  // ---------------------------------------------------------------- duration

  /** The unit of the duration text: a duration of 60 or more reads as seconds,
      a shorter one as minutes. */
  function DurationUnit(duration: nat): (u: string)
    ensures u == "seconds" <==> duration >= 60
    ensures u == "seconds" || u == "minutes"
  {
    if duration >= 60 then "seconds" else "minutes"
  }

  /** The duration text of the workout view, `{d && <span>{d} {unit}</span>}`:
      nothing without a duration, a bare `0` for a zero duration (React prints
      the falsy number), and the amount with its unit otherwise. */
  function DurationText(e: Exercise): (t: string)
    ensures e.defaultDuration.None? ==> t == ""
    ensures e.defaultDuration == Some(0) ==> t == "0"
    ensures e.defaultDuration.Some? && e.defaultDuration.value > 0 ==>
              t == Decimal(e.defaultDuration.value) + " " + DurationUnit(e.defaultDuration.value)
  {
    match e.defaultDuration
    case None => ""
    case Some(d) => if d == 0 then "0" else Decimal(d) + " " + DurationUnit(d)
  }

  /** The library's timed exercises and their units. */
  lemma LibraryDurationUnits()
    ensures DurationUnit(ExerciseLibrary[5].defaultDuration.value) == "minutes"
    ensures DurationUnit(ExerciseLibrary[8].defaultDuration.value) == "seconds"
    ensures DurationUnit(ExerciseLibrary[9].defaultDuration.value) == "minutes"
    ensures DurationUnit(ExerciseLibrary[11].defaultDuration.value) == "minutes"
    ensures DurationText(ExerciseLibrary[0]) == ""
  {
  }

  /** Reading the number back off the duration text gives the exercise's
      default duration: the unit after the amount does not disturb `parseInt`,
      and no duration reads as `NaN`. */
  lemma {:induction false} DurationTextReadsBack(e: Exercise)
    ensures ParseInt(DurationText(e)) == e.defaultDuration
  {
    match e.defaultDuration
    case None =>
    case Some(d) =>
      if d == 0 {
        assert DigitsValue("0") == 0 by {
          assert "0"[..0] == "";
        }
        LeadingDigitsOfDigits("0");
      } else {
        var ds := Decimal(d);
        var rest := " " + DurationUnit(d);
        assert DurationText(e) == ds + rest;
        LeadingDigitsStop(ds, rest);
        DecimalValue(d);
      }
  }

  // ---------------------------------------------------------------- the user's workouts

  /** "Add to My Workouts": the workout is appended unless a workout with its
      id is already in the list, in which case the list stays as it is. */
  function AddToMyWorkouts(user: seq<Workout>, selected: Workout): (r: seq<Workout>)
    ensures selected.id in WorkoutIds(user) ==> r == user
    ensures selected.id !in WorkoutIds(user) ==> r == user + [selected]
  {
    if Any(user, (w: Workout) => w.id == selected.id) then user else user + [selected]
  }

  /** `handleWorkoutSubmit`: the new workout is appended, with no check. */
  function SubmitWorkout(user: seq<Workout>, newWorkout: Workout): (r: seq<Workout>)
    ensures |r| == |user| + 1 && r[..|user|] == user && r[|user|] == newWorkout
  {
    user + [newWorkout]
  }

  /** After either way of adding, the workout's id is in the list. */
  lemma AddedIdIsPresent(user: seq<Workout>, w: Workout)
    ensures w.id in WorkoutIds(AddToMyWorkouts(user, w))
    ensures w.id in WorkoutIds(SubmitWorkout(user, w))
  {
    assert WorkoutIds(user + [w])[|user|] == w.id;
  }

  /** "Add to My Workouts" keeps the user's workout ids distinct. */
  lemma AddToMyWorkoutsKeepsIdsDistinct(user: seq<Workout>, selected: Workout)
    requires Distinct(WorkoutIds(user))
    ensures Distinct(WorkoutIds(AddToMyWorkouts(user, selected)))
  {
    if selected.id !in WorkoutIds(user) {
      var ids := WorkoutIds(user + [selected]);
      assert ids == WorkoutIds(user) + [selected.id];
    }
  }

  /** Pressing "Add to My Workouts" twice adds the workout once. */
  lemma AddToMyWorkoutsIdempotent(user: seq<Workout>, selected: Workout)
    ensures AddToMyWorkouts(AddToMyWorkouts(user, selected), selected) == AddToMyWorkouts(user, selected)
  {
    AddedIdIsPresent(user, selected);
  }

  /** Submitting the same workout twice, unlike adding it twice, lists its id twice. */
  lemma SubmitTwiceRepeatsId(user: seq<Workout>, w: Workout)
    ensures !Distinct(WorkoutIds(SubmitWorkout(SubmitWorkout(user, w), w)))
  {
    var ids := WorkoutIds(SubmitWorkout(SubmitWorkout(user, w), w));
    assert ids[|user|] == ids[|user| + 1];
  }
}
