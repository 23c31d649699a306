/** The workout form (`src/components/WorkoutForm.jsx`): its two pieces of
    state, the form fields (whose `exercises` field lists exercise ids) and the
    list of selected exercises, and how adding and removing an exercise, opening
    a workout for editing and submitting act on them.

    Typing into a field is left out; the fresh id the form draws from
    `Date.now()` is a parameter. */
module WorkoutForm {
  import opened Options
  import opened Seqs
  import opened Workouts

  datatype FormData = FormData(
    name: string,
    category: string,
    description: string,
    duration: int,
    difficulty: string,
    exercises: seq<int>)

  datatype FormState = FormState(data: FormData, selected: seq<Exercise>)

  /** The form as it starts: a 30-minute beginner workout in the custom
      category, with nothing selected. */
  const EmptyForm: FormState := FormState(FormData("", "custom", "", 30, "beginner", []), [])

  /** The two lists agree: the selected exercises have distinct ids, and the
      form's id list is exactly those ids, in the same order. */
  predicate Consistent(st: FormState) {
    Distinct(ExerciseIds(st.selected)) && st.data.exercises == ExerciseIds(st.selected)
  }

  // ---------------------------------------------------------------- add and remove

  function IsSelected(st: FormState, id: int): bool {
    Any(st.selected, HasId(id))
  }

  /** `handleAddExercise`: nothing happens when an exercise with the same id is
      already selected; otherwise the exercise joins the selection and its id
      the form's list, both at the end. */
  function AddExercise(st: FormState, e: Exercise): (r: FormState)
    ensures e.id in ExerciseIds(st.selected) ==> r == st
    ensures e.id !in ExerciseIds(st.selected) ==>
              r.selected == st.selected + [e]
              && r.data == st.data.(exercises := st.data.exercises + [e.id])
  {
    if IsSelected(st, e.id) then st
    else FormState(st.data.(exercises := st.data.exercises + [e.id]), st.selected + [e])
  }

  function OtherExercise(id: int): Exercise -> bool {
    (e: Exercise) => e.id != id
  }

  function OtherId(id: int): int -> bool {
    (x: int) => x != id
  }

  /** `handleRemoveExercise`: the exercises with the id leave the selection and
      the id leaves the form's list; everything else stays, in order, and the
      other fields are untouched. */
  function RemoveExercise(st: FormState, id: int): (r: FormState)
    ensures id !in ExerciseIds(r.selected) && id !in r.data.exercises
    ensures forall i :: 0 <= i < |r.selected| ==> r.selected[i] in st.selected
    ensures forall i :: 0 <= i < |st.selected| && st.selected[i].id != id ==> st.selected[i] in r.selected
    ensures forall i :: 0 <= i < |st.data.exercises| && st.data.exercises[i] != id ==>
              st.data.exercises[i] in r.data.exercises
    ensures forall i :: 0 <= i < |r.data.exercises| ==> r.data.exercises[i] in st.data.exercises
    ensures |r.selected| <= |st.selected| && |r.data.exercises| <= |st.data.exercises|
    ensures r.data == st.data.(exercises := r.data.exercises)
  {
    var selected := Filter(st.selected, OtherExercise(id));
    var exercises := Filter(st.data.exercises, OtherId(id));
    assert forall i :: 0 <= i < |selected| ==> ExerciseIds(selected)[i] != id;
    assert forall i :: 0 <= i < |exercises| ==> exercises[i] != id;
    FormState(st.data.(exercises := exercises), selected)
  }

  /** Removing works piecewise on both lists, so whatever stays keeps its order. */
  lemma RemoveKeepsOrder(data: FormData, a: seq<Exercise>, b: seq<Exercise>, x: seq<int>, y: seq<int>, id: int)
    ensures var whole := RemoveExercise(FormState(data.(exercises := x + y), a + b), id);
            var front := RemoveExercise(FormState(data.(exercises := x), a), id);
            var back := RemoveExercise(FormState(data.(exercises := y), b), id);
            whole.selected == front.selected + back.selected
            && whole.data.exercises == front.data.exercises + back.data.exercises
  {
    FilterConcat(a, b, OtherExercise(id));
    FilterConcat(x, y, OtherId(id));
  }

  /** Removing commutes with taking ids: the form's list loses exactly what the
      selection loses. */
  lemma {:induction false} RemoveCommutesWithIds(s: seq<Exercise>, id: int)
    ensures ExerciseIds(Filter(s, OtherExercise(id))) == Filter(ExerciseIds(s), OtherId(id))
  {
    if |s| > 0 {
      RemoveCommutesWithIds(s[1..], id);
      assert ExerciseIds(s)[1..] == ExerciseIds(s[1..]);
      if s[0].id != id {
        assert ([s[0]] + Filter(s[1..], OtherExercise(id)))[1..] == Filter(s[1..], OtherExercise(id));
      }
    }
  }

  /** Adding keeps the two lists in agreement. */
  lemma AddKeepsConsistent(st: FormState, e: Exercise)
    requires Consistent(st)
    ensures Consistent(AddExercise(st, e))
  {
    if e.id !in ExerciseIds(st.selected) {
      var ids := ExerciseIds(st.selected + [e]);
      assert ids == ExerciseIds(st.selected) + [e.id];
    }
  }

  /** Removing keeps the two lists in agreement. */
  lemma RemoveKeepsConsistent(st: FormState, id: int)
    requires Consistent(st)
    ensures Consistent(RemoveExercise(st, id))
  {
    RemoveCommutesWithIds(st.selected, id);
    FilterDistinct(ExerciseIds(st.selected), OtherId(id));
  }

  /** Adding an exercise that is not selected and removing it again gives back
      the form as it was. */
  lemma RemoveUndoesAdd(st: FormState, e: Exercise)
    requires Consistent(st)
    requires e.id !in ExerciseIds(st.selected)
    ensures RemoveExercise(AddExercise(st, e), e.id) == st
  {
    FilterSnoc(st.selected, e, OtherExercise(e.id));
    FilterSnoc(st.data.exercises, e.id, OtherId(e.id));
    assert forall i :: 0 <= i < |st.selected| ==> ExerciseIds(st.selected)[i] == st.selected[i].id;
  }

  // ---------------------------------------------------------------- any sequence of edits

  datatype Action = AddAction(exercise: Exercise) | RemoveAction(id: int)

  function Apply(st: FormState, a: Action): FormState {
    match a
    case AddAction(e) => AddExercise(st, e)
    case RemoveAction(id) => RemoveExercise(st, id)
  }

  /** The form after the actions, first to last. */
  function ApplyAll(st: FormState, actions: seq<Action>): FormState
    decreases |actions|
  {
    if |actions| == 0 then st else ApplyAll(Apply(st, actions[0]), actions[1..])
  }

  /** Any sequence of adds and removes keeps the two lists in agreement. */
  lemma {:induction false} ActionsKeepConsistent(st: FormState, actions: seq<Action>)
    requires Consistent(st)
    ensures Consistent(ApplyAll(st, actions))
    decreases |actions|
  {
    if |actions| > 0 {
      match actions[0] {
        case AddAction(e) => AddKeepsConsistent(st, e);
        case RemoveAction(id) => RemoveKeepsConsistent(st, id);
      }
      ActionsKeepConsistent(Apply(st, actions[0]), actions[1..]);
    }
  }

  /** From the empty form, whatever the user adds and removes, the selected ids
      are distinct and the form's list is exactly those ids. */
  lemma EmptyFormStaysConsistent(actions: seq<Action>)
    ensures Consistent(ApplyAll(EmptyForm, actions))
  {
    ActionsKeepConsistent(EmptyForm, actions);
  }

  // ---------------------------------------------------------------- edit mode and submit

  /** The form once it has been given `workout` (its effect hook): the fields
      copied, the id list unfiltered, and the selection the ids found in the
      library. With no workout, the empty form. */
  function InitialForm(workout: Option<Workout>, library: seq<Exercise>): (st: FormState)
    ensures workout.None? ==> st == EmptyForm
    ensures workout.Some? ==> st.data.exercises == workout.value.exercises
    ensures workout.Some? ==> ExerciseIds(st.selected) == Filter(workout.value.exercises, KnownIn(library))
    ensures workout.Some? ==>
      forall i :: 0 <= i < |st.selected| ==> Lookup(library, st.selected[i].id) == Some(st.selected[i])
  {
    match workout
    case None => EmptyForm
    case Some(w) =>
      FormState(FormData(w.name, w.category, w.description, w.duration, w.difficulty, w.exercises),
                ResolveExercises(w.exercises, library))
  }

  /** Opening a workout whose exercise ids are distinct and all in the library
      gives a form whose two lists agree. */
  lemma EditFormConsistent(w: Workout, library: seq<Exercise>)
    requires Distinct(w.exercises)
    requires forall i :: 0 <= i < |w.exercises| ==> Lookup(library, w.exercises[i]).Some?
    ensures Consistent(InitialForm(Some(w), library))
  {
    ResolveKnownIds(w.exercises, library);
  }

  /** A workout listing an id the library does not have opens with the two lists
      out of agreement: the id is in the form's list but nothing is selected for it. */
  lemma EditFormCanDisagree()
    ensures var st := InitialForm(Some(Workout(7, "Mine", "custom", "", 30, "beginner", [1, 99])), ExerciseLibrary);
            st.data.exercises == [1, 99] && ExerciseIds(st.selected) == [1] && !Consistent(st)
  {
    var library := ExerciseLibrary;
    assert HasId(1)(library[0]);
    assert Lookup(library, 99).None? by {
      forall i | 0 <= i < |library| ensures !HasId(99)(library[i]) {
        assert library[i].id <= 13;
      }
    }
    assert Filter([1, 99], KnownIn(library)) == [1];
  }

  /** `handleSubmit`: the edited workout's id when there is one, a fresh id
      otherwise, and every other field from the form. */
  function Submit(workout: Option<Workout>, data: FormData, freshId: int): (r: Workout)
    ensures workout.Some? ==> r.id == workout.value.id
    ensures workout.None? ==> r.id == freshId
    ensures r.name == data.name && r.category == data.category && r.description == data.description
    ensures r.duration == data.duration && r.difficulty == data.difficulty && r.exercises == data.exercises
  {
    var id := match workout case Some(w) => w.id case None => freshId;
    Workout(id, data.name, data.category, data.description, data.duration, data.difficulty, data.exercises)
  }

  /** Opening a workout and submitting without changes hands back the same
      workout, unknown exercise ids included. */
  lemma UnchangedSubmitIsIdentity(w: Workout, library: seq<Exercise>, freshId: int)
    ensures Submit(Some(w), InitialForm(Some(w), library).data, freshId) == w
  {
  }

  /** Submitting the untouched new-workout form. */
  lemma EmptySubmit(freshId: int)
    ensures Submit(None, EmptyForm.data, freshId) == Workout(freshId, "", "custom", "", 30, "beginner", [])
  {
  }
}
