/** The shift organizer page (`src/pages/ShiftOrganizerPage.jsx`) without its
    markup: the shift and shift-type records, the list updates its submit
    handlers perform, the shift-type lookup and the ordering of the shift table.

    Dates are day numbers, the form's numeric fields are taken as already
    converted by `parseInt`, and the fresh shift id the page draws from
    `Date.now()` is a parameter. */
module ShiftOrganizer {
  import opened Options
  import opened Seqs
  import opened Recurrence

  datatype ShiftType = ShiftType(id: int, name: string, color: string, timeRange: string)

  datatype Shift = Shift(id: int, date: Day, shiftTypeId: int, repeatDays: int, notes: string)

  /** The add/edit shift form. */
  datatype ShiftForm = ShiftForm(date: Day, shiftTypeId: int, repeatDays: int, notes: string)

  /** The add/edit shift-type form. */
  datatype ShiftTypeForm = ShiftTypeForm(name: string, color: string, timeRange: string)

  /** The four shift types every user has; ids 1 to 4. */
  const BuiltInTypes: seq<ShiftType> := [
    ShiftType(1, "Day Shift", "primary", "07:00 - 15:00"),
    ShiftType(2, "Evening Shift", "secondary", "15:00 - 23:00"),
    ShiftType(3, "Night Shift", "accent", "23:00 - 07:00"),
    ShiftType(4, "Free Day", "success", "All Day")
  ]

  /** The types offered by the page: the built-in ones, then the custom ones. */
  function AllTypes(custom: seq<ShiftType>): seq<ShiftType> {
    BuiltInTypes + custom
  }

  function TypeIds(types: seq<ShiftType>): seq<int> {
    Map(types, (t: ShiftType) => t.id)
  }

  function ShiftIds(shifts: seq<Shift>): seq<int> {
    Map(shifts, (s: Shift) => s.id)
  }

  // ---------------------------------------------------------------- lookup

  /** What a shift's type resolves to: a known type, or the page's stand-in
      object, which has only a name and a colour. */
  datatype ShiftTypeRef = Known(t: ShiftType) | Unknown {
    function Name(): string {
      if Known? then t.name else "Unknown"
    }
    function Color(): string {
      if Known? then t.color else "gray"
    }
  }

  /** `getShiftType`: the first type, built-in or custom, with the given id. */
  function GetShiftType(custom: seq<ShiftType>, id: int): (r: ShiftTypeRef)
    ensures r.Unknown? <==> forall i :: 0 <= i < |AllTypes(custom)| ==> AllTypes(custom)[i].id != id
    ensures r.Known? ==> r.t.id == id
    ensures r.Known? ==> exists i :: 0 <= i < |AllTypes(custom)| && AllTypes(custom)[i] == r.t
                                    && forall j :: 0 <= j < i ==> AllTypes(custom)[j].id != id
    ensures r.Unknown? ==> r.Name() == "Unknown" && r.Color() == "gray"
  {
    match Find(AllTypes(custom), (t: ShiftType) => t.id == id)
    case Some(t) => Known(t)
    case None => Unknown
  }

  // ---------------------------------------------------------------- shifts

  /** The form as `handleAddShift` opens it: today's date, the day shift, every 7 days. */
  function NewShiftForm(today: Day): (f: ShiftForm)
    ensures f.date == today && f.shiftTypeId == BuiltInTypes[0].id
    ensures f.repeatDays == 7 && f.notes == ""
  {
    ShiftForm(today, 1, 7, "")
  }

  /** The form as `handleEditShift` opens it for `s`. */
  function EditShiftForm(s: Shift): (f: ShiftForm)
    ensures s.(date := f.date, shiftTypeId := f.shiftTypeId, repeatDays := f.repeatDays, notes := f.notes) == s
  {
    ShiftForm(s.date, s.shiftTypeId, s.repeatDays, s.notes)
  }

  /** `handleAddShiftSubmit`: a new shift built from the form is appended. */
  function AddShift(shifts: seq<Shift>, freshId: int, f: ShiftForm): (r: seq<Shift>)
    ensures |r| == |shifts| + 1 && r[..|shifts|] == shifts
    ensures r[|shifts|].id == freshId
    ensures EditShiftForm(r[|shifts|]) == f
  {
    shifts + [Shift(freshId, f.date, f.shiftTypeId, f.repeatDays, f.notes)]
  }

  /** `handleEditShiftSubmit`: every shift with the current id takes the form's
      date, type, interval and notes and keeps its id; the others are untouched. */
  function EditShift(shifts: seq<Shift>, currentId: int, f: ShiftForm): (r: seq<Shift>)
    ensures |r| == |shifts|
    ensures forall i :: 0 <= i < |r| ==> r[i].id == shifts[i].id
    ensures forall i :: 0 <= i < |r| && shifts[i].id != currentId ==> r[i] == shifts[i]
    ensures forall i :: 0 <= i < |r| && shifts[i].id == currentId ==> EditShiftForm(r[i]) == f
  {
    Map(shifts, (s: Shift) =>
      if s.id == currentId
      then s.(date := f.date, shiftTypeId := f.shiftTypeId, repeatDays := f.repeatDays, notes := f.notes)
      else s)
  }

  /** `handleDeleteShiftConfirm`: exactly the shifts with the current id go. */
  function DeleteShift(shifts: seq<Shift>, currentId: int): (r: seq<Shift>)
    ensures forall i :: 0 <= i < |r| ==> r[i] in shifts && r[i].id != currentId
    ensures forall i :: 0 <= i < |shifts| && shifts[i].id != currentId ==> shifts[i] in r
    ensures currentId !in ShiftIds(shifts) ==> r == shifts
  {
    Filter(shifts, (s: Shift) => s.id != currentId)
  }

  /** Deleting works piecewise, so the survivors keep their order. */
  lemma DeleteShiftKeepsOrder(a: seq<Shift>, b: seq<Shift>, currentId: int)
    ensures DeleteShift(a + b, currentId) == DeleteShift(a, currentId) + DeleteShift(b, currentId)
  {
    FilterConcat(a, b, (s: Shift) => s.id != currentId);
  }

  /** Deleting a shift just added under a fresh id restores the list. */
  lemma DeleteUndoesAdd(shifts: seq<Shift>, freshId: int, f: ShiftForm)
    requires freshId !in ShiftIds(shifts)
    ensures DeleteShift(AddShift(shifts, freshId, f), freshId) == shifts
  {
    var added := AddShift(shifts, freshId, f);
    assert added == shifts + [added[|shifts|]];
    DeleteShiftKeepsOrder(shifts, [added[|shifts|]], freshId);
  }

  /** Submitting the edit form unchanged leaves the list as it was, provided
      shift ids are distinct. */
  lemma EditWithOwnFormIsIdentity(shifts: seq<Shift>, k: nat)
    requires k < |shifts| && Distinct(ShiftIds(shifts))
    ensures EditShift(shifts, shifts[k].id, EditShiftForm(shifts[k])) == shifts
  {
    var r := EditShift(shifts, shifts[k].id, EditShiftForm(shifts[k]));
    forall i | 0 <= i < |shifts|
      ensures r[i] == shifts[i]
    {
      if shifts[i].id == shifts[k].id {
        assert ShiftIds(shifts)[i] == ShiftIds(shifts)[k];
        assert i == k;
      }
    }
  }

  // ---------------------------------------------------------------- shift types

  /** `handleShiftTypeSubmit` with no type selected: a new custom type is
      appended, numbered one past the built-in and custom types together. */
  function AddShiftType(custom: seq<ShiftType>, f: ShiftTypeForm): (r: seq<ShiftType>)
    ensures |r| == |custom| + 1 && r[..|custom|] == custom
    ensures r[|custom|].id == 5 + |custom|
    ensures r[|custom|].name == f.name && r[|custom|].color == f.color
    ensures r[|custom|].timeRange == f.timeRange
  {
    custom + [ShiftType(|BuiltInTypes| + |custom| + 1, f.name, f.color, f.timeRange)]
  }

  /** `handleShiftTypeSubmit` with a type selected: every custom type with that
      id takes the form's name, colour and time range and keeps its id. */
  function EditShiftType(custom: seq<ShiftType>, currentId: int, f: ShiftTypeForm): (r: seq<ShiftType>)
    ensures |r| == |custom|
    ensures forall i :: 0 <= i < |r| ==> r[i].id == custom[i].id
    ensures forall i :: 0 <= i < |r| && custom[i].id != currentId ==> r[i] == custom[i]
    ensures forall i :: 0 <= i < |r| && custom[i].id == currentId ==>
              r[i].name == f.name && r[i].color == f.color && r[i].timeRange == f.timeRange
  {
    Map(custom, (t: ShiftType) =>
      if t.id == currentId then t.(name := f.name, color := f.color, timeRange := f.timeRange) else t)
  }

  /** Custom type `i` carries id `5 + i`: right after the built-in ids 1 to 4. */
  predicate WellNumbered(custom: seq<ShiftType>) {
    forall i :: 0 <= i < |custom| ==> custom[i].id == |BuiltInTypes| + 1 + i
  }

  /** A well-numbered custom list gives every type, built-in or custom, its own id. */
  lemma WellNumberedIdsDistinct(custom: seq<ShiftType>)
    requires WellNumbered(custom)
    ensures Distinct(TypeIds(AllTypes(custom)))
  {
    var ids := TypeIds(AllTypes(custom));
    forall i, j | 0 <= i < j < |ids|
      ensures ids[i] != ids[j]
    {
      if j >= 4 {
        assert AllTypes(custom)[j] == custom[j - 4];
        if i >= 4 {
          assert AllTypes(custom)[i] == custom[i - 4];
        }
      }
    }
  }

  /** The two things the page does to custom types. Nothing deletes one. */
  datatype TypeAction = AddType(form: ShiftTypeForm) | EditType(id: int, form: ShiftTypeForm)

  function ApplyTypeAction(custom: seq<ShiftType>, a: TypeAction): seq<ShiftType> {
    match a
    case AddType(f) => AddShiftType(custom, f)
    case EditType(id, f) => EditShiftType(custom, id, f)
  }

  function ApplyTypeActions(custom: seq<ShiftType>, actions: seq<TypeAction>): seq<ShiftType>
    decreases |actions|
  {
    if |actions| == 0 then custom
    else ApplyTypeActions(ApplyTypeAction(custom, actions[0]), actions[1..])
  }

  /** Adding and editing keep the custom types well numbered. */
  lemma ApplyTypeActionKeepsNumbering(custom: seq<ShiftType>, a: TypeAction)
    requires WellNumbered(custom)
    ensures WellNumbered(ApplyTypeAction(custom, a))
  {
  }

  /** From any well-numbered list of custom types, any sequence of adds and
      edits keeps it well numbered and leaves every shift type with an id of
      its own. */
  lemma {:induction false} TypeIdsStayDistinct(custom: seq<ShiftType>, actions: seq<TypeAction>)
    requires WellNumbered(custom)
    ensures WellNumbered(ApplyTypeActions(custom, actions))
    ensures Distinct(TypeIds(AllTypes(ApplyTypeActions(custom, actions))))
    decreases |actions|
  {
    if |actions| == 0 {
      WellNumberedIdsDistinct(custom);
    } else {
      ApplyTypeActionKeepsNumbering(custom, actions[0]);
      TypeIdsStayDistinct(ApplyTypeAction(custom, actions[0]), actions[1..]);
    }
  }

  /** With well-numbered custom types, ids 1 to 4 name the built-in types, id
      `5 + i` names custom type `i`, and every other id is unknown. */
  lemma GetShiftTypeResolves(custom: seq<ShiftType>, id: int)
    requires WellNumbered(custom)
    ensures 1 <= id <= 4 ==> GetShiftType(custom, id) == Known(BuiltInTypes[id - 1])
    ensures 5 <= id < 5 + |custom| ==> GetShiftType(custom, id) == Known(custom[id - 5])
    ensures id < 1 || id >= 5 + |custom| ==> GetShiftType(custom, id) == Unknown
  {
    var all := AllTypes(custom);
    forall i | 0 <= i < |all|
      ensures all[i].id == i + 1
    {
      if i >= 4 {
        assert all[i] == custom[i - 4];
      }
    }
    var r := GetShiftType(custom, id);
    if 1 <= id < 5 + |custom| {
      assert all[id - 1].id == id;
      var k :| 0 <= k < |all| && all[k] == r.t && forall j :: 0 <= j < k ==> all[j].id != id;
      assert k == id - 1;
      if id >= 5 {
        assert all[id - 1] == custom[id - 5];
      }
    }
  }

  // ---------------------------------------------------------------- ordering

  predicate SortedByDate(s: seq<Shift>) {
    forall i, j :: 0 <= i < j < |s| ==> s[i].date <= s[j].date
  }

  /** Places `x` in front of the first shift not earlier than it. */
  function InsertByDate(x: Shift, s: seq<Shift>): (r: seq<Shift>)
    requires SortedByDate(s)
    ensures |r| == |s| + 1 && SortedByDate(r)
    ensures multiset(r) == multiset(s) + multiset{x}
    ensures r[0] == x || (|s| > 0 && r[0] == s[0])
  {
    if |s| == 0 || x.date <= s[0].date then [x] + s
    else
      var rest := InsertByDate(x, s[1..]);
      assert s == [s[0]] + s[1..];
      assert s[0].date <= rest[0].date;
      [s[0]] + rest
  }

  /** `sortedShifts`: the shifts ordered by anchor date (not by next occurrence),
      as a permutation of the page's list. */
  function SortByDate(shifts: seq<Shift>): (r: seq<Shift>)
    ensures SortedByDate(r)
    ensures multiset(r) == multiset(shifts)
  {
    if |shifts| == 0 then []
    else
      assert shifts == [shifts[0]] + shifts[1..];
      InsertByDate(shifts[0], SortByDate(shifts[1..]))
  }

  /** Sorting a list already in date order changes nothing; in particular
      sorting is idempotent. */
  lemma {:induction false} SortSortedIsIdentity(shifts: seq<Shift>)
    requires SortedByDate(shifts)
    ensures SortByDate(shifts) == shifts
  {
    if |shifts| > 0 {
      SortSortedIsIdentity(shifts[1..]);
    }
  }

  lemma SortIdempotent(shifts: seq<Shift>)
    ensures SortByDate(SortByDate(shifts)) == SortByDate(shifts)
  {
    SortSortedIsIdentity(SortByDate(shifts));
  }

  /** The page's sample shifts (2025-05-04 to 2025-05-07), every 10 days. */
  const SampleShifts: seq<Shift> := [
    Shift(1, 20212, 4, 10, "Regular free day"),
    Shift(2, 20213, 1, 10, "Regular day shift"),
    Shift(3, 20214, 2, 10, "Regular evening shift"),
    Shift(4, 20215, 3, 10, "Regular night shift")
  ]

  /** The sample shifts are already in date order. */
  lemma SampleShiftsSorted()
    ensures SortByDate(SampleShifts) == SampleShifts
  {
    SortSortedIsIdentity(SampleShifts);
  }

  /** A built-in id resolves to its type; an id nobody has resolves to the stand-in. */
  lemma LookupExamples()
    ensures GetShiftType([], 4).Name() == "Free Day"
    ensures GetShiftType([], 9).Name() == "Unknown"
  {
    GetShiftTypeResolves([], 4);
    GetShiftTypeResolves([], 9);
  }
}
