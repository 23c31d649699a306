/** The activity form (`src/components/ActivityForm.jsx`): how it fills its
    fields from the activity it is given, and the record it hands back on submit.

    The form keeps the start and end of the time range as separate fields; the
    record stores them as one `"start - end"` string. The fresh id the form
    draws from `Date.now()` is a parameter. */
module ActivityForm {
  import opened Options
  import opened Text
  import opened Activities

  /** The form's fields. `endTime` is `None` when the activity's time string
      had no second half (the destructured `endTime` is then `undefined`). */
  datatype FormState = FormState(
    title: string,
    category: string,
    date: string,
    startTime: string,
    endTime: Option<string>,
    status: string)

  /** The form before any activity is loaded. */
  const DefaultForm: FormState := FormState("", "Fitness", "Today", "09:00", Some("10:00"), "upcoming")

  /** The form's fields once it has been given `activity` (its effect hook),
      or the defaults when it is given none. */
  function InitialForm(activity: Option<Activity>): (f: FormState)
    ensures activity.None? ==> f == DefaultForm
    ensures activity.Some? ==>
              && f.title == activity.value.title
              && f.category == activity.value.category
              && f.date == activity.value.date
              && f.status == activity.value.status
              && (f.startTime, f.endTime) == SplitTime(activity.value.time)
  {
    match activity
    case None => DefaultForm
    case Some(a) =>
      var (startTime, endTime) := SplitTime(a.time);
      FormState(a.title, a.category, a.date, startTime, endTime, a.status)
  }

  /** `handleSubmit`: the record built from the form. The id is the given
      activity's id whenever an activity was given, even when that id is
      missing, and a fresh id otherwise. */
  function Submit(activity: Option<Activity>, form: FormState, freshId: int): (r: Activity)
    ensures activity.Some? ==> r.id == activity.value.id
    ensures activity.None? ==> r.id == Some(freshId)
    ensures r.title == form.title && r.category == form.category
    ensures r.date == form.date && r.status == form.status
    ensures r.time == form.startTime + " - " + form.endTime.GetOr("undefined")
  {
    var id := match activity case Some(a) => a.id case None => Some(freshId);
    Activity(id, form.title, ComposeTime(form.startTime, form.endTime), form.category, form.date, form.status)
  }

  /** The submitted time string carries the form's start and end clock times,
      and reopening the record recovers them. */
  lemma SubmitTimeRoundTrip(activity: Option<Activity>, form: FormState, freshId: int)
    requires form.endTime.Some? && IsClockText(form.startTime) && IsClockText(form.endTime.value)
    ensures InitialForm(Some(Submit(activity, form, freshId))) == form
  {
    SplitComposeRoundTrip(form.startTime, form.endTime.value);
  }

  /** Opening an activity whose time is a well-formed range and submitting
      without changes hands back the very same activity. */
  lemma UnchangedSubmitIsIdentity(a: Activity, startTime: string, endTime: string, freshId: int)
    requires IsClockText(startTime) && IsClockText(endTime)
    requires a.time == ComposeTime(startTime, Some(endTime))
    ensures Submit(Some(a), InitialForm(Some(a)), freshId) == a
  {
    SplitComposeRoundTrip(startTime, endTime);
  }

  /** Submitting the untouched new-activity form. */
  lemma DefaultSubmit(freshId: int)
    ensures Submit(None, DefaultForm, freshId)
            == Activity(Some(freshId), "", "09:00 - 10:00", "Fitness", "Today", "upcoming")
  {
  }
}
