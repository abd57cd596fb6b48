/** What the two job forms share: client/src/pages/employer/PostingApplication.jsx
    creates a job posting and client/src/pages/employer/UpdateJob.jsx edits one.
    Both hold the posting as one record with the same scalar inputs and the
    same five lists of strings, and both append to and splice from a list in
    the same way. */
module JobFields {
  import opened Js
  import opened Lists

  const ListNames: set<string> :=
    {"skills", "qualificationHighest", "responsibilities", "preferredQualifications", "additionalInformation"}

  /** The `name` attributes of the scalar inputs. */
  const ScalarNames: set<string> :=
    {"title", "description", "location", "salary", "experienceYears", "requireEmployee",
     "jobType", "deadline", "aboutJob", "howToApply", "note"}

  /** Every list of the posting is an array. */
  predicate ListsPresent(r: Record)
  {
    forall n :: n in ListNames ==> IsList(r, n)
  }

  /** The input handler, `{ ...prev, [name]: value }` for a scalar input. */
  function HandleInputChange(r: Record, name: string, value: string): (r': Record)
    requires name in ScalarNames
    ensures OnlyKeyChanged(r, r', name) && r'[name] == Str(value)
    ensures ListsPresent(r) ==> ListsPresent(r')
  {
    r[name := Str(value)]
  }

  /** handleAddItem(field): `[...prev[field], ""]`. */
  function HandleAddItem(r: Record, field: string): (r': Record)
    requires IsList(r, field)
    ensures OnlyKeyChanged(r, r', field) && r'[field].Arr?
    ensures r'[field].items == r[field].items + [Str("")]
    ensures ListsPresent(r) ==> ListsPresent(r')
  {
    r[field := Arr(r[field].items + [Str("")])]
  }

  /** handleRemoveItem(index, field): the list with `index` spliced out. */
  function RemoveItem(r: Record, index: nat, field: string): (r': Record)
    requires IsList(r, field)
    ensures OnlyKeyChanged(r, r', field) && r'[field].Arr?
    ensures r'[field].items == RemoveAt(r[field].items, index)
    ensures ListsPresent(r) ==> ListsPresent(r')
  {
    r[field := Arr(RemoveAt(r[field].items, index))]
  }

  /** handleRemoveItem as the forms run it: a copy of the list shortened by
      `splice` in place. */
  method HandleRemoveItem(r: Record, index: nat, field: string) returns (r': Record)
    requires IsList(r, field)
    ensures r' == RemoveItem(r, index, field)
  {
    var spliced := SpliceOut(r[field].items, index);
    r' := r[field := Arr(spliced)];
  }

  /** Adding an item and removing the last index gives back the record. */
  lemma AddThenRemove(r: Record, field: string)
    requires IsList(r, field)
    ensures RemoveItem(HandleAddItem(r, field), |r[field].items|, field) == r
  {
    AppendThenRemoveLast(r[field].items, Str(""));
    assert r[field := Arr(r[field].items)] == r;
  }
}

/** The job-posting form, client/src/pages/employer/PostingApplication.jsx. */
module PostingApplication {
  import opened Js
  import opened JobFields

  const DeadlineMessage := "Deadline must be in the future."
  const PostedApplications := "/employer-dashboard/posted-application"

  /** Every list starts with one empty line; `submitted` starts false. */
  const InitialJob: Record := map[
    "title" := Str(""), "description" := Str(""), "location" := Str(""), "salary" := Str(""),
    "skills" := Arr([Str("")]), "qualificationHighest" := Arr([Str("")]),
    "experienceYears" := Num(0), "requireEmployee" := Num(1), "jobType" := Str("Full-Time"),
    "deadline" := Str(""), "aboutJob" := Str(""),
    "responsibilities" := Arr([Str("")]), "preferredQualifications" := Arr([Str("")]),
    "additionalInformation" := Arr([Str("")]),
    "howToApply" := Str(""), "note" := Str(""), "submitted" := Bool(false)
  ]

  lemma InitialJobShape()
    ensures ListsPresent(InitialJob)
    ensures forall n :: n in ListNames ==> InitialJob[n] == Arr([Str("")])
    ensures !KeyTruthy(InitialJob, "submitted")
  {
  }

  /** handleArrayInputChange: a copy of the list gets one cell assigned. The
      index is that of a rendered input, so it is in range. */
  method HandleArrayInputChange(r: Record, value: string, index: nat, field: string) returns (r': Record)
    requires IsList(r, field) && index < |r[field].items|
    ensures OnlyKeyChanged(r, r', field) && r'[field].Arr?
    ensures r'[field].items == r[field].items[index := Str(value)]
    ensures ListsPresent(r) ==> ListsPresent(r')
  {
    var items := r[field].items;
    var copy := new Value[|items|](k requires 0 <= k < |items| => items[k]);
    copy[index] := Str(value);
    r' := r[field := Arr(copy[..])];
  }

  /** handleSubmit. A deadline at or before `now` throws before the request;
      an unparsable deadline compares false and passes. A failed request
      toasts the error's own message, `failure`. `submitted` is set only by a
      successful request. */
  method HandleSubmit(r: Record, parse: Value -> Option<int>, now: int, ok: bool, failure: string)
    returns (r': Record, effects: seq<Effect>)
    ensures NotAfter(DateField(r, "deadline", parse), now) ==>
              r' == r && effects == [ToastError(DeadlineMessage)]
    ensures !NotAfter(DateField(r, "deadline", parse), now) ==>
              && |effects| == 2 && effects[0] == Send(POST, "/job/job")
              && (ok ==> r' == r["submitted" := Bool(true)] && effects == [Send(POST, "/job/job"), ToastSuccess("Job posted successfully!")])
              && (!ok ==> r' == r && effects == [Send(POST, "/job/job"), ToastError(failure)])
    ensures KeyTruthy(r', "submitted") ==> KeyTruthy(r, "submitted") || ok
  {
    r' := r;
    var deadline := DateField(r, "deadline", parse);
    if NotAfter(deadline, now) {
      effects := [ToastError(DeadlineMessage)];
      return;
    }
    effects := [Send(POST, "/job/job")];
    if ok {
      r' := r["submitted" := Bool(true)];
      effects := effects + [ToastSuccess("Job posted successfully!")];
    } else {
      effects := effects + [ToastError(failure)];
    }
  }

  /** The render-time check: a submitted posting navigates away. */
  function RenderNavigation(r: Record): (nav: Option<string>)
    ensures nav.Some? <==> KeyTruthy(r, "submitted")
    ensures nav.Some? ==> nav.value == PostedApplications
  {
    if KeyTruthy(r, "submitted") then Some(PostedApplications) else None
  }
}

/** The job-update form, client/src/pages/employer/UpdateJob.jsx: a page that
    fetches the posting, then shows the form or the fetch error. */
module UpdateJob {
  import opened Js
  import opened Lists
  import opened JobFields

  const DeadlineMessage := "Deadline must be in the future."
  const FetchErrorMessage := "Error fetching job. Please try again later."
  const UpdateErrorMessage := "Error updating job. Please try again later."

  /** Before the fetch every list is empty and every scalar is "". */
  const InitialJob: Record := map[
    "title" := Str(""), "description" := Str(""), "location" := Str(""), "salary" := Str(""),
    "skills" := Arr([]), "qualificationHighest" := Arr([]),
    "experienceYears" := Str(""), "requireEmployee" := Str(""), "jobType" := Str(""),
    "deadline" := Str(""), "aboutJob" := Str(""),
    "responsibilities" := Arr([]), "preferredQualifications" := Arr([]),
    "additionalInformation" := Arr([]),
    "howToApply" := Str(""), "note" := Str("")
  ]

  lemma InitialJobShape()
    ensures ListsPresent(InitialJob)
    ensures forall n :: n in ListNames ==> InitialJob[n] == Arr([])
  {
  }

  /** The page: the posting, the loading flag and the fetch error. */
  datatype Page = Page(job: Record, loading: bool, error: Option<string>)

  const InitialPage := Page(InitialJob, true, None)

  /** The fetch effect: the reply's posting on success, the error text on
      failure; loading ends either way. */
  function FetchCompleted(p: Page, reply: Option<Record>): (p': Page)
    ensures !p'.loading
    ensures reply.Some? ==> p'.job == reply.value && p'.error == p.error
    ensures reply.None? ==> p'.job == p.job && p'.error == Some(FetchErrorMessage)
  {
    match reply
    case Some(job) => p.(job := job, loading := false)
    case None => p.(loading := false, error := Some(FetchErrorMessage))
  }

  datatype Screen = LoadingText | ErrorText(message: string) | Form

  function Render(p: Page): (s: Screen)
    ensures s == Form <==> !p.loading && (p.error.None? || p.error.value == "")
    ensures s.ErrorText? ==> p.error == Some(s.message)
  {
    if p.loading then LoadingText
    else if p.error.Some? && p.error.value != "" then ErrorText(p.error.value)
    else Form
  }

  /** From the initial page, one fetch leads to the form exactly when it
      succeeds, and to the error text exactly when it fails. */
  lemma FetchThenRender(reply: Option<Record>)
    ensures Render(FetchCompleted(InitialPage, reply)) == if reply.Some? then Form else ErrorText(FetchErrorMessage)
  {
  }

  /** handleArrayInputChange: `map` over the list, replacing item `index`; an
      index past the end leaves the list equal. */
  function HandleArrayInputChange(r: Record, value: string, field: string, index: nat): (r': Record)
    requires IsList(r, field)
    ensures OnlyKeyChanged(r, r', field) && r'[field].Arr?
    ensures r'[field].items == if index < |r[field].items| then r[field].items[index := Str(value)] else r[field].items
    ensures ListsPresent(r) ==> ListsPresent(r')
  {
    var items := r[field].items;
    Lists.MapIsReplace(items, index, Str(value));
    r[field := Arr(MapAtIndex(items, index, Str(value)))]
  }

  /** handleSubmit. A deadline at or before `now` is refused with a toast and
      nothing is sent; an invalid or empty deadline compares false and passes.
      Otherwise the posting is sent and only a success navigates. */
  function SubmitEffects(r: Record, toDate: Value -> Option<int>, now: int, jobId: string, ok: bool): (effects: seq<Effect>)
    ensures NotAfter(DateField(r, "deadline", toDate), now) <==> effects == [ToastError(DeadlineMessage)]
    ensures !NotAfter(DateField(r, "deadline", toDate), now) ==>
              |effects| == 2 && effects[0] == Send(PUT, "/job/job/" + jobId)
    ensures Navigate("/employer-dashboard/posted-application") in effects <==>
              !NotAfter(DateField(r, "deadline", toDate), now) && ok
  {
    if NotAfter(DateField(r, "deadline", toDate), now) then [ToastError(DeadlineMessage)]
    else [Send(PUT, "/job/job/" + jobId)]
         + (if ok then [Navigate("/employer-dashboard/posted-application")] else [ToastError(UpdateErrorMessage)])
  }
}
