/** What the job lists and the job page share: a job is a plain object whose
    `_id` the handlers compare with the id they were given. */
module Jobs {
  import opened Js

  /** `job._id === id`; a job without `_id` reads `undefined`, equal to no id. */
  predicate HasId(job: Record, id: string)
  {
    "_id" in job && job["_id"] == Str(id)
  }

  /** A job list page's state: the list, whether the first fetch is pending,
      and the error text shown above the list. */
  datatype Listing = Listing(jobs: seq<Record>, loading: bool, error: Option<string>)

  const InitialListing := Listing([], true, None)

  const FetchErrorMessage := "Error fetching posted jobs. Please try again later."

  /** fetchPostedJobs once its request has settled: the reply's jobs replace
      the list, or a failure sets the error; loading ends either way. None is
      a failed request. */
  function FetchCompleted(s: Listing, reply: Option<seq<Record>>): (s': Listing)
    ensures !s'.loading
    ensures reply.Some? ==> s'.jobs == reply.value && s'.error == s.error
    ensures reply.None? ==> s'.jobs == s.jobs && s'.error == Some(FetchErrorMessage)
  {
    match reply
    case Some(jobs) => s.(jobs := jobs, loading := false)
    case None => s.(error := Some(FetchErrorMessage), loading := false)
  }

  /** What a list handler does: its request, the JSON body sent with it
      (None for a request without one), and the state once it has settled. */
  datatype Step = Step(request: Effect, body: Option<Record>, after: Listing)
}

/** The employer's posted jobs, client/src/pages/employer/PostedApplication.jsx:
    a list that a delete filters, and the helpers that colour its rows. */
module PostedApplication {
  import opened Js
  import opened Jobs

  /** `jobs.filter((job) => job._id !== jobId)`. */
  function WithoutId(jobs: seq<Record>, id: string): seq<Record>
  {
    if jobs == [] then []
    else (if HasId(jobs[0], id) then [] else [jobs[0]]) + WithoutId(jobs[1..], id)
  }

  /** The kept jobs are exactly the jobs without the id, and there are no
      more of them than there were jobs. */
  lemma {:induction false} WithoutIdSpec(jobs: seq<Record>, id: string)
    ensures |WithoutId(jobs, id)| <= |jobs|
    ensures forall j :: j in WithoutId(jobs, id) <==> j in jobs && !HasId(j, id)
  {
    if jobs != [] {
      WithoutIdSpec(jobs[1..], id);
      assert jobs == [jobs[0]] + jobs[1..];
    }
  }

  /** The filter works element by element, so it keeps the order of what it
      keeps: it distributes over concatenation. */
  lemma {:induction false} WithoutIdAppend(a: seq<Record>, b: seq<Record>, id: string)
    ensures WithoutId(a + b, id) == WithoutId(a, id) + WithoutId(b, id)
  {
    if a == [] {
      assert a + b == b;
    } else {
      assert (a + b)[1..] == a[1..] + b;
      WithoutIdAppend(a[1..], b, id);
    }
  }

  /** A list without the id is left as it is; so deleting twice is deleting
      once. */
  lemma {:induction false} WithoutIdIdempotent(jobs: seq<Record>, id: string)
    ensures (forall j :: j in jobs ==> !HasId(j, id)) ==> WithoutId(jobs, id) == jobs
    ensures WithoutId(WithoutId(jobs, id), id) == WithoutId(jobs, id)
  {
    if jobs != [] {
      WithoutIdIdempotent(jobs[1..], id);
      var head := if HasId(jobs[0], id) then [] else [jobs[0]];
      var rest := WithoutId(jobs[1..], id);
      WithoutIdAppend(head, rest, id);
      assert WithoutId(head, id) == head by {
        if head != [] {
          assert head[1..] == [];
        }
      }
      if forall j :: j in jobs ==> !HasId(j, id) {
        assert jobs == [jobs[0]] + jobs[1..];
      }
    }
  }

  /** handleDelete after its DELETE request: success drops every job with the
      id; failure keeps the list and sets the error. */
  function DeleteCompleted(s: Listing, id: string, ok: bool): (s': Listing)
    ensures s'.loading == s.loading
    ensures ok ==> s'.jobs == WithoutId(s.jobs, id) && s'.error == s.error
    ensures !ok ==> s'.jobs == s.jobs && s'.error == Some("Error deleting job. Please try again later.")
  {
    if ok then s.(jobs := WithoutId(s.jobs, id))
    else s.(error := Some("Error deleting job. Please try again later."))
  }

  /** handleDelete: one DELETE of the job, with no body, and then the list as
      `DeleteCompleted` leaves it. */
  function HandleDelete(s: Listing, id: string, ok: bool): (r: Step)
    ensures r.request == Send(DELETE, "/job/job/" + id) && r.body.None?
    ensures r.after.loading == s.loading
    ensures ok ==> r.after.jobs == WithoutId(s.jobs, id) && r.after.error == s.error
    ensures !ok ==> r.after.jobs == s.jobs && r.after.error == Some("Error deleting job. Please try again later.")
  {
    Step(Send(DELETE, "/job/job/" + id), None, DeleteCompleted(s, id, ok))
  }

  /** getStatusColor: the badge colour of a review status. */
  function StatusColor(status: Value): (c: string)
    ensures c == "bg-green-500" <==> status == Str("Accepted")
    ensures c == "bg-red-500" <==> status == Str("Rejected")
    ensures c == "bg-blue-500" <==> status == Str("Pending")
    ensures c == "bg-gray-500" <==> status !in {Str("Accepted"), Str("Rejected"), Str("Pending")}
  {
    match status
    case Str("Accepted") => "bg-green-500"
    case Str("Rejected") => "bg-red-500"
    case Str("Pending") => "bg-blue-500"
    case _ => "bg-gray-500"
  }

  /** getStatus: a job is live while its deadline is strictly in the future;
      an invalid deadline is expired. */
  function Status(deadline: Value, toDate: Value -> Option<int>, now: int): (s: string)
    ensures s == "Live" <==> After(toDate(deadline), now)
    ensures s == "Live" || s == "Expired"
  {
    if After(toDate(deadline), now) then "Live" else "Expired"
  }

  /** getStatusColorByTime, which repeats getStatus's comparison. */
  function StatusColorByTime(deadline: Value, toDate: Value -> Option<int>, now: int): string
  {
    if After(toDate(deadline), now) then "text-green-500" else "text-red-500"
  }

  /** The two helpers agree: green text exactly for a live job. */
  lemma ColorFollowsStatus(deadline: Value, toDate: Value -> Option<int>, now: int)
    ensures StatusColorByTime(deadline, toDate, now) == "text-green-500" <==> Status(deadline, toDate, now) == "Live"
    ensures StatusColorByTime(deadline, toDate, now) == "text-red-500" <==> Status(deadline, toDate, now) == "Expired"
  {
  }

  /** getRowColor, for the row index of `jobs.map`. */
  function RowColor(index: nat): (c: string)
    ensures c == "#CDFADB" <==> index % 2 == 0
    ensures c == "#DAFFFB" <==> index % 2 == 1
  {
    if index % 2 == 0 then "#CDFADB" else "#DAFFFB"
  }

  /** Neighbouring rows never share a colour and every other row does. */
  lemma RowColorsAlternate(index: nat)
    ensures RowColor(index) != RowColor(index + 1)
    ensures RowColor(index) == RowColor(index + 2)
  {
  }

  datatype Block = LoadingText | ErrorText(message: string) | NoJobsText | JobTable(rows: nat)

  /** The blocks rendered under the heading, top to bottom. */
  function Render(s: Listing): (blocks: seq<Block>)
    ensures LoadingText in blocks <==> s.loading
    ensures NoJobsText in blocks <==> !s.loading && s.jobs == []
    ensures JobTable(|s.jobs|) in blocks <==> !s.loading && s.jobs != []
    ensures s.error.Some? && s.error.value != "" ==> ErrorText(s.error.value) in blocks
    ensures forall m :: ErrorText(m) in blocks ==> s.error == Some(m) && m != ""
    ensures !(NoJobsText in blocks && JobTable(|s.jobs|) in blocks)
  {
    (if s.loading then [LoadingText] else [])
    + (if s.error.Some? && s.error.value != "" then [ErrorText(s.error.value)] else [])
    + (if !s.loading && |s.jobs| == 0 then [NoJobsText] else [])
    + (if !s.loading && |s.jobs| > 0 then [JobTable(|s.jobs|)] else [])
  }

  /** After the first fetch the loading text is gone: a failure shows the
      error above "No posted jobs found.", a reply shows its jobs or, when it
      has none, the same text. */
  lemma FirstFetchThenRender(reply: Option<seq<Record>>)
    ensures var blocks := Render(FetchCompleted(InitialListing, reply));
            && LoadingText !in blocks
            && (reply.None? ==> blocks == [ErrorText(FetchErrorMessage), NoJobsText])
            && (reply.Some? && reply.value == [] ==> blocks == [NoJobsText])
            && (reply.Some? && reply.value != [] ==> blocks == [JobTable(|reply.value|)])
  {
  }
}

/** The administrator's job review, client/src/pages/admin/ApproveJob.jsx: an
    accept or reject replaces the job by the one the server returns. */
module ApproveJob {
  import opened Js
  import opened Jobs

  /** The two buttons and the status each sends. */
  datatype Action = Accept | Reject

  function ActionStatus(a: Action): string
  {
    match a
    case Accept => "Accepted"
    case Reject => "Rejected"
  }


  /** `jobs.map((job) => (job._id === jobId ? updatedJob : job))`. */
  function ReplaceById(jobs: seq<Record>, id: string, updated: Record): (r: seq<Record>)
  {
    if jobs == [] then []
    else [if HasId(jobs[0], id) then updated else jobs[0]] + ReplaceById(jobs[1..], id, updated)
  }

  /** Position by position, a job with the id becomes the returned job and
      every other job stays; length and order are kept. */
  lemma {:induction false} ReplaceByIdSpec(jobs: seq<Record>, id: string, updated: Record)
    ensures |ReplaceById(jobs, id, updated)| == |jobs|
    ensures forall i :: 0 <= i < |jobs| ==>
              ReplaceById(jobs, id, updated)[i] == if HasId(jobs[i], id) then updated else jobs[i]
  {
    if jobs != [] {
      ReplaceByIdSpec(jobs[1..], id, updated);
    }
  }

  /** handleAction after its PUT request. The error text is built from the
      status word, as written: "Error Accepteding job. ...". */
  function ActionCompleted(s: Listing, id: string, a: Action, ok: bool, updated: Record): (s': Listing)
    ensures s'.loading == s.loading
    ensures ok ==> s'.jobs == ReplaceById(s.jobs, id, updated) && s'.error == s.error
    ensures !ok ==> s'.jobs == s.jobs
                    && s'.error == Some("Error " + ActionStatus(a) + "ing job. Please try again later.")
  {
    if ok then s.(jobs := ReplaceById(s.jobs, id, updated))
    else s.(error := Some("Error " + ActionStatus(a) + "ing job. Please try again later."))
  }

  /** handleAction: one PUT of the job's status, whose body carries the
      button's status word, and then the list as `ActionCompleted` leaves it. */
  function HandleAction(s: Listing, id: string, a: Action, ok: bool, updated: Record): (r: Step)
    ensures r.request == Send(PUT, "/job/status/" + id)
    ensures r.body.Some? && r.body.value.Keys == {"status"}
    ensures r.after == ActionCompleted(s, id, a, ok, updated)
  {
    Step(Send(PUT, "/job/status/" + id), Some(map["status" := Str(ActionStatus(a))]), ActionCompleted(s, id, a, ok, updated))
  }

  /** Only the two review outcomes are ever sent, Accepted by the accept
      button and Rejected by the reject button. */
  lemma SentStatuses(s: Listing, id: string, a: Action, ok: bool, updated: Record)
    ensures var body := HandleAction(s, id, a, ok, updated).body.value;
            body["status"] in {Str("Accepted"), Str("Rejected")}
    ensures var body := HandleAction(s, id, a, ok, updated).body.value;
            body["status"] == Str("Accepted") <==> a == Accept
  {
  }

  /** The status cell: a status that is undefined, null or "" reads "Not
      available"; any other value, a falsy one such as 0 included, is shown. */
  function StatusCell(job: Record): (v: Value)
    ensures "status" !in job || job["status"] in {Null, Str("")} ==> v == Str("Not available")
    ensures "status" in job && job["status"] !in {Null, Str("")} ==> v == job["status"]
  {
    if "status" in job && job["status"] != Null && job["status"] != Str("") then job["status"]
    else Str("Not available")
  }

  /** The date cells: a falsy or missing date reads "Not available", any other
      is shown through `localeDay` (`toLocaleDateString`). */
  function DateCell(job: Record, k: string, localeDay: Value -> string): (text: string)
    ensures !KeyTruthy(job, k) ==> text == "Not available"
    ensures KeyTruthy(job, k) ==> text == localeDay(job[k])
  {
    if KeyTruthy(job, k) then localeDay(job[k]) else "Not available"
  }
}

/** The job page a job seeker applies from,
    client/src/pages/jobseeker/JobDescription.jsx. */
module JobDescription {
  import opened Js

  /** How the apply request ended: a 2xx reply with its message, an error
      reply with its status and message, or no reply at all. */
  datatype ApplyResult =
    | Applied(message: string)
    | ErrorReply(status: int, message: string)
    | NoReply

  /** applyForJob: the request, then one toast, and on success a move to the
      applied-jobs page. */
  function ApplyEffects(jobId: string, result: ApplyResult): (effects: seq<Effect>)
    ensures |effects| >= 2 && effects[0] == Send(POST, "/apply/applied-jobs/" + jobId)
    ensures Navigate("/dashboard/appliedJob") in effects <==> result.Applied?
    ensures result.Applied? ==> effects[1] == ToastSuccess(result.message)
    ensures result.ErrorReply? && result.status in {400, 404} ==> effects == [effects[0], ToastError(result.message)]
    ensures result.ErrorReply? && result.status !in {400, 404} ==> effects == [effects[0], ToastError("Server Error")]
    ensures result.NoReply? ==> effects == [effects[0], ToastError("Network Error")]
  {
    var request := Send(POST, "/apply/applied-jobs/" + jobId);
    match result
    case Applied(message) => [request, ToastSuccess(message), Navigate("/dashboard/appliedJob")]
    case ErrorReply(status, message) =>
      if status == 400 || status == 404 then [request, ToastError(message)]
      else [request, ToastError("Server Error")]
    case NoReply => [request, ToastError("Network Error")]
  }

  /** Exactly one toast is shown, a success one exactly when the apply went
      through. */
  lemma OneToast(jobId: string, result: ApplyResult)
    ensures |ApplyEffects(jobId, result)| == if result.Applied? then 3 else 2
    ensures ApplyEffects(jobId, result)[1].ToastSuccess? <==> result.Applied?
    ensures ApplyEffects(jobId, result)[1].ToastError? <==> !result.Applied?
  {
  }

  /** The role state starts as "" and becomes the stored role (None for a
      missing key) after mount; Apply is shown unless it is exactly "admin". */
  function ShowApply(userRole: Option<string>): (shown: bool)
    ensures !shown <==> userRole == Some("admin")
  {
    userRole != Some("admin")
  }

  const InitialRole: Option<string> := Some("")
}
