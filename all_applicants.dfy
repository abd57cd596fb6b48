/** The employer's applicant list for one job,
    client/src/pages/employer/AllApplicants.jsx: per applicant an interview
    entry (Date and Time) that is loaded, edited, scheduled and exported as a
    table of the scheduled ones. */
module AllApplicants {
  import opened Js

  /** The fields of an application the page reads. */
  datatype Applicant = Applicant(id: string, firstName: string, lastName: string,
                                 phone: Value, emailAddress: Value)

  /** One `/apply/get-interview/<id>` lookup: a failed request, or the `data`
      of the reply, None when it is null or missing. */
  datatype Lookup = LookupFailed | Found(data: Option<Record>)

  /** `obj.k` on a plain object: a missing key reads `undefined`, which, like
      `null`, is falsy. */
  function Field(r: Record, k: string): (v: Value)
    ensures k in r ==> v == r[k]
    ensures k !in r ==> !Truthy(v)
  {
    if k in r then r[k] else Null
  }

  /** formatDate: a falsy date gives ""; otherwise the ISO day of the date,
      `isoDay` standing for `new Date(date).toISOString().split("T")[0]`.
      None is an invalid date, for which `toISOString` throws. */
  function FormatDate(date: Value, isoDay: Value -> Option<string>): (r: Option<string>)
    ensures !Truthy(date) ==> r == Some("")
    ensures Truthy(date) ==> r == isoDay(date)
  {
    if !Truthy(date) then Some("") else isoDay(date)
  }

  /** The entry an applicant gets from its lookup, or None when the lookup
      failed or the formatting threw, both caught per applicant. */
  function Entry(lookup: Lookup, isoDay: Value -> Option<string>): (e: Option<Record>)
  {
    match lookup
    case LookupFailed => None
    case Found(data) =>
      var raw := if data.Some? then data.value else map["Date" := Str(""), "Time" := Str("")];
      var day := FormatDate(Field(raw, "Date"), isoDay);
      if day.None? then None
      else Some(map["Date" := Str(day.value),
                    "Time" := if KeyTruthy(raw, "Time") then raw["Time"] else Str("")])
  }

  /** An entry holds exactly a Date and a Time; a reply without data gives
      two empty ones, and only a failed lookup or an invalid date gives none. */
  lemma EntryShape(lookup: Lookup, isoDay: Value -> Option<string>)
    ensures Entry(lookup, isoDay).Some? ==> Entry(lookup, isoDay).value.Keys == {"Date", "Time"}
    ensures Entry(lookup, isoDay).Some? ==> Entry(lookup, isoDay).value["Date"].Str?
    ensures lookup == Found(None) ==> Entry(lookup, isoDay) == Some(map["Date" := Str(""), "Time" := Str("")])
    ensures lookup.LookupFailed? ==> Entry(lookup, isoDay).None?
    ensures lookup.Found? && lookup.data.Some? && !KeyTruthy(lookup.data.value, "Date") ==>
              Entry(lookup, isoDay).Some? && Entry(lookup, isoDay).value["Date"] == Str("")
    ensures lookup.Found? && lookup.data.Some? && KeyTruthy(lookup.data.value, "Date") ==>
              (Entry(lookup, isoDay).None? <==> isoDay(lookup.data.value["Date"]).None?)
  {
  }

  /** The interview state the fetch builds, applicant by applicant; with a
      repeated id the later applicant's entry is the one kept. */
  function InitialState(apps: seq<Applicant>, lookups: seq<Lookup>, isoDay: Value -> Option<string>): map<string, Record>
    requires |apps| == |lookups|
  {
    if apps == [] then map[]
    else
      var n := |apps| - 1;
      var before := InitialState(apps[..n], lookups[..n], isoDay);
      var e := Entry(lookups[n], isoDay);
      if e.Some? then before[apps[n].id := e.value] else before
  }

  /** Applicant `i` is the last one with its id. */
  predicate LastWithId(apps: seq<Applicant>, i: int)
    requires 0 <= i < |apps|
  {
    forall j :: i < j < |apps| ==> apps[j].id != apps[i].id
  }

  /** Some applicant with this id had its lookup succeed. */
  predicate Loaded(apps: seq<Applicant>, lookups: seq<Lookup>, isoDay: Value -> Option<string>, id: string)
    requires |apps| == |lookups|
  {
    exists i :: 0 <= i < |apps| && apps[i].id == id && Entry(lookups[i], isoDay).Some?
  }

  /** An id has an entry exactly when some applicant with that id had its
      lookup succeed. */
  lemma {:induction false} InitialStateKeys(apps: seq<Applicant>, lookups: seq<Lookup>, isoDay: Value -> Option<string>, id: string)
    requires |apps| == |lookups|
    ensures id in InitialState(apps, lookups, isoDay) <==> Loaded(apps, lookups, isoDay, id)
  {
    if apps != [] {
      var n := |apps| - 1;
      InitialStateKeys(apps[..n], lookups[..n], isoDay, id);
      if Loaded(apps[..n], lookups[..n], isoDay, id) {
        var i :| 0 <= i < n && apps[..n][i].id == id && Entry(lookups[..n][i], isoDay).Some?;
        assert apps[i].id == id && Entry(lookups[i], isoDay).Some?;
      }
      if Loaded(apps, lookups, isoDay, id) {
        var i :| 0 <= i < |apps| && apps[i].id == id && Entry(lookups[i], isoDay).Some?;
        if i < n {
          assert apps[..n][i].id == id && Entry(lookups[..n][i], isoDay).Some?;
        }
      }
    }
  }

  /** The entry of an id is the one of the last applicant with that id. */
  lemma {:induction false} InitialStateValue(apps: seq<Applicant>, lookups: seq<Lookup>, isoDay: Value -> Option<string>, i: nat)
    requires |apps| == |lookups| && i < |apps|
    requires LastWithId(apps, i) && Entry(lookups[i], isoDay).Some?
    ensures apps[i].id in InitialState(apps, lookups, isoDay)
    ensures InitialState(apps, lookups, isoDay)[apps[i].id] == Entry(lookups[i], isoDay).value
  {
    var n := |apps| - 1;
    if i < n {
      assert apps[n].id != apps[i].id;
      assert apps[..n][i] == apps[i] && lookups[..n][i] == lookups[i];
      assert LastWithId(apps[..n], i);
      InitialStateValue(apps[..n], lookups[..n], isoDay, i);
    }
  }

  /** Every listed id is closed: the dialog flags the fetch sets. */
  function Closed(ids: set<string>): (m: map<string, bool>)
    ensures m.Keys == ids && forall id :: id in m ==> !m[id]
  {
    map id | id in ids :: false
  }

  /** handleChange: the named field of one applicant's entry is set; an
      applicant without an entry gets one holding only that field. */
  function WithField(interview: map<string, Record>, id: string, name: string, value: string): (r: map<string, Record>)
    ensures r.Keys == interview.Keys + {id}
    ensures r[id].Keys == (if id in interview then interview[id].Keys else {}) + {name}
    ensures r[id][name] == Str(value)
    ensures forall k :: id in interview && k in interview[id] && k != name ==> r[id][k] == interview[id][k]
    ensures forall other :: other in interview && other != id ==> r[other] == interview[other]
  {
    var entry := if id in interview then interview[id] else map[];
    interview[id := entry[name := Str(value)]]
  }

  /** `interview[id]?.Date` used as a condition. */
  predicate Scheduled(interview: map<string, Record>, id: string)
  {
    id in interview && KeyTruthy(interview[id], "Date")
  }

  /** The label of an applicant's interview button. */
  function ButtonLabel(interview: map<string, Record>, id: string): (text: string)
    ensures text == "Update Interview" <==> Scheduled(interview, id)
    ensures text == "Schedule Interview" <==> !Scheduled(interview, id)
  {
    if Scheduled(interview, id) then "Update Interview" else "Schedule Interview"
  }

  /** `applicants.some(...)`: some applicant is scheduled. */
  predicate HasScheduled(apps: seq<Applicant>, interview: map<string, Record>)
  {
    exists i :: 0 <= i < |apps| && Scheduled(interview, apps[i].id)
  }

  /** One row of the exported table: name, phone, e-mail, Date and Time (the
      Time read with `?.`, so it may be missing). */
  datatype Row = Row(name: string, phone: Value, email: Value, date: Value, time: Option<Value>)

  function RowOf(a: Applicant, entry: Record): Row
    requires "Date" in entry
  {
    Row(a.firstName + " " + a.lastName, a.phone, a.emailAddress, entry["Date"],
        if "Time" in entry then Some(entry["Time"]) else None)
  }

  /** The rows of generatePDF, in applicant order. */
  function PdfRows(apps: seq<Applicant>, interview: map<string, Record>): seq<Row>
  {
    if apps == [] then []
    else
      var n := |apps| - 1;
      var a := apps[n];
      PdfRows(apps[..n], interview)
        + (if Scheduled(interview, a.id) then [RowOf(a, interview[a.id])] else [])
  }

  /** A row is exported for every scheduled applicant and only for them; in
      particular the table is non-empty exactly when the page says some
      interview is scheduled. */
  lemma {:induction false} PdfRowsSpec(apps: seq<Applicant>, interview: map<string, Record>)
    ensures |PdfRows(apps, interview)| <= |apps|
    ensures forall i :: 0 <= i < |apps| && Scheduled(interview, apps[i].id) ==>
              RowOf(apps[i], interview[apps[i].id]) in PdfRows(apps, interview)
    ensures forall row :: row in PdfRows(apps, interview) ==>
              exists i :: 0 <= i < |apps| && Scheduled(interview, apps[i].id) && row == RowOf(apps[i], interview[apps[i].id])
    ensures HasScheduled(apps, interview) <==> PdfRows(apps, interview) != []
  {
    if apps != [] {
      var n := |apps| - 1;
      var rest := PdfRows(apps[..n], interview);
      PdfRowsSpec(apps[..n], interview);
      var rows := PdfRows(apps, interview);
      forall i | 0 <= i < |apps| && Scheduled(interview, apps[i].id)
        ensures RowOf(apps[i], interview[apps[i].id]) in rows
      {
        if i < n {
          assert apps[..n][i] == apps[i];
        }
      }
      forall row | row in rows
        ensures exists i :: 0 <= i < |apps| && Scheduled(interview, apps[i].id) && row == RowOf(apps[i], interview[apps[i].id])
      {
        if row in rest {
          var i :| 0 <= i < n && Scheduled(interview, apps[..n][i].id) && row == RowOf(apps[..n][i], interview[apps[..n][i].id]);
          assert apps[..n][i] == apps[i];
        }
      }
      if HasScheduled(apps, interview) {
        var i :| 0 <= i < |apps| && Scheduled(interview, apps[i].id);
        assert RowOf(apps[i], interview[apps[i].id]) in rows;
      }
    }
  }

  /** What a settled fetchData brings back once the list request succeeded:
      the applicants and, for each, its interview lookup. */
  datatype Refetch = Refetch(apps: seq<Applicant>, lookups: seq<Lookup>)

  /** The page's state. */
  class ApplicantsPage {
    const jobId: string
    var applicants: seq<Applicant>
    var interview: map<string, Record>
    var showDialog: map<string, bool>

    constructor (jobId: string)
      ensures this.jobId == jobId
      ensures applicants == [] && interview == map[] && showDialog == map[]
    {
      this.jobId := jobId;
      applicants := [];
      interview := map[];
      showDialog := map[];
    }

    /** fetchData after the list request succeeded: one lookup per applicant,
        the entries and closed dialogs of the successful ones, then the list. */
    method FetchCompleted(apps: seq<Applicant>, lookups: seq<Lookup>, isoDay: Value -> Option<string>)
      requires |apps| == |lookups|
      modifies this
      ensures applicants == apps
      ensures interview == InitialState(apps, lookups, isoDay)
      ensures showDialog == Closed(interview.Keys)
    {
      var state: map<string, Record> := map[];
      var dialog: map<string, bool> := map[];
      var i := 0;
      while i < |apps|
        invariant 0 <= i <= |apps|
        invariant state == InitialState(apps[..i], lookups[..i], isoDay)
        invariant dialog == Closed(state.Keys)
      {
        assert apps[..i + 1][..i] == apps[..i] && lookups[..i + 1][..i] == lookups[..i];
        var e := Entry(lookups[i], isoDay);
        if e.Some? {
          state := state[apps[i].id := e.value];
          dialog := dialog[apps[i].id := false];
        }
        i := i + 1;
      }
      assert apps[..i] == apps && lookups[..i] == lookups;
      interview := state;
      showDialog := dialog;
      applicants := apps;
    }

    method HandleChange(id: string, name: string, value: string)
      modifies this
      ensures interview == WithField(old(interview), id, name, value)
      ensures applicants == old(applicants) && showDialog == old(showDialog)
    {
      interview := WithField(interview, id, name, value);
    }

    /** The interview button opens the applicant's dialog. */
    method OpenDialog(id: string)
      modifies this
      ensures showDialog == old(showDialog)[id := true]
      ensures applicants == old(applicants) && interview == old(interview)
    {
      showDialog := showDialog[id := true];
    }

    /** The dialog's Cancel button closes that dialog and keeps the entry,
        unsaved edits included. */
    method CloseDialog(id: string)
      modifies this
      ensures showDialog == old(showDialog)[id := false]
      ensures applicants == old(applicants) && interview == old(interview)
    {
      showDialog := showDialog[id := false];
    }

    /** handleScheduleInterview. Reading the Date of a missing entry throws
        (`typeError` is the engine's message); a date at or before `now` is
        refused with no request; otherwise the entry is posted and, on
        success, fetchData runs to completion before the dialog of `id` is
        closed in the dialog map read when the click was handled. `refetch`
        is that fetchData's outcome: None when its list request failed, which
        it catches and which leaves the page as it was. The effects name the
        requests by verb and path only: the Date and Time the POST carries and
        the per-applicant interview lookups of the refetch are not listed. */
    method ScheduleInterview(id: string, toDate: Value -> Option<int>, now: int,
                             postOk: bool, refetch: Option<Refetch>, isoDay: Value -> Option<string>,
                             failure: string, typeError: string)
      returns (effects: seq<Effect>)
      requires refetch.Some? ==> |refetch.value.apps| == |refetch.value.lookups|
      modifies this
      ensures id !in old(interview) ==>
                && effects == [ToastError(typeError)]
                && applicants == old(applicants) && interview == old(interview) && showDialog == old(showDialog)
      ensures id in old(interview) && NotAfter(DateField(old(interview)[id], "Date", toDate), now) ==>
                && effects == [ToastError("Interview date should be in the future.")]
                && applicants == old(applicants) && interview == old(interview) && showDialog == old(showDialog)
      ensures id in old(interview) && !NotAfter(DateField(old(interview)[id], "Date", toDate), now) && !postOk ==>
                && effects == [Send(POST, "/apply/set-interview/" + id), ToastError(failure)]
                && applicants == old(applicants) && interview == old(interview) && showDialog == old(showDialog)
      ensures id in old(interview) && !NotAfter(DateField(old(interview)[id], "Date", toDate), now) && postOk ==>
                && effects == [Send(POST, "/apply/set-interview/" + id), Send(GET, "/apply/get-application/" + jobId)]
                && showDialog == old(showDialog)[id := false]
                && (refetch.None? ==> applicants == old(applicants) && interview == old(interview))
                && (refetch.Some? ==>
                      && applicants == refetch.value.apps
                      && interview == InitialState(refetch.value.apps, refetch.value.lookups, isoDay))
    {
      if id !in interview {
        return [ToastError(typeError)];
      }
      if NotAfter(DateField(interview[id], "Date", toDate), now) {
        return [ToastError("Interview date should be in the future.")];
      }
      effects := [Send(POST, "/apply/set-interview/" + id)];
      if postOk {
        var dialogs := showDialog;
        effects := effects + [Send(GET, "/apply/get-application/" + jobId)];
        if refetch.Some? {
          FetchCompleted(refetch.value.apps, refetch.value.lookups, isoDay);
        }
        showDialog := dialogs[id := false];
      } else {
        effects := effects + [ToastError(failure)];
      }
    }

    /** The table of generatePDF, built with a loop as the page does. */
    method CollectPdfRows() returns (rows: seq<Row>)
      ensures rows == PdfRows(applicants, interview)
    {
      rows := [];
      var i := 0;
      while i < |applicants|
        invariant 0 <= i <= |applicants|
        invariant rows == PdfRows(applicants[..i], interview)
      {
        assert applicants[..i + 1][..i] == applicants[..i];
        var a := applicants[i];
        if Scheduled(interview, a.id) {
          rows := rows + [RowOf(a, interview[a.id])];
        }
        i := i + 1;
      }
      assert applicants[..i] == applicants;
    }
  }
}
