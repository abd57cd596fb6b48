/** The job seeker's résumé editor, client/src/pages/jobseeker/MyApplication.jsx.
    The résumé is one record: scalar text fields, flat lists of strings, and
    lists of entry objects (work experience, education, projects) each holding
    a nested list of strings. Every handler maps the record before the edit to
    the record after it. */
module MyApplication {
  import opened Js
  import opened Lists
  import opened Session

  /** The record before the stored résumé is fetched. */
  const InitialResume: Record := map[
    "picture" := Str(""), "summary" := Str(""),
    "firstName" := Str(""), "lastName" := Str(""), "phoneNumber" := Str(""),
    "emailAddress" := Str(""), "linkedInProfile" := Str(""), "address" := Str(""),
    "skills" := Arr([]), "hobbies" := Arr([]), "workExperience" := Arr([]),
    "education" := Arr([]), "certifications" := Arr([]), "projects" := Arr([]),
    "awardsAndHonors" := Arr([]), "languages" := Arr([])
  ]

  /** `list[i]` as a condition, `list` being the array at `parent`. */
  predicate EntryPresent(r: Record, parent: string, i: nat)
    requires IsList(r, parent)
  {
    i < |r[parent].items| && Truthy(r[parent].items[i])
  }

  /** `list[i] && list[i][child]`: an entry object whose `child` field is truthy.
      Indexing a string, number or array by a field name reads `undefined`. */
  predicate NestedPresent(r: Record, parent: string, i: nat, child: string)
    requires IsList(r, parent)
  {
    i < |r[parent].items| && r[parent].items[i].Obj? && KeyTruthy(r[parent].items[i].fields, child)
  }

  /** The nested list `list[i][child]` when it is present and an array. */
  predicate NestedIsList(r: Record, parent: string, i: nat, child: string)
  {
    IsList(r, parent) && NestedPresent(r, parent, i, child) && r[parent].items[i].fields[child].Arr?
  }

  function Nested(r: Record, parent: string, i: nat, child: string): seq<Value>
    requires NestedIsList(r, parent, i, child)
  {
    r[parent].items[i].fields[child].items
  }

  /** The list at `parent` kept its length and every entry other than `i`;
      the rest of the record is unchanged. */
  ghost predicate OnlyEntryChanged(r: Record, r': Record, parent: string, i: nat)
    requires IsList(r, parent)
  {
    && OnlyKeyChanged(r, r', parent)
    && r'[parent].Arr?
    && |r'[parent].items| == |r[parent].items|
    && forall j :: 0 <= j < |r[parent].items| && j != i ==> r'[parent].items[j] == r[parent].items[j]
  }

  /** In entry `i`, the nested list `child` was replaced by `list`, and that is
      the only change to the record. */
  ghost predicate OnlyNestedChanged(r: Record, r': Record, parent: string, i: nat, child: string, list: seq<Value>)
    requires NestedIsList(r, parent, i, child)
  {
    && OnlyEntryChanged(r, r', parent, i)
    && r'[parent].items[i].Obj?
    && OnlyKeyChanged(r[parent].items[i].fields, r'[parent].items[i].fields, child)
    && r'[parent].items[i].fields[child] == Arr(list)
  }

  function WithNested(r: Record, parent: string, i: nat, child: string, list: seq<Value>): (r': Record)
    requires NestedIsList(r, parent, i, child)
    ensures OnlyNestedChanged(r, r', parent, i, child, list)
  {
    var items := r[parent].items;
    r[parent := Arr(items[i := Obj(items[i].fields[child := Arr(list)])])]
  }

  /** handleChange: a text input writes its value under its own name. */
  function HandleChange(r: Record, name: string, value: string): (r': Record)
    ensures OnlyKeyChanged(r, r', name)
    ensures r'[name] == Str(value)
  {
    r[name := Str(value)]
  }

  /** handleArrayChange: a copy of the list has one cell assigned. An index past
      the end would grow the JavaScript array; the form only passes indices of
      rendered cells. */
  method HandleArrayChange(r: Record, index: nat, parent: string, value: string) returns (r': Record)
    requires IsList(r, parent) && index < |r[parent].items|
    ensures OnlyEntryChanged(r, r', parent, index)
    ensures r'[parent].items[index] == Str(value)
  {
    var items := r[parent].items;
    var copy := new Value[|items|](k requires 0 <= k < |items| => items[k]);
    copy[index] := Str(value);
    r' := r[parent := Arr(copy[..])];
  }

  /** handleNestedChange: a truthy entry gets one field written; an absent or
      falsy entry leaves the record as it was. */
  function HandleNestedChange(r: Record, name: string, value: string, index: nat, parent: string): (r': Record)
    requires IsList(r, parent)
    requires EntryPresent(r, parent, index) ==> r[parent].items[index].Obj?
    ensures !EntryPresent(r, parent, index) ==> r' == r
    ensures EntryPresent(r, parent, index) ==>
              && OnlyEntryChanged(r, r', parent, index)
              && r'[parent].items[index].Obj?
              && OnlyKeyChanged(r[parent].items[index].fields, r'[parent].items[index].fields, name)
              && r'[parent].items[index].fields[name] == Str(value)
  {
    var items := r[parent].items;
    if EntryPresent(r, parent, index) then
      r[parent := Arr(items[index := Obj(items[index].fields[name := Str(value)])])]
    else
      assert r[parent] == Arr(items);
      r[parent := Arr(items)]
  }

  /** handleNestedArrayChange: one cell of an existing nested list is written. */
  function HandleNestedArrayChange(r: Record, parentIndex: nat, childIndex: nat, parent: string, child: string, value: string): (r': Record)
    requires IsList(r, parent)
    requires NestedPresent(r, parent, parentIndex, child) ==>
               NestedIsList(r, parent, parentIndex, child) && childIndex < |Nested(r, parent, parentIndex, child)|
    ensures !NestedPresent(r, parent, parentIndex, child) ==> r' == r
    ensures NestedPresent(r, parent, parentIndex, child) ==>
              OnlyNestedChanged(r, r', parent, parentIndex, child,
                                Nested(r, parent, parentIndex, child)[childIndex := Str(value)])
  {
    if NestedPresent(r, parent, parentIndex, child) then
      WithNested(r, parent, parentIndex, child, Nested(r, parent, parentIndex, child)[childIndex := Str(value)])
    else
      r
  }

  /** handleNestedAdd: `initialValue` is pushed onto an existing nested list. */
  function HandleNestedAdd(r: Record, parentIndex: nat, parent: string, child: string, initialValue: string): (r': Record)
    requires IsList(r, parent)
    requires NestedPresent(r, parent, parentIndex, child) ==> NestedIsList(r, parent, parentIndex, child)
    ensures !NestedPresent(r, parent, parentIndex, child) ==> r' == r
    ensures NestedPresent(r, parent, parentIndex, child) ==>
              OnlyNestedChanged(r, r', parent, parentIndex, child,
                                Nested(r, parent, parentIndex, child) + [Str(initialValue)])
  {
    if NestedPresent(r, parent, parentIndex, child) then
      WithNested(r, parent, parentIndex, child, Nested(r, parent, parentIndex, child) + [Str(initialValue)])
    else
      r
  }

  /** handleNestedRemove: `splice(childIndex, 1)` on an existing nested list. */
  function HandleNestedRemove(r: Record, parentIndex: nat, childIndex: nat, parent: string, child: string): (r': Record)
    requires IsList(r, parent)
    requires NestedPresent(r, parent, parentIndex, child) ==> NestedIsList(r, parent, parentIndex, child)
    ensures !NestedPresent(r, parent, parentIndex, child) ==> r' == r
    ensures NestedPresent(r, parent, parentIndex, child) ==>
              OnlyNestedChanged(r, r', parent, parentIndex, child,
                                RemoveAt(Nested(r, parent, parentIndex, child), childIndex))
  {
    if NestedPresent(r, parent, parentIndex, child) then
      WithNested(r, parent, parentIndex, child, RemoveAt(Nested(r, parent, parentIndex, child), childIndex))
    else
      r
  }

  /** Adding a nested item and removing the last nested index gives back the
      record: the nested list, its entry and all other fields are as before. */
  lemma NestedAddThenRemove(r: Record, parentIndex: nat, parent: string, child: string, initialValue: string)
    requires NestedIsList(r, parent, parentIndex, child)
    ensures var r1 := HandleNestedAdd(r, parentIndex, parent, child, initialValue);
            IsList(r1, parent) && NestedIsList(r1, parent, parentIndex, child)
            && HandleNestedRemove(r1, parentIndex, |Nested(r, parent, parentIndex, child)|, parent, child) == r
  {
    var list := Nested(r, parent, parentIndex, child);
    var r1 := HandleNestedAdd(r, parentIndex, parent, child, initialValue);
    AppendThenRemoveLast(list, Str(initialValue));
    assert Nested(r1, parent, parentIndex, child) == list + [Str(initialValue)];
    var r2 := HandleNestedRemove(r1, parentIndex, |list|, parent, child);
    assert r2 == WithNested(r1, parent, parentIndex, child, list);
    var items := r[parent].items;
    var fields := items[parentIndex].fields;
    var fields1 := r1[parent].items[parentIndex].fields;
    assert fields1 == fields[child := Arr(list + [Str(initialValue)])];
    assert fields1[child := Arr(list)] == fields;
    assert r1[parent].items[parentIndex := Obj(fields)] == items;
    assert r[parent := Arr(items)] == r;
  }

  /** handleRemove: the list with index `index` spliced out; a field that is
      not an array is replaced by an empty list. */
  function RemoveEntry(r: Record, index: nat, parent: string): (r': Record)
    ensures OnlyKeyChanged(r, r', parent) && r'[parent].Arr?
    ensures IsList(r, parent) ==> r'[parent].items == RemoveAt(r[parent].items, index)
    ensures !IsList(r, parent) ==> r'[parent] == Arr([])
  {
    r[parent := Arr(if IsList(r, parent) then RemoveAt(r[parent].items, index) else [])]
  }

  /** handleRemove as the page runs it: `Array.isArray` picks a copy or an empty
      array, which `splice` then shortens in place. */
  method HandleRemove(r: Record, index: nat, parent: string) returns (r': Record)
    ensures r' == RemoveEntry(r, index, parent)
  {
    var items: seq<Value> := if IsList(r, parent) then r[parent].items else [];
    var spliced := SpliceOut(items, index);
    r' := r[parent := Arr(spliced)];
  }

  /** handleAdd. With a child name, the entry list gains one entry whose only
      field is that nested list holding `initialValue`. Without one, a flat list
      gains one empty string (`initialValue` is not used), and a falsy field
      counts as an empty list. */
  function HandleAdd(r: Record, parent: string, child: Option<string>, initialValue: string): (r': Record)
    requires child.Some? ==> IsList(r, parent)
    requires child.None? && KeyTruthy(r, parent) ==> IsList(r, parent)
    ensures OnlyKeyChanged(r, r', parent) && r'[parent].Arr?
    ensures child.Some? ==>
              r'[parent].items == r[parent].items + [Obj(map[child.value := Arr([Str(initialValue)])])]
    ensures child.None? && IsList(r, parent) ==> r'[parent].items == r[parent].items + [Str("")]
    ensures child.None? && !IsList(r, parent) ==> r'[parent].items == [Str("")]
  {
    match child
    case Some(c) => r[parent := Arr(r[parent].items + [Obj(map[c := Arr([Str(initialValue)])])])]
    case None =>
      var prior := if KeyTruthy(r, parent) then r[parent].items else [];
      r[parent := Arr(prior + [Str("")])]
  }

  /** Adding an item to a flat list and removing its last index gives back the
      record. */
  lemma AddThenRemove(r: Record, parent: string, initialValue: string)
    requires IsList(r, parent)
    ensures RemoveEntry(HandleAdd(r, parent, None, initialValue), |r[parent].items|, parent) == r
  {
    AppendThenRemoveLast(r[parent].items, Str(""));
    assert r[parent := Arr(r[parent].items)] == r;
  }

  // ----- Submit-time validation -----

  datatype Section = WorkExperience | Education

  datatype Rule = StartNotBeforeEnd | EndInFuture | StartInFuture

  /** One date error of the submit check; `entry` is the zero-based index of
      the entry, shown one-based in the message. */
  datatype DateError = DateError(section: Section, entry: nat, rule: Rule)

  function Head(section: Section): string
  {
    match section
    case WorkExperience => "Work experience "
    case Education => "Education "
  }

  function Tail(e: DateError): string
  {
    match e.rule
    case StartNotBeforeEnd =>
      if e.section == WorkExperience then "Start date must be before end date."
      else "Start date must be before graduation date."
    case EndInFuture => "End date cannot be in the future."
    case StartInFuture => "Start date cannot be in the future."
  }

  /** The toast text of an error, with the entry numbered from one: the
      section name, the number, a colon, a space and the rule's text. */
  function Message(e: DateError): string
  {
    Head(e.section) + (DecimalText(e.entry + 1) + ":" + (" " + Tail(e)))
  }

  lemma DigitsThenColon(d1: string, x: string, d2: string, y: string)
    requires AllDigits(d1) && AllDigits(d2)
    requires d1 + ":" + x == d2 + ":" + y
    ensures d1 == d2 && x == y
  {
    var s := d1 + ":" + x;
    assert s[|d1|] == ':' && s[|d2|] == ':';
    assert |d1| < |d2| ==> IsDigit(s[|d1|]);
    assert |d2| < |d1| ==> IsDigit(s[|d2|]);
    assert d1 == s[..|d1|] == d2;
    assert x == s[|d1| + 1..] == y;
  }

  /** Within one section, the three rules have three different texts. */
  lemma TailsDiffer(a: DateError, b: DateError)
    requires a.section == b.section && a.rule != b.rule
    ensures Tail(a) != Tail(b)
  {
    var ta, tb := Tail(a), Tail(b);
    if a.rule.EndInFuture? || b.rule.EndInFuture? {
      assert ta[0] != tb[0];
    } else {
      assert ta[11] != tb[11];
    }
  }

  /** Distinct errors have distinct messages, so the page's set of message
      strings holds exactly one message per error. */
  lemma MessageInjective(a: DateError, b: DateError)
    requires Message(a) == Message(b)
    ensures a == b
  {
    var m := Message(a);
    assert a.section != b.section ==> Head(a.section)[0] != Head(b.section)[0];
    assert m[0] == Head(a.section)[0] && Message(b)[0] == Head(b.section)[0];
    var head := Head(a.section);
    var da, db := DecimalText(a.entry + 1), DecimalText(b.entry + 1);
    var ta, tb := " " + Tail(a), " " + Tail(b);
    assert da + ":" + ta == m[|head|..] == db + ":" + tb;
    DigitsThenColon(da, ta, db, tb);
    DecimalTextInjective(a.entry + 1, b.entry + 1);
    assert Tail(a) == ta[1..] == tb[1..] == Tail(b);
    if a.rule != b.rule {
      TailsDiffer(a, b);
    }
  }

  /** `new Date(entry[key])`: a field that is missing, or an entry that is not
      an object, reads `undefined`, which is an invalid date. */
  function EntryDate(e: Value, key: string, toDate: Value -> Option<int>): Option<int>
  {
    if e.Obj? then DateField(e.fields, key, toDate) else None
  }

  /** `a >= b` on two dates: false when either is invalid. */
  predicate NotBefore(a: Option<int>, b: Option<int>)
  {
    a.Some? && b.Some? && a.value >= b.value
  }

  /** The end field of an entry of each section. */
  function EndKey(section: Section): string
  {
    if section == WorkExperience then "endDate" else "graduationDate"
  }

  /** The two dates the checks of an entry read: its start, and its end or
      graduation date. */
  datatype Span = Span(start: Option<int>, end: Option<int>)

  function SpanOf(section: Section, e: Value, toDate: Value -> Option<int>): Span
  {
    Span(EntryDate(e, "startDate", toDate), EntryDate(e, EndKey(section), toDate))
  }

  /** The spans of every entry of a section, read once. */
  function Spans(section: Section, entries: seq<Value>, toDate: Value -> Option<int>): seq<Span>
  {
    seq(|entries|, k requires 0 <= k < |entries| => SpanOf(section, entries[k], toDate))
  }

  /** Whether an entry of `section` with dates `d` breaks `rule`. Education
      has no end-date rule. */
  predicate Breaks(section: Section, d: Span, rule: Rule, now: int)
  {
    match rule
    case StartNotBeforeEnd => NotBefore(d.start, d.end)
    case EndInFuture => section == WorkExperience && After(d.end, now)
    case StartInFuture => After(d.start, now)
  }

  /** The order in which the page checks an entry's rules. */
  const CheckOrder: seq<Rule> := [StartNotBeforeEnd, EndInFuture, StartInFuture]

  /** The error of one rule, if the entry breaks it. */
  function RuleError(section: Section, i: nat, d: Span, now: int, rule: Rule): seq<DateError>
  {
    if Breaks(section, d, rule, now) then [DateError(section, i, rule)] else []
  }

  /** The errors of entry `i` against `rules`, in the order of `rules`. */
  function RuleErrors(section: Section, i: nat, d: Span, now: int, rules: seq<Rule>): seq<DateError>
  {
    if rules == [] then []
    else RuleError(section, i, d, now, rules[0]) + RuleErrors(section, i, d, now, rules[1..])
  }

  /** The errors of entry `i` in the order the page checks its rules. */
  function EntryErrors(section: Section, i: nat, d: Span, now: int): seq<DateError>
  {
    RuleErrors(section, i, d, now, CheckOrder)
  }

  /** The three checks one after the other. */
  lemma EntryErrorsSteps(section: Section, i: nat, d: Span, now: int)
    ensures EntryErrors(section, i, d, now)
            == RuleError(section, i, d, now, StartNotBeforeEnd)
               + RuleError(section, i, d, now, EndInFuture)
               + RuleError(section, i, d, now, StartInFuture)
  {
    var tail := [EndInFuture, StartInFuture];
    assert CheckOrder[1..] == tail && tail[1..] == [StartInFuture];
    assert RuleErrors(section, i, d, now, [StartInFuture])
           == RuleError(section, i, d, now, StartInFuture) + RuleErrors(section, i, d, now, []);
    assert RuleErrors(section, i, d, now, tail)
           == RuleError(section, i, d, now, EndInFuture) + RuleErrors(section, i, d, now, [StartInFuture]);
  }

  /** The errors of the first `n` entries of a section, given their spans. */
  function SectionErrors(section: Section, spans: seq<Span>, n: nat, now: int): seq<DateError>
    requires n <= |spans|
  {
    if n == 0 then []
    else SectionErrors(section, spans, n - 1, now) + EntryErrors(section, n - 1, spans[n - 1], now)
  }

  /** One more entry adds its own errors after those of the entries before. */
  lemma SectionErrorsNext(section: Section, spans: seq<Span>, n: nat, now: int)
    requires 0 < n <= |spans|
    ensures SectionErrors(section, spans, n, now)
            == SectionErrors(section, spans, n - 1, now) + EntryErrors(section, n - 1, spans[n - 1], now)
  {
  }

  /** The errors the submit check reports, work experience first. */
  function DateErrors(work: seq<Value>, education: seq<Value>, toDate: Value -> Option<int>, now: int): seq<DateError>
  {
    SectionErrors(WorkExperience, Spans(WorkExperience, work, toDate), |work|, now)
    + SectionErrors(Education, Spans(Education, education, toDate), |education|, now)
  }

  /** The order in which errors are reported: by section, then by entry, then
      by rule. */
  function RuleRank(rule: Rule): nat
  {
    match rule
    case StartNotBeforeEnd => 0
    case EndInFuture => 1
    case StartInFuture => 2
  }

  predicate Precedes(a: DateError, b: DateError)
  {
    || (a.section == WorkExperience && b.section == Education)
    || (a.section == b.section && a.entry < b.entry)
    || (a.section == b.section && a.entry == b.entry && RuleRank(a.rule) < RuleRank(b.rule))
  }

  /** Each error precedes the next one. */
  ghost predicate Ordered(errors: seq<DateError>)
  {
    forall j, k :: 0 <= j < k < |errors| && k == j + 1 ==> Precedes(errors[j], errors[k])
  }

  lemma PrecedesTransitive(a: DateError, b: DateError, c: DateError)
    requires Precedes(a, b) && Precedes(b, c)
    ensures Precedes(a, c)
  {
  }

  lemma {:induction false} PrecedesChain(errors: seq<DateError>, a: nat, b: nat)
    requires Ordered(errors) && a < b < |errors|
    ensures Precedes(errors[a], errors[b])
    decreases b - a
  {
    if a + 1 < b {
      PrecedesChain(errors, a, b - 1);
      PrecedesTransitive(errors[a], errors[b - 1], errors[b]);
    }
  }

  /** In an ordered list every error precedes every later one, so no error
      occurs twice. */
  lemma OrderedPairwise(errors: seq<DateError>)
    requires Ordered(errors)
    ensures forall a, b :: 0 <= a < b < |errors| ==> Precedes(errors[a], errors[b])
    ensures forall a, b :: 0 <= a < b < |errors| ==> errors[a] != errors[b]
  {
    forall a, b | 0 <= a < b < |errors|
      ensures Precedes(errors[a], errors[b])
    {
      PrecedesChain(errors, a, b);
    }
  }

  /** Rules listed in strictly increasing rank. */
  predicate RankIncreasing(rules: seq<Rule>)
  {
    forall j, k :: 0 <= j < k < |rules| ==> RuleRank(rules[j]) < RuleRank(rules[k])
  }

  /** Checking an entry against rules of increasing rank reports exactly the
      listed rules it breaks, each naming the entry, in rank order. */
  lemma {:induction false} RuleErrorsSpec(section: Section, i: nat, d: Span, now: int, rules: seq<Rule>)
    requires RankIncreasing(rules)
    ensures var errs := RuleErrors(section, i, d, now, rules);
            && Ordered(errs)
            && (forall x :: x in errs <==>
                  x.section == section && x.entry == i && x.rule in rules && Breaks(section, d, x.rule, now))
  {
    if rules != [] {
      var head := RuleError(section, i, d, now, rules[0]);
      var rest := RuleErrors(section, i, d, now, rules[1..]);
      assert RankIncreasing(rules[1..]) by {
        forall j, k | 0 <= j < k < |rules[1..]|
          ensures RuleRank(rules[1..][j]) < RuleRank(rules[1..][k])
        {
          assert rules[1..][j] == rules[j + 1] && rules[1..][k] == rules[k + 1];
        }
      }
      RuleErrorsSpec(section, i, d, now, rules[1..]);
      if head != [] && rest != [] {
        assert rest[0] in rest;
        var m :| 0 <= m < |rules[1..]| && rules[1..][m] == rest[0].rule;
        assert rules[1..][m] == rules[m + 1];
      }
      OrderedAppend(head, rest);
      forall x: DateError
        ensures x.rule in rules <==> x.rule == rules[0] || x.rule in rules[1..]
      {
        assert rules == [rules[0]] + rules[1..];
      }
    }
  }

  /** One entry's errors are exactly the rules its dates break, in the order
      the page checks them. */
  lemma EntryErrorsSpec(section: Section, i: nat, d: Span, now: int)
    ensures var errs := EntryErrors(section, i, d, now);
            && Ordered(errs)
            && (forall x :: x in errs <==> x.section == section && x.entry == i && Breaks(section, d, x.rule, now))
  {
    RuleErrorsSpec(section, i, d, now, CheckOrder);
    forall r: Rule
      ensures r in CheckOrder
    {
      match r
      case StartNotBeforeEnd => assert CheckOrder[0] == r;
      case EndInFuture => assert CheckOrder[1] == r;
      case StartInFuture => assert CheckOrder[2] == r;
    }
  }

  /** Two ordered lists, the last of the first preceding the head of the
      second, join into an ordered list. */
  lemma OrderedAppend(xs: seq<DateError>, ys: seq<DateError>)
    requires Ordered(xs) && Ordered(ys)
    requires xs != [] && ys != [] ==> Precedes(xs[|xs| - 1], ys[0])
    ensures Ordered(xs + ys)
  {
    var s := xs + ys;
    forall j, k | 0 <= j < k < |s| && k == j + 1
      ensures Precedes(s[j], s[k])
    {
      if k < |xs| {
        assert s[j] == xs[j] && s[k] == xs[k];
      } else if k == |xs| {
        assert s[j] == xs[|xs| - 1] && s[k] == ys[0];
      } else {
        assert s[j] == ys[j - |xs|] && s[k] == ys[k - |xs|];
      }
    }
  }

  /** Error `e` is one that the first `n` entries of its section produce. */
  predicate Due(section: Section, spans: seq<Span>, n: nat, e: DateError, now: int)
    requires n <= |spans|
  {
    e.section == section && e.entry < n && Breaks(section, spans[e.entry], e.rule, now)
  }

  /** A section's errors are exactly the failed checks of its first `n`
      entries. */
  lemma {:induction false} SectionErrorsMembers(section: Section, spans: seq<Span>, n: nat, now: int)
    requires n <= |spans|
    ensures forall e :: e in SectionErrors(section, spans, n, now) <==> Due(section, spans, n, e, now)
  {
    if n > 0 {
      var prior := SectionErrors(section, spans, n - 1, now);
      var last := EntryErrors(section, n - 1, spans[n - 1], now);
      SectionErrorsMembers(section, spans, n - 1, now);
      EntryErrorsSpec(section, n - 1, spans[n - 1], now);
      forall e: DateError
        ensures e in prior + last <==> Due(section, spans, n, e, now)
      {
        assert e in prior <==> Due(section, spans, n - 1, e, now);
      }
    }
  }

  /** Every error in `errors` belongs to `section`, at an entry below `m`. */
  ghost predicate AllBelow(errors: seq<DateError>, section: Section, m: nat)
  {
    forall x :: x in errors ==> x.section == section && x.entry < m
  }

  /** Every error in `errors` belongs to entry `m` of `section`. */
  ghost predicate AllAt(errors: seq<DateError>, section: Section, m: nat)
  {
    forall x :: x in errors ==> x.section == section && x.entry == m
  }

  /** The errors of one entry name that entry and come in rule order. */
  lemma EntryErrorsPlace(section: Section, i: nat, d: Span, now: int)
    ensures Ordered(EntryErrors(section, i, d, now))
    ensures AllAt(EntryErrors(section, i, d, now), section, i)
  {
    EntryErrorsSpec(section, i, d, now);
  }

  /** The errors of the first `n` entries all name one of those entries. */
  lemma {:induction false} SectionErrorsPlace(section: Section, spans: seq<Span>, n: nat, now: int)
    requires n <= |spans|
    ensures AllBelow(SectionErrors(section, spans, n, now), section, n)
  {
    if n > 0 {
      var prior := SectionErrors(section, spans, n - 1, now);
      var last := EntryErrors(section, n - 1, spans[n - 1], now);
      SectionErrorsNext(section, spans, n, now);
      SectionErrorsPlace(section, spans, n - 1, now);
      EntryErrorsPlace(section, n - 1, spans[n - 1], now);
      forall x: DateError | x in prior + last
        ensures x.section == section && x.entry < n
      {
        if x !in prior {
          assert x in last;
        }
      }
    }
  }

  /** Appending the errors of entry `m` to the ordered errors of earlier
      entries keeps the list ordered. */
  lemma OrderedAppendEntry(prior: seq<DateError>, last: seq<DateError>, section: Section, m: nat)
    requires Ordered(prior) && Ordered(last)
    requires AllBelow(prior, section, m) && AllAt(last, section, m)
    ensures Ordered(prior + last)
  {
    if prior != [] && last != [] {
      assert prior[|prior| - 1] in prior && last[0] in last;
    }
    OrderedAppend(prior, last);
  }

  /** A section's errors come ordered by entry, then by rule. */
  lemma {:induction false} SectionErrorsOrdered(section: Section, spans: seq<Span>, n: nat, now: int)
    requires n <= |spans|
    ensures Ordered(SectionErrors(section, spans, n, now))
  {
    if n > 0 {
      var prior := SectionErrors(section, spans, n - 1, now);
      var last := EntryErrors(section, n - 1, spans[n - 1], now);
      SectionErrorsNext(section, spans, n, now);
      SectionErrorsOrdered(section, spans, n - 1, now);
      SectionErrorsPlace(section, spans, n - 1, now);
      EntryErrorsPlace(section, n - 1, spans[n - 1], now);
      OrderedAppendEntry(prior, last, section, n - 1);
    }
  }

  lemma SectionErrorsSpec(section: Section, spans: seq<Span>, n: nat, now: int)
    requires n <= |spans|
    ensures Ordered(SectionErrors(section, spans, n, now))
    ensures forall e :: e in SectionErrors(section, spans, n, now) <==> Due(section, spans, n, e, now)
  {
    SectionErrorsMembers(section, spans, n, now);
    SectionErrorsOrdered(section, spans, n, now);
  }

  /** The reported errors come ordered by section, entry and rule, so none
      is reported twice. */
  lemma DateErrorsOrdered(work: seq<Value>, education: seq<Value>, toDate: Value -> Option<int>, now: int)
    ensures var errs := DateErrors(work, education, toDate, now);
            && (forall a, b :: 0 <= a < b < |errs| ==> Precedes(errs[a], errs[b]))
            && (forall a, b :: 0 <= a < b < |errs| ==> errs[a] != errs[b])
  {
    var workSpans, educationSpans := Spans(WorkExperience, work, toDate), Spans(Education, education, toDate);
    var workErrors := SectionErrors(WorkExperience, workSpans, |work|, now);
    var educationErrors := SectionErrors(Education, educationSpans, |education|, now);
    SectionErrorsOrdered(WorkExperience, workSpans, |work|, now);
    SectionErrorsOrdered(Education, educationSpans, |education|, now);
    SectionErrorsPlace(WorkExperience, workSpans, |work|, now);
    SectionErrorsPlace(Education, educationSpans, |education|, now);
    if workErrors != [] && educationErrors != [] {
      assert workErrors[|workErrors| - 1] in workErrors && educationErrors[0] in educationErrors;
    }
    OrderedAppend(workErrors, educationErrors);
    OrderedPairwise(workErrors + educationErrors);
  }

  /** An error is reported exactly when its entry's dates break its rule. */
  lemma DateErrorsMembers(work: seq<Value>, education: seq<Value>, toDate: Value -> Option<int>, now: int)
    ensures forall e :: e in DateErrors(work, education, toDate, now) <==>
              || (e.section == WorkExperience && e.entry < |work|
                  && Breaks(WorkExperience, SpanOf(WorkExperience, work[e.entry], toDate), e.rule, now))
              || (e.section == Education && e.entry < |education|
                  && Breaks(Education, SpanOf(Education, education[e.entry], toDate), e.rule, now))
  {
    var workSpans, educationSpans := Spans(WorkExperience, work, toDate), Spans(Education, education, toDate);
    var workErrors := SectionErrors(WorkExperience, workSpans, |work|, now);
    var educationErrors := SectionErrors(Education, educationSpans, |education|, now);
    SectionErrorsMembers(WorkExperience, workSpans, |work|, now);
    SectionErrorsMembers(Education, educationSpans, |education|, now);
    forall e: DateError
      ensures e in workErrors + educationErrors <==>
                || (e.section == WorkExperience && e.entry < |work|
                    && Breaks(WorkExperience, SpanOf(WorkExperience, work[e.entry], toDate), e.rule, now))
                || (e.section == Education && e.entry < |education|
                    && Breaks(Education, SpanOf(Education, education[e.entry], toDate), e.rule, now))
    {
      assert e in workErrors <==> Due(WorkExperience, workSpans, |work|, e, now);
      assert e in educationErrors <==> Due(Education, educationSpans, |education|, e, now);
    }
  }

  /** What the page promises of its error set: an error is reported exactly
      when its entry's dates break its rule, errors come ordered by section,
      entry and rule, and no error is reported twice. */
  lemma DateErrorsSpec(work: seq<Value>, education: seq<Value>, toDate: Value -> Option<int>, now: int)
    ensures var errs := DateErrors(work, education, toDate, now);
            && (forall a, b :: 0 <= a < b < |errs| ==> Precedes(errs[a], errs[b]))
            && (forall a, b :: 0 <= a < b < |errs| ==> errs[a] != errs[b])
            && (forall e :: e in errs <==>
                  || (e.section == WorkExperience && e.entry < |work|
                      && Breaks(WorkExperience, SpanOf(WorkExperience, work[e.entry], toDate), e.rule, now))
                  || (e.section == Education && e.entry < |education|
                      && Breaks(Education, SpanOf(Education, education[e.entry], toDate), e.rule, now)))
  {
    DateErrorsOrdered(work, education, toDate, now);
    DateErrorsMembers(work, education, toDate, now);
  }

  /** `errors.add(e)` on a set kept in insertion order. */
  function AddError(errors: seq<DateError>, e: DateError): seq<DateError>
  {
    if e in errors then errors else errors + [e]
  }

  /** The forEach callback over work experience: three checks, each adding
      its error to the set. */
  method CheckWorkEntry(errors: seq<DateError>, i: nat, entry: Value, toDate: Value -> Option<int>, now: int)
    returns (errors': seq<DateError>)
    requires forall x :: x in errors ==> !(x.section == WorkExperience && x.entry == i)
    ensures errors' == errors + EntryErrors(WorkExperience, i, SpanOf(WorkExperience, entry, toDate), now)
  {
    EntryErrorsSteps(WorkExperience, i, SpanOf(WorkExperience, entry, toDate), now);
    errors' := errors;
    var start := EntryDate(entry, "startDate", toDate);
    var end := EntryDate(entry, "endDate", toDate);
    if NotBefore(start, end) {
      errors' := AddError(errors', DateError(WorkExperience, i, StartNotBeforeEnd));
    }
    if After(end, now) {
      errors' := AddError(errors', DateError(WorkExperience, i, EndInFuture));
    }
    if After(start, now) {
      errors' := AddError(errors', DateError(WorkExperience, i, StartInFuture));
    }
  }

  /** The forEach callback over education: two checks. */
  method CheckEducationEntry(errors: seq<DateError>, i: nat, entry: Value, toDate: Value -> Option<int>, now: int)
    returns (errors': seq<DateError>)
    requires forall x :: x in errors ==> !(x.section == Education && x.entry == i)
    ensures errors' == errors + EntryErrors(Education, i, SpanOf(Education, entry, toDate), now)
  {
    EntryErrorsSteps(Education, i, SpanOf(Education, entry, toDate), now);
    errors' := errors;
    var start := EntryDate(entry, "startDate", toDate);
    var graduation := EntryDate(entry, "graduationDate", toDate);
    if NotBefore(start, graduation) {
      errors' := AddError(errors', DateError(Education, i, StartNotBeforeEnd));
    }
    if After(start, now) {
      errors' := AddError(errors', DateError(Education, i, StartInFuture));
    }
  }

  /** No error of entry `i` is among the errors of the entries before it. */
  lemma EntryNotYetReported(errors: seq<DateError>, section: Section, spans: seq<Span>, i: nat, now: int)
    requires i <= |spans| && errors == SectionErrors(section, spans, i, now)
    ensures forall x :: x in errors ==> !(x.section == section && x.entry == i)
  {
    SectionErrorsMembers(section, spans, i, now);
    forall x | x in errors
      ensures !(x.section == section && x.entry == i)
    {
      assert Due(section, spans, i, x, now);
    }
  }

  /** The forEach loop over work experience, from an empty error set. */
  method CollectWorkErrors(work: seq<Value>, toDate: Value -> Option<int>, now: int)
    returns (errors: seq<DateError>)
    ensures errors == SectionErrors(WorkExperience, Spans(WorkExperience, work, toDate), |work|, now)
  {
    ghost var spans := Spans(WorkExperience, work, toDate);
    errors := [];
    var i := 0;
    while i < |work|
      invariant i <= |work|
      invariant errors == SectionErrors(WorkExperience, spans, i, now)
    {
      EntryNotYetReported(errors, WorkExperience, spans, i, now);
      errors := CheckWorkEntry(errors, i, work[i], toDate, now);
      assert spans[i] == SpanOf(WorkExperience, work[i], toDate);
      SectionErrorsNext(WorkExperience, spans, i + 1, now);
      i := i + 1;
    }
  }

  /** No error of education entry `j` is among the errors reported before
      that entry is checked: the work errors belong to the other section. */
  lemma EducationNotYetReported(errors: seq<DateError>, workErrors: seq<DateError>, spans: seq<Span>, j: nat, now: int)
    requires forall x :: x in workErrors ==> x.section == WorkExperience
    requires j <= |spans| && errors == workErrors + SectionErrors(Education, spans, j, now)
    ensures forall x :: x in errors ==> !(x.section == Education && x.entry == j)
  {
    EntryNotYetReported(SectionErrors(Education, spans, j, now), Education, spans, j, now);
  }

  /** The forEach loop over education, adding to the work errors. */
  method CollectEducationErrors(workErrors: seq<DateError>, education: seq<Value>, toDate: Value -> Option<int>, now: int)
    returns (errors: seq<DateError>)
    requires forall x :: x in workErrors ==> x.section == WorkExperience
    ensures errors == workErrors + SectionErrors(Education, Spans(Education, education, toDate), |education|, now)
  {
    ghost var spans := Spans(Education, education, toDate);
    errors := workErrors;
    var j := 0;
    while j < |education|
      invariant j <= |education|
      invariant errors == workErrors + SectionErrors(Education, spans, j, now)
    {
      EducationNotYetReported(errors, workErrors, spans, j, now);
      errors := CheckEducationEntry(errors, j, education[j], toDate, now);
      assert spans[j] == SpanOf(Education, education[j], toDate);
      SectionErrorsNext(Education, spans, j + 1, now);
      j := j + 1;
    }
  }

  /** The two forEach loops of handleSubmit, adding each error to a set. */
  method CollectDateErrors(work: seq<Value>, education: seq<Value>, toDate: Value -> Option<int>, now: int)
    returns (errors: seq<DateError>)
    ensures errors == DateErrors(work, education, toDate, now)
  {
    var workErrors := CollectWorkErrors(work, toDate, now);
    SectionErrorsPlace(WorkExperience, Spans(WorkExperience, work, toDate), |work|, now);
    errors := CollectEducationErrors(workErrors, education, toDate, now);
  }

  /** What submit decides before any request is made. */
  datatype Decision =
    | PhoneRejected
    | DatesRejected(errors: seq<DateError>)
    | Save(verb: HttpMethod, url: string)

  /** The request follows the stored flag as a string: any non-empty stored
      value, "false" included, means an update. */
  function SaveRequest(stored: Option<string>): (d: Decision)
    ensures d.Save?
    ensures d.verb == PUT <==> stored.Some? && stored.value != ""
    ensures d.verb == PUT ==> d.url == "/resume/resume"
    ensures d.verb != PUT ==> d.verb == POST && d.url == "/resume"
  {
    if stored.Some? && stored.value != "" then Save(PUT, "/resume/resume") else Save(POST, "/resume")
  }

  /** handleSubmit up to the request: the phone check comes first, then the
      date checks over both lists; only a record passing both is sent. The
      lists are read only once the phone check passes. */
  method ValidateSubmit(r: Record, toDate: Value -> Option<int>, now: int, stored: Option<string>)
    returns (d: Decision)
    requires "phoneNumber" in r && r["phoneNumber"].Str?
    requires |r["phoneNumber"].s| == 10 ==> IsList(r, "workExperience") && IsList(r, "education")
    ensures |r["phoneNumber"].s| != 10 <==> d == PhoneRejected
    ensures d.DatesRejected? ==> d.errors == DateErrors(r["workExperience"].items, r["education"].items, toDate, now)
                                 && d.errors != []
    ensures d.Save? ==> d == SaveRequest(stored)
                        && DateErrors(r["workExperience"].items, r["education"].items, toDate, now) == []
    ensures |r["phoneNumber"].s| == 10 ==> d.DatesRejected? || d.Save?
  {
    if |r["phoneNumber"].s| != 10 {
      return PhoneRejected;
    }
    var errors := CollectDateErrors(r["workExperience"].items, r["education"].items, toDate, now);
    if |errors| > 0 {
      return DatesRejected(errors);
    }
    d := SaveRequest(stored);
  }

  /** The toasts shown for a rejected submit, one per error. */
  function RejectionToasts(d: Decision): (toasts: seq<Effect>)
    requires !d.Save?
    ensures d.PhoneRejected? ==> toasts == [ToastError("Phone number must be 10 digits long")]
    ensures d.DatesRejected? ==> |toasts| == |d.errors|
    ensures d.DatesRejected? ==> forall i :: 0 <= i < |toasts| ==> toasts[i] == ToastError(Message(d.errors[i]))
  {
    match d
    case PhoneRejected => [ToastError("Phone number must be 10 digits long")]
    case DatesRejected(errors) => seq(|errors|, i requires 0 <= i < |errors| => ToastError(Message(errors[i])))
  }

  /** The reply to the save request: on success the profile flag is stored as
      "true" and the page moves to the profile and reloads; on failure only an
      error toast is shown. */
  method SaveCompleted(store: SessionStore, ok: bool) returns (effects: seq<Effect>)
    modifies store
    ensures ok ==> store.items == old(store.items)[HasProfileKey := "true"]
    ensures !ok ==> store.items == old(store.items)
    ensures ok ==> effects == [ToastSuccess("Profile updated successfully"), Navigate("/dashboard/myprofile"), Reload]
    ensures !ok ==> effects == [ToastError("Failed to update profile. Please try again later.")]
  {
    if ok {
      store.SetItem(HasProfileKey, "true");
      effects := [ToastSuccess("Profile updated successfully"), Navigate("/dashboard/myprofile"), Reload];
    } else {
      effects := [ToastError("Failed to update profile. Please try again later.")];
    }
  }
}
