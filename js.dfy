/** The JavaScript values, truthiness rules and browser effects that the pages
    of the client share. Form state that the pages edit with object spreads is a
    `Record`: one key namespace, as a JavaScript object has. */
module Js {

  datatype Option<+T> = None | Some(value: T)

  /** A JSON-like JavaScript value. Numbers are integers: no NaN, no fractions. */
  datatype Value =
    | Null
    | Bool(b: bool)
    | Num(n: int)
    | Str(s: string)
    | Arr(items: seq<Value>)
    | Obj(fields: map<string, Value>)

  /** A plain JavaScript object used as form state. */
  type Record = map<string, Value>

  /** JavaScript truthiness; arrays and objects are truthy even when empty. */
  predicate Truthy(v: Value)
  {
    match v
    case Null => false
    case Bool(b) => b
    case Num(n) => n != 0
    case Str(s) => s != ""
    case Arr(_) => true
    case Obj(_) => true
  }

  /** `r[k]` used as a condition: a missing key reads `undefined`, which is falsy. */
  /** axios's default `validateStatus`: a reply resolves the request only
      with a 2xx status; any other status rejects it. */
  predicate Resolves(status: int)
  {
    200 <= status < 300
  }

  predicate KeyTruthy(r: Record, k: string)
  {
    k in r && Truthy(r[k])
  }

  /** The field `k` holds an array. */
  predicate IsList(r: Record, k: string)
  {
    k in r && r[k].Arr?
  }

  /** The field `k` holds an object. */
  predicate IsGroup(r: Record, k: string)
  {
    k in r && r[k].Obj?
  }

  /** A list of strings as the array of string values the forms hold. */
  function Strs(items: seq<string>): (r: seq<Value>)
    ensures |r| == |items|
    ensures forall i :: 0 <= i < |items| ==> r[i] == Str(items[i])
  {
    if items == [] then [] else [Str(items[0])] + Strs(items[1..])
  }

  /** `String(n)` for a natural number: its decimal digits. */
  function DecimalText(n: nat): (s: string)
    ensures s != [] && AllDigits(s)
  {
    var d := ['0' + (n % 10) as char];
    if n < 10 then d else DecimalText(n / 10) + d
  }

  /** Distinct numbers have distinct decimal texts. */
  lemma {:induction false} DecimalTextInjective(n: nat, m: nat)
    requires DecimalText(n) == DecimalText(m)
    ensures n == m
  {
    var s := DecimalText(n);
    if n >= 10 {
      assert |DecimalText(n / 10)| >= 1;
    }
    if m >= 10 {
      assert |DecimalText(m / 10)| >= 1;
    }
    if n >= 10 && m >= 10 {
      assert DecimalText(n / 10) == s[..|s| - 1] == DecimalText(m / 10);
      DecimalTextInjective(n / 10, m / 10);
    }
    assert s[|s| - 1] == '0' + (n % 10) as char == '0' + (m % 10) as char;
  }

  /** `{ ...r, [k]: v }` changed key `k` and nothing else. */
  ghost predicate OnlyKeyChanged(r: Record, r': Record, k: string)
  {
    && r'.Keys == r.Keys + {k}
    && forall k' :: k' in r && k' != k ==> r'[k'] == r[k']
  }

  /** The characters matched by `\s` in a regular expression and removed by
      `String.prototype.trim`: WhiteSpace and LineTerminator of ECMAScript. */
  predicate IsSpace(c: char)
  {
    || c == ' ' || c == '\t' || c == '\n' || c == '\r' || c == '\U{000B}' || c == '\U{000C}'
    || c == '\U{00A0}' || c == '\U{1680}' || ('\U{2000}' <= c <= '\U{200A}')
    || c == '\U{2028}' || c == '\U{2029}' || c == '\U{202F}' || c == '\U{205F}'
    || c == '\U{3000}' || c == '\U{FEFF}'
  }

  /** `\d` in a regular expression: an ASCII decimal digit. */
  predicate IsDigit(c: char)
  {
    '0' <= c <= '9'
  }

  predicate AllDigits(s: string)
  {
    forall i :: 0 <= i < |s| ==> IsDigit(s[i])
  }

  function TrimStart(s: string): (r: string)
    ensures |r| <= |s|
    ensures r == s[|s| - |r|..]
    ensures r != [] ==> !IsSpace(r[0])
    ensures forall i :: 0 <= i < |s| - |r| ==> IsSpace(s[i])
  {
    if s != [] && IsSpace(s[0]) then TrimStart(s[1..]) else s
  }

  function TrimEnd(s: string): (r: string)
    ensures |r| <= |s|
    ensures r == s[..|r|]
    ensures r != [] ==> !IsSpace(r[|r| - 1])
    ensures forall i :: |r| <= i < |s| ==> IsSpace(s[i])
  {
    if s != [] && IsSpace(s[|s| - 1]) then TrimEnd(s[..|s| - 1]) else s
  }

  /** `!isNaN(value)` for the text of a code cell: after trimming white space the
      text is empty (which converts to 0) or a run of decimal digits. */
  predicate IsNumericText(value: string)
  {
    AllDigits(TrimEnd(TrimStart(value)))
  }

  /** On the one-character texts a cell with maxLength 1 can hold, `!isNaN`
      accepts exactly the empty text, a digit and a white-space character. */
  lemma {:induction false} NumericCellText(value: string)
    requires |value| <= 1
    ensures IsNumericText(value) <==> value == "" || IsDigit(value[0]) || IsSpace(value[0])
  {
    if |value| == 1 {
      if IsSpace(value[0]) {
        assert TrimStart(value) == TrimStart(value[1..]);
        assert value[1..] == "";
      } else {
        assert TrimStart(value) == value;
        assert TrimEnd(value) == value;
      }
    }
  }

  /** A date read from field `k`, `toDate` standing for `new Date` or
      `Date.parse`; None is an invalid date. A missing key reads `undefined`,
      which is an invalid date. */
  function DateField(r: Record, k: string, toDate: Value -> Option<int>): Option<int>
  {
    if k in r then toDate(r[k]) else None
  }

  /** `d > now`; every comparison with an invalid date (NaN) is false. */
  predicate After(d: Option<int>, now: int)
  {
    d.Some? && d.value > now
  }

  /** `d <= now`; false for an invalid date, so an invalid date is neither
      after nor at-or-before `now`. */
  predicate NotAfter(d: Option<int>, now: int)
  {
    d.Some? && d.value <= now
  }

  datatype HttpMethod = GET | POST | PUT | DELETE

  /** What a handler does outside its own state, in the order it does it. */
  datatype Effect =
    | Navigate(path: string)        // client-side navigation of the router
    | Assign(href: string)          // a full page load through window.location.href
    | Reload                        // window.location.reload()
    | Send(verb: HttpMethod, url: string)
    | ToastSuccess(message: string)
    | ToastError(message: string)
}
