/** The validation layer the wizards rely on: a Yup test failure (`Issue`), Formik's conversion of
    the failures into its `errors` record, and the Yup field rules the schemas use, restated as
    predicates over JavaScript values. */
module Validation {
  import opened Options
  import opened Js

  /** One failed test: the path it reports under (`None` for a test declared on the schema's root
      object) and its message. */
  datatype Issue = Issue(path: Option<string>, message: string)

  /** The paths the issues report under. */
  function PathsOf(issues: seq<Issue>): set<string> {
    if issues == [] then {}
    else (if issues[0].path.Some? then {issues[0].path.value} else {}) + PathsOf(issues[1..])
  }

  /** Every issue reports under a path, so each one reaches the errors record. */
  predicate OnPaths(issues: seq<Issue>) {
    issues == [] || (issues[0].path.Some? && OnPaths(issues[1..]))
  }

  /** The message of the first issue reported under `k`. */
  function FirstMessage(issues: seq<Issue>, k: string): string {
    if issues == [] then ""
    else if issues[0].path == Some(k) then issues[0].message
    else FirstMessage(issues[1..], k)
  }

  /** Formik's `yupToFormErrors`: each path keeps the message of its first issue, and an issue
      without a path is dropped, because looking up the missing path in the record under
      construction yields the record itself, which counts as already set. */
  function FormErrors(issues: seq<Issue>): (e: map<string, string>)
    ensures e.Keys == PathsOf(issues)
    ensures forall k :: k in e ==> e[k] == FirstMessage(issues, k)
  {
    if issues == [] then map[]
    else
      var rest := FormErrors(issues[1..]);
      match issues[0].path
      case Some(k) => rest[k := issues[0].message]
      case None => rest
  }

  /** The errors record is empty exactly when no issue carries a path: issues on the root
      object alone never block anything. */
  lemma {:induction false} FormErrorsEmptyIff(issues: seq<Issue>)
    ensures |FormErrors(issues)| == 0 <==> forall i :: 0 <= i < |issues| ==> issues[i].path.None?
  {
    if issues != [] {
      FormErrorsEmptyIff(issues[1..]);
      assert forall i :: 0 < i < |issues| ==> issues[i] == issues[1..][i - 1];
      if issues[0].path.Some? {
        assert issues[0].path.value in FormErrors(issues);
      }
    }
  }

  /** With every issue on a path, the errors record is empty exactly when there are none. */
  lemma {:induction false} OnPathsBlock(issues: seq<Issue>)
    requires OnPaths(issues)
    ensures |FormErrors(issues)| == 0 <==> issues == []
  {
    if issues != [] {
      assert issues[0].path.value in FormErrors(issues);
    }
  }

  /** Issues without a path, appended after others, leave the errors record unchanged. */
  lemma {:induction false} FormErrorsIgnoresRoot(a: seq<Issue>, b: seq<Issue>)
    requires forall i :: 0 <= i < |b| ==> b[i].path.None?
    ensures FormErrors(a + b) == FormErrors(a)
  {
    if a == [] {
      FormErrorsEmptyIff(b);
      assert a + b == b;
    } else {
      FormErrorsIgnoresRoot(a[1..], b);
      assert (a + b)[1..] == a[1..] + b;
    }
  }

  lemma {:induction false} PathsOfConcat(a: seq<Issue>, b: seq<Issue>)
    ensures PathsOf(a + b) == PathsOf(a) + PathsOf(b)
  {
    if a != [] {
      PathsOfConcat(a[1..], b);
      assert (a + b)[1..] == a[1..] + b;
    } else {
      assert a + b == b;
    }
  }

  lemma {:induction false} OnPathsConcat(a: seq<Issue>, b: seq<Issue>)
    requires OnPaths(a) && OnPaths(b)
    ensures OnPaths(a + b)
  {
    if a != [] {
      OnPathsConcat(a[1..], b);
      assert (a + b)[1..] == a[1..] + b;
    } else {
      assert a + b == b;
    }
  }

  /** Issues under other paths placed first do not change the first message of `k`. */
  lemma {:induction false} FirstMessageSkip(a: seq<Issue>, b: seq<Issue>, k: string)
    requires k !in PathsOf(a)
    ensures FirstMessage(a + b, k) == FirstMessage(b, k)
  {
    if a != [] {
      FirstMessageSkip(a[1..], b, k);
      assert (a + b)[1..] == a[1..] + b;
    } else {
      assert a + b == b;
    }
  }

  /** A path with an issue gets that issue's message, so non-empty messages stay non-empty. */
  lemma {:induction false} FirstMessageNonEmpty(issues: seq<Issue>, k: string)
    requires k in PathsOf(issues)
    requires forall i :: 0 <= i < |issues| ==> issues[i].message != ""
    ensures FirstMessage(issues, k) != ""
  {
    if issues[0].path != Some(k) {
      FirstMessageNonEmpty(issues[1..], k);
    }
  }

  /** A field test placed after issues on other paths is reported under its own path, with
      its own message, exactly when it fails. */
  lemma TrailingFieldMessage(f: seq<Issue>, fails: bool, k: string, m: string)
    requires k !in PathsOf(f)
    ensures var e := FormErrors(Join5(f, FieldIssue(fails, k, m), [], [], []));
      (k in e <==> fails) && (fails ==> e[k] == m)
  {
    var t := FieldIssue(fails, k, m);
    assert Join5(f, t, [], [], []) == f + t;
    FirstMessageSkip(f, t, k);
  }

  /** The issues of up to five tests, in order; a schema with more tests nests them. */
  function Join5(a: seq<Issue>, b: seq<Issue>, c: seq<Issue>, d: seq<Issue>, e: seq<Issue>): (r: seq<Issue>)
    ensures PathsOf(r) == PathsOf(a) + PathsOf(b) + PathsOf(c) + PathsOf(d) + PathsOf(e)
    ensures OnPaths(a) && OnPaths(b) && OnPaths(c) && OnPaths(d) && OnPaths(e) ==> OnPaths(r)
    ensures r == [] <==> a == [] && b == [] && c == [] && d == [] && e == []
  {
    Concat5Facts(a, b, c, d, e);
    a + b + c + d + e
  }

  lemma Concat5Facts(a: seq<Issue>, b: seq<Issue>, c: seq<Issue>, d: seq<Issue>, e: seq<Issue>)
    ensures PathsOf(a + b + c + d + e) == PathsOf(a) + PathsOf(b) + PathsOf(c) + PathsOf(d) + PathsOf(e)
    ensures OnPaths(a) && OnPaths(b) && OnPaths(c) && OnPaths(d) && OnPaths(e) ==> OnPaths(a + b + c + d + e)
  {
    PathsOfConcat(a, b);
    PathsOfConcat(a + b, c);
    PathsOfConcat(a + b + c, d);
    PathsOfConcat(a + b + c + d, e);
    if OnPaths(a) && OnPaths(b) && OnPaths(c) && OnPaths(d) && OnPaths(e) {
      OnPathsConcat(a, b);
      OnPathsConcat(a + b, c);
      OnPathsConcat(a + b + c, d);
      OnPathsConcat(a + b + c + d, e);
    }
  }

  /** Issue list for one field: the field's message when `fails`, nothing otherwise. */
  function FieldIssue(fails: bool, path: string, message: string): (r: seq<Issue>)
    ensures !fails <==> r == []
    ensures fails ==> r == [Issue(Some(path), message)]
    ensures PathsOf(r) <= {path} && (path in PathsOf(r) <==> fails)
    ensures OnPaths(r)
  {
    if fails then [Issue(Some(path), message)] else []
  }

  // ---------------------------------------------------------------- Yup field rules

  /** `Yup.string()` accepts the value: strings, and numbers and booleans, which it converts;
      `nullable()` adds null, and undefined is always accepted when not required. */
  predicate IsStringLike(v: Value) {
    v.Str? || v.Num? || v.NaN? || v.Bool?
  }

  /** `Yup.string().required()`, after Formik has turned `''` into undefined. */
  predicate RequiredString(v: Value) {
    IsStringLike(v) && v != Str("")
  }

  /** `Yup.string().nullable()` */
  predicate NullableString(v: Value) {
    v.Undefined? || v.Null? || IsStringLike(v)
  }

  /** `s.replace(/\s/g, '')` */
  function RemoveSpaces(s: string): (r: string)
    ensures forall i :: 0 <= i < |r| ==> !IsSpace(r[i])
  {
    if s == [] then []
    else (if IsSpace(s[0]) then [] else [s[0]]) + RemoveSpaces(s[1..])
  }

  /** The value `Yup.number()` validates. Formik hands the empty string over as undefined; other
      strings are stripped of white space and read with `Number()`, one of only white space
      becoming NaN; values of other types that are not numbers are NaN. */
  function NumberCast(v: Value): (r: Value)
    ensures r.Undefined? || r.Null? || r.Num? || r.NaN?
    ensures v.Num? ==> r == v
  {
    match v
    case Undefined => Undefined
    case Null => Null
    case Num(_) => v
    case Str(s) =>
      if s == "" then Undefined
      else var t := RemoveSpaces(s); if t == "" then NaN else NumberOfString(t)
    case _ => NaN
  }

  /** `Yup.number().nullable()` */
  predicate NullableNumber(v: Value) {
    var c := NumberCast(v);
    c.Undefined? || c.Null? || c.Num?
  }

  /** `Yup.number().required().positive().integer()` */
  predicate PositiveInteger(v: Value) {
    var c := NumberCast(v);
    c.Num? && c.n > 0
  }

  /** `Yup.array()` (not nullable): an array or nothing (Formik passes `''` as nothing). */
  predicate ArrayOrAbsent(v: Value) {
    v.Undefined? || v == Str("") || v.Arr?
  }

  /** `Yup.string().oneOf(options).required()` */
  predicate OneOf(v: Value, options: seq<string>) {
    v.Str? && v.s in options
  }

  // ---------------------------------------------------------------- per-field issues

  /** Yup's type-error message for a field, paraphrased. */
  function TypeErrorMessage(path: string): string {
    path + " has the wrong type"
  }

  /** The issue of a `Yup.string().nullable()` field: only a value of the wrong type fails. */
  function NullableStringIssue(v: Record, k: string): (r: seq<Issue>)
    ensures r == [] <==> NullableString(Field(v, k))
    ensures PathsOf(r) <= {k} && (k in PathsOf(r) <==> r != [])
    ensures OnPaths(r)
  {
    FieldIssue(!NullableString(Field(v, k)), k, TypeErrorMessage(k))
  }

  /** The issue of a `Yup.string().required(message)` field: the required message when the
      field is missing or empty, a type error when it is an array or object. */
  function RequiredStringIssue(v: Record, k: string, message: string): (r: seq<Issue>)
    ensures r == [] <==> RequiredString(Field(v, k))
    ensures PathsOf(r) <= {k} && (k in PathsOf(r) <==> r != [])
    ensures OnPaths(r)
    ensures |r| == 1 && !Field(v, k).Arr? && !Field(v, k).Obj? ==> r[0].message == message
  {
    var x := Field(v, k);
    FieldIssue(!RequiredString(x), k, if x.Arr? || x.Obj? then TypeErrorMessage(k) else message)
  }

  /** The issue of a `Yup.number().nullable()` field. */
  function NullableNumberIssue(v: Record, k: string): (r: seq<Issue>)
    ensures r == [] <==> NullableNumber(Field(v, k))
    ensures PathsOf(r) <= {k} && (k in PathsOf(r) <==> r != [])
    ensures OnPaths(r)
  {
    FieldIssue(!NullableNumber(Field(v, k)), k, TypeErrorMessage(k))
  }

  /** The issue of a `Yup.array()` field. */
  function ArrayIssue(v: Record, k: string): (r: seq<Issue>)
    ensures r == [] <==> ArrayOrAbsent(Field(v, k))
    ensures PathsOf(r) <= {k} && (k in PathsOf(r) <==> r != [])
    ensures OnPaths(r)
  {
    FieldIssue(!ArrayOrAbsent(Field(v, k)), k, TypeErrorMessage(k))
  }
}
