/**
 * voltar's `ValidationError`: besides its message and path it keeps a
 * field-keyed error map (`errors`, an insertion-ordered dict from a field
 * string to the entry's details) and a list of structured issues. Fields are
 * paths written with `" → "` between segments, `[i]` for an index and
 * `_base` for the root; `_parse_field_to_path` reads them back.
 */
module VoltarErrors {
  import opened Wrappers
  import opened Text
  import opened Values
  import opened Failures

  /** The separator `_format_path` puts between segments. */
  const Arrow: string := " \U{2192} "

  /** `ValidationIssue(code, path, message)`; `expected`/`received` are not modelled. */
  datatype Issue = Issue(code: string, path: Path, message: string)

  /** The dict stored under one field of `errors`: its message and optional description and code. */
  datatype Detail = Detail(message: string, description: Option<string>, code: Option<string>)

  /** One entry of the `errors` dict. */
  datatype Slot = Slot(field: string, detail: Detail)

  /** A value of the `errors` argument: a bare message, or a details dict used as it is. */
  datatype Content = Text(text: string) | Details(detail: Detail)

  /** One `field: content` item of the `errors` argument. */
  datatype FieldError = FieldError(field: string, content: Content)

  /**
   * A constructed error. `shown` is `str(e)`: the text handed to `ValueError`
   * when the object was built; later edits do not change it.
   */
  datatype Report = Report(
    message: string,
    path: Path,
    description: Option<string>,
    code: string,
    errors: seq<Slot>,
    issues: seq<Issue>,
    shown: string)

  /** What an in-place edit leaves behind, and whether it then raised `ValueError`. */
  datatype Edited = Edited(report: Report, raised: bool)

  /** The errors map and issue list while the constructor fills them. */
  datatype Table = Table(errors: seq<Slot>, issues: seq<Issue>)

  /** Python truthiness of an optional string. */
  predicate Truthy(s: Option<string>)
  {
    s.Some? && s.value != ""
  }

  /** `s if s else None`, for the optional keys of a details dict. */
  function IfTruthy(s: Option<string>): (r: Option<string>)
    ensures Truthy(s) ==> r == s
    ensures !Truthy(s) ==> r.None?
  {
    if Truthy(s) then s else None
  }

  /** `code or "custom"` */
  function OrCustom(code: Option<string>): (r: string)
    ensures Truthy(code) ==> r == code.value
    ensures !Truthy(code) ==> r == "custom"
  {
    if Truthy(code) then code.value else "custom"
  }

  /* ----------------------------------------------------------- the map */

  function Fields(errs: seq<Slot>): (r: seq<string>)
    ensures |r| == |errs| && forall i :: 0 <= i < |errs| ==> r[i] == errs[i].field
  {
    if |errs| == 0 then [] else [errs[0].field] + Fields(errs[1..])
  }

  /** `errors.get(field)` */
  function Find(errs: seq<Slot>, field: string): (r: Option<Detail>)
    ensures r.Some? <==> field in Fields(errs)
  {
    if |errs| == 0 then None
    else if errs[0].field == field then Some(errs[0].detail)
    else Find(errs[1..], field)
  }

  /** `errors[field] = d`: an existing field keeps its place, a new one goes last. */
  function Put(errs: seq<Slot>, field: string, d: Detail): (r: seq<Slot>)
    ensures field in Fields(errs) ==> Fields(r) == Fields(errs)
    ensures field !in Fields(errs) ==> r == errs + [Slot(field, d)]
    ensures Find(r, field) == Some(d)
    ensures forall f :: f != field ==> Find(r, f) == Find(errs, f)
  {
    if |errs| == 0 then [Slot(field, d)]
    else if errs[0].field == field then [Slot(field, d)] + errs[1..]
    else
      var t := Put(errs[1..], field, d);
      assert Fields(errs) == [errs[0].field] + Fields(errs[1..]);
      assert Fields([errs[0]] + t) == [errs[0].field] + Fields(t);
      assert ([errs[0]] + t)[1..] == t;
      [errs[0]] + t
  }

  /** A real dict: no field occurs twice. */
  predicate WellKeyed(errs: seq<Slot>)
  {
    Distinct(Fields(errs))
  }

  lemma PutKeepsWellKeyed(errs: seq<Slot>, field: string, d: Detail)
    ensures WellKeyed(errs) ==> WellKeyed(Put(errs, field, d))
  {
    if WellKeyed(errs) && field !in Fields(errs) {
      FieldsSnoc(errs, Slot(field, d));
      DistinctSnoc(Fields(errs), field);
    }
  }

  lemma FieldsSnoc(errs: seq<Slot>, s: Slot)
    ensures Fields(errs + [s]) == Fields(errs) + [s.field]
  {
  }

  lemma DistinctSnoc<T>(xs: seq<T>, x: T)
    requires Distinct(xs) && x !in xs
    ensures Distinct(xs + [x])
  {
  }

  /* --------------------------------------------------------------- paths */

  /** How `_format_path` writes one segment. */
  function Label(seg: Segment): string
  {
    match seg
    case Key(name) => name
    case Index(i) => "[" + IntToString(i) + "]"
  }

  function Labels(path: Path): (r: seq<string>)
    ensures |r| == |path| && forall i :: 0 <= i < |path| ==> r[i] == Label(path[i])
  {
    if |path| == 0 then [] else [Label(path[0])] + Labels(path[1..])
  }

  /** `_format_path` */
  function FormatPath(path: Path): string
  {
    if |path| == 0 then "_base" else Join(Labels(path), Arrow)
  }

  /** `part.startswith("[") and part.endswith("]")`, which needs two characters. */
  predicate Bracketed(part: string)
  {
    |part| >= 2 && part[0] == '[' && part[|part| - 1] == ']'
  }

  /** One part of the arrow form; `None` is the `ValueError` of `int(...)`. */
  function ArrowPart(part: string): Option<Segment>
  {
    if Bracketed(part) then
      match ParseInt(part[1..|part| - 1])
      case None => None
      case Some(n) => Some(Index(n))
    else Some(Key(part))
  }

  function ArrowParts(parts: seq<string>): Option<Path>
  {
    if |parts| == 0 then Some([])
    else match ArrowPart(parts[0])
      case None => None
      case Some(seg) =>
        match ArrowParts(parts[1..])
        case None => None
        case Some(rest) => Some([seg] + rest)
  }

  /** An index of the legacy form: an integer if `int` accepts it, else the text itself. */
  function IndexOrKey(s: string): Segment
  {
    match ParseInt(s)
    case Some(n) => Index(n)
    case None => Key(s)
  }

  /** The pieces after each `[` of a legacy part: those holding a `]` give an index. */
  function IndexParts(pieces: seq<string>): Path
  {
    if |pieces| == 0 then []
    else (if Contains(pieces[0], "]") then [IndexOrKey(Split(pieces[0], "]")[0])] else []) + IndexParts(pieces[1..])
  }

  /** One dot-separated part of the legacy form, such as `items[0]`. */
  function LegacyPart(part: string): Path
  {
    if Contains(part, "[") && Contains(part, "]") then
      var pieces := Split(part, "[");
      (if pieces[0] != "" then [Key(pieces[0])] else []) + IndexParts(pieces[1..])
    else [Key(part)]
  }

  function LegacyParts(parts: seq<string>): Path
  {
    if |parts| == 0 then [] else LegacyPart(parts[0]) + LegacyParts(parts[1..])
  }

  /**
   * `_parse_field_to_path`: `_base` is the root, a field holding the arrow is
   * split on it, anything else is read in the legacy dotted form. `None` is
   * the `ValueError` an arrow part like `[x]` raises.
   */
  function ParseField(field: string): Option<Path>
  {
    if field == "_base" then Some([])
    else if Contains(field, Arrow) then ArrowParts(Split(field, Arrow))
    else Some(LegacyParts(Split(field, ".")))
  }

  /* ------------------------------------------------------- construction */

  /** The `errors` argument, item by item, into the map and the issue list. */
  function AddEntries(given: seq<FieldError>, description: Option<string>, code: Option<string>, t: Table): (r: Option<Table>)
    ensures r.Some? && WellKeyed(t.errors) ==> WellKeyed(r.value.errors)
    ensures r.Some? ==> |t.issues| <= |r.value.issues| && r.value.issues[..|t.issues|] == t.issues
    decreases |given|
  {
    if |given| == 0 then Some(t)
    else
      var item := given[0];
      match item.content
      case Text(s) =>
        (match ParseField(item.field)
         case None => None
         case Some(p) =>
           PutKeepsWellKeyed(t.errors, item.field, Detail(s, IfTruthy(description), None));
           var r := AddEntries(given[1..], description, code,
             Table(Put(t.errors, item.field, Detail(s, IfTruthy(description), None)), t.issues + [Issue(OrCustom(code), p, s)]));
           assert r.Some? ==> r.value.issues[..|t.issues|] == (t.issues + [Issue(OrCustom(code), p, s)])[..|t.issues|];
           r)
      case Details(d) =>
        PutKeepsWellKeyed(t.errors, item.field, d);
        var errs := Put(t.errors, item.field, d);
        if |t.issues| > 0 then AddEntries(given[1..], description, code, Table(errs, t.issues))
        else
          match ParseField(item.field)
          case None => None
          case Some(p) =>
            var issue := Issue(if d.code.Some? then d.code.value else OrCustom(code), p, d.message);
            AddEntries(given[1..], description, code, Table(errs, [issue]))
  }

  /**
   * `ValidationError(message, path, errors, description, code, issues=issues)`.
   * `None` is a `ValueError` raised while parsing a field of `errors`.
   */
  function Construct(message: string, path: Path, given: seq<FieldError>, description: Option<string>, code: Option<string>, issues: seq<Issue>): (r: Option<Report>)
    ensures r.Some? ==> WellKeyed(r.value.errors) && r.value.shown == FormatErrorMessage(r.value.errors)
    ensures r.Some? ==> r.value.message == message && r.value.path == path && r.value.code == OrCustom(code)
    ensures given == [] ==> r.Some?
  {
    match AddEntries(given, description, code, Table([], issues))
    case None => None
    case Some(t) =>
      var t' :=
        if message != "" && |t.issues| == 0 then
          var d := Detail(message, IfTruthy(description), IfTruthy(code));
          PutKeepsWellKeyed(t.errors, FormatPath(path), d);
          Table(Put(t.errors, FormatPath(path), d), [Issue(OrCustom(code), path, message)])
        else t;
      Some(Report(message, path, description, OrCustom(code), t'.errors, t'.issues, FormatErrorMessage(t'.errors)))
  }

  /* ----------------------------------------------------------- rendering */

  /** `"field: message"`, with `" (description)"` when the description is truthy. */
  function Line(s: Slot): string
  {
    s.field + ": " + s.detail.message + (if Truthy(s.detail.description) then " (" + s.detail.description.value + ")" else "")
  }

  function Lines(errs: seq<Slot>): (r: seq<string>)
    ensures |r| == |errs| && forall i :: 0 <= i < |errs| ==> r[i] == Line(errs[i])
  {
    if |errs| == 0 then [] else [Line(errs[0])] + Lines(errs[1..])
  }

  /** `_format_error_message` */
  function FormatErrorMessage(errs: seq<Slot>): string
  {
    if |errs| == 0 then "Validation failed" else Join(Lines(errs), "\n")
  }

  /* ---------------------------------------------------------------- edits */

  /**
   * `add_error`: the entry is written first; parsing the field for the new
   * issue may then raise, leaving the entry in place and no new issue.
   */
  function AddError(r: Report, field: string, message: string, description: Option<string>, code: Option<string>): (e: Edited)
    ensures e.report.errors == Put(r.errors, field, Detail(message, IfTruthy(description), IfTruthy(code)))
    ensures e.raised <==> ParseField(field).None?
    ensures e.raised ==> e.report.issues == r.issues
    ensures !e.raised ==> e.report.issues == r.issues + [Issue(OrCustom(code), ParseField(field).value, message)]
    ensures e.report.(errors := r.errors, issues := r.issues) == r
  {
    var errs := Put(r.errors, field, Detail(message, IfTruthy(description), IfTruthy(code)));
    match ParseField(field)
    case None => Edited(r.(errors := errs), true)
    case Some(p) => Edited(r.(errors := errs, issues := r.issues + [Issue(OrCustom(code), p, message)]), false)
  }

  /** `add_issue`: the issue is appended and its path's field is (re)written with its message and code. */
  function AddIssue(r: Report, issue: Issue): (e: Report)
    ensures e.issues == r.issues + [issue]
    ensures Find(e.errors, FormatPath(issue.path)) == Some(Detail(issue.message, None, Some(issue.code)))
    ensures forall f :: f != FormatPath(issue.path) ==> Find(e.errors, f) == Find(r.errors, f)
    ensures e.(errors := r.errors, issues := r.issues) == r
  {
    r.(issues := r.issues + [issue], errors := Put(r.errors, FormatPath(issue.path), Detail(issue.message, None, Some(issue.code))))
  }

  /* ------------------------------------------------------------- wrapping */

  /** The `errors` argument `_wrap_error` builds: every field of `errs` with the custom message. */
  function Rewritten(errs: seq<Slot>, custom: string, description: Option<string>): (r: seq<FieldError>)
    ensures |r| == |errs|
    ensures forall i :: 0 <= i < |errs| ==> r[i] == FieldError(errs[i].field, Details(Detail(custom, IfTruthy(description), None)))
  {
    if |errs| == 0 then []
    else [FieldError(errs[0].field, Details(Detail(custom, IfTruthy(description), None)))] + Rewritten(errs[1..], custom, description)
  }

  /**
   * voltar's `_wrap_error`: no custom message leaves the error alone; several
   * entries are rebuilt from an `errors` dict carrying the custom message;
   * otherwise a fresh error with the custom message at the same path.
   */
  function WrapError(custom: Option<string>, e: Report): Option<Report>
  {
    match custom
    case None => Some(e)
    case Some(c) =>
      if |e.errors| > 1 then Construct("", [], Rewritten(e.errors, c, e.description), None, None, [])
      else Construct(c, e.path, [], e.description, None, [])
  }

  /** The voltar error a validator raises as `ValidationError(message, path)`. */
  function Lift(e: ValidationError): Report
  {
    Construct(e.message, e.path, [], None, None, []).value
  }
}
