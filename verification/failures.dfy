/**
 * sift's `ValidationError`: a message plus the path of the offending value,
 * rendered as `"p1.p2: message"`, and the custom-message rules every
 * validator applies to it.
 */
module Failures {
  import opened Wrappers
  import opened Text
  import opened Values

  datatype ValidationError = ValidationError(message: string, path: Path)

  /** What `_validate` does: return a value or raise a `ValidationError`. */
  datatype Outcome = Ok(value: Value) | Err(error: ValidationError)

  /** The text of each path segment, in order. */
  function SegmentTexts(path: Path): (r: seq<string>)
    ensures |r| == |path| && forall i :: 0 <= i < |path| ==> r[i] == SegmentText(path[i])
  {
    if |path| == 0 then [] else [SegmentText(path[0])] + SegmentTexts(path[1..])
  }

  /** `".".join(str(p) for p in path)` */
  function PathText(path: Path): string
  {
    Join(SegmentTexts(path), ".")
  }

  /** `str(e)`: the message, prefixed by the dotted path and `": "` unless that path text is empty. */
  function Render(e: ValidationError): (r: string)
    ensures PathText(e.path) == "" ==> r == e.message
    ensures PathText(e.path) != "" ==> r == PathText(e.path) + ": " + e.message
  {
    var p := PathText(e.path);
    if p == "" then e.message else p + ": " + e.message
  }

  /** `self._custom_error_message or default_message` */
  function Msg(custom: Option<string>, default: string): (r: string)
    ensures custom.Some? && custom.value != "" ==> r == custom.value
    ensures custom.None? || custom.value == "" ==> r == default
  {
    if custom.Some? && custom.value != "" then custom.value else default
  }

  /**
   * `_wrap_error`: with no custom message the error is passed on as it is;
   * otherwise it is replaced by one carrying the custom message and the same path.
   */
  function Wrap(custom: Option<string>, e: ValidationError): (r: ValidationError)
    ensures r.path == e.path
    ensures custom.None? ==> r == e
    ensures custom.Some? ==> r.message == custom.value
  {
    match custom
    case None => e
    case Some(c) => ValidationError(c, e.path)
  }

  /** `_wrap_error` applied to whatever `_validate` raised; a returned value passes through. */
  function WrapOutcome(custom: Option<string>, o: Outcome): (r: Outcome)
    ensures o.Ok? ==> r == o
    ensures o.Err? ==> r.Err? && r.error == Wrap(custom, o.error)
  {
    match o
    case Ok(_) => o
    case Err(e) => Err(Wrap(custom, e))
  }

  /**
   * The rendered path can be split back into its segments' texts when no
   * segment text contains a dot.
   */
  lemma RenderedPathSplits(path: Path)
    requires |path| > 0
    requires forall i :: 0 <= i < |path| ==> '.' !in SegmentText(path[i])
    ensures Split(PathText(path), ".") == SegmentTexts(path)
  {
    var texts := SegmentTexts(path);
    SplitJoin(texts, ".", 0);
  }

  /**
   * A path whose only segment is the empty key renders as the bare message:
   * the path text is empty even though the path is not.
   */
  lemma EmptyKeyRendersBare(message: string)
    ensures Render(ValidationError(message, [Key("")])) == message
  {
    assert SegmentTexts([Key("")]) == [""];
  }

  /** A non-empty first segment always shows up, followed by `": "` and the message. */
  lemma RenderShowsPath(e: ValidationError)
    requires |e.path| > 0 && SegmentText(e.path[0]) != ""
    ensures StartsWith(Render(e), SegmentText(e.path[0]))
    ensures EndsWith(Render(e), ": " + e.message)
  {
    var texts := SegmentTexts(e.path);
    JoinStartsWith(texts, ".");
    LabelledAffixes(PathText(e.path), texts[0], e.message);
  }

  /** `p: message` still starts with whatever `p` starts with and ends with `: message`. */
  lemma LabelledAffixes(p: string, head: string, message: string)
    requires StartsWith(p, head)
    ensures StartsWith(p + ": " + message, head)
    ensures EndsWith(p + ": " + message, ": " + message)
  {
    var r := p + ": " + message;
    assert r[..|head|] == p[..|head|];
    assert r[|r| - |": " + message|..] == ": " + message;
  }

  lemma JoinStartsWith(parts: seq<string>, sep: string)
    requires |parts| > 0
    ensures StartsWith(Join(parts, sep), parts[0])
    ensures |parts[0]| > 0 ==> Join(parts, sep) != ""
  {
    if |parts| > 1 {
      var j := Join(parts, sep);
      assert j == parts[0] + sep + Join(parts[1..], sep);
      assert j[..|parts[0]|] == parts[0];
    }
  }
}
