/**
 * What voltar's error object promises: the path formatter and parser undo
 * each other on paths whose keys cannot be mistaken for separators or
 * indices, a message-only error has one entry and one issue naming the same
 * path, the rendered text has one line per entry, edits overwrite an entry
 * while the issue list grows, and `_wrap_error` keeps the shape of the error.
 */
module VoltarErrorProps {
  import opened Wrappers
  import opened Text
  import opened Values
  import opened Failures
  import opened VoltarErrors

  /* ------------------------------------------------------ path round trip */

  /** A segment of a path of two or more: no arrow character, and a key that does not look like `[...]`. */
  predicate ArrowSafe(seg: Segment)
  {
    seg.Key? ==> '\U{2192}' !in seg.name && !Bracketed(seg.name)
  }

  /** The only segment of a path: a key that reads back through the legacy dotted form. */
  predicate LoneSafe(seg: Segment)
  {
    seg.Key? ==> && seg.name != "_base" && '\U{2192}' !in seg.name && '.' !in seg.name
                 && !('[' in seg.name && ']' in seg.name)
  }

  /** The paths `_parse_field_to_path` reads back from `_format_path`. */
  predicate Parsable(path: Path)
  {
    if |path| == 1 then LoneSafe(path[0]) else forall i :: 0 <= i < |path| ==> ArrowSafe(path[i])
  }

  /**
   * `_parse_field_to_path(_format_path(p)) == p`: the root is `_base`, a
   * single segment goes through the legacy form, a longer path is split on
   * the arrow and each `[i]` parses back to `i`.
   */
  lemma PathRoundTrip(path: Path)
    requires Parsable(path)
    ensures ParseField(FormatPath(path)) == Some(path)
  {
    if |path| == 1 {
      LoneRoundTrip(path[0]);
      assert Labels(path) == [Label(path[0])];
      assert FormatPath(path) == Label(path[0]);
      assert path == [path[0]];
    } else if |path| >= 2 {
      LongRoundTrip(path);
    }
  }

  lemma LongRoundTrip(path: Path)
    requires |path| >= 2 && forall i :: 0 <= i < |path| ==> ArrowSafe(path[i])
    ensures ParseField(FormatPath(path)) == Some(path)
  {
    var labels := Labels(path);
    var rest := Join(labels[1..], Arrow);
    var field := FormatPath(path);
    assert field == labels[0] + Arrow + rest;
    LabelsLackArrow(path);
    FirstOccurrenceAfter(labels[0], Arrow, rest, 1);
    assert Contains(field, Arrow);
    assert field[|labels[0]| + 1] == '\U{2192}';
    NotRoot(field, |labels[0]| + 1);
    SplitJoin(labels, Arrow, 1);
    ArrowPartsOfLabels(path);
  }

  /** No label of an arrow-safe path holds the arrow character. */
  lemma LabelsLackArrow(path: Path)
    requires forall i :: 0 <= i < |path| ==> ArrowSafe(path[i])
    ensures forall i :: 0 <= i < |path| ==> '\U{2192}' !in Labels(path)[i]
  {
    forall i | 0 <= i < |path|
      ensures '\U{2192}' !in Labels(path)[i]
    {
      if path[i].Index? {
        IntToStringChars(path[i].index);
      }
    }
  }

  /** A field with the arrow character or a `[` somewhere is not the root's `_base`. */
  lemma NotRoot(field: string, i: nat)
    requires i < |field| && (field[i] == '\U{2192}' || field[i] == '[')
    ensures field != "_base"
  {
  }

  /** Each label of an arrow-safe path reads back as its segment. */
  lemma {:induction false} ArrowPartsOfLabels(path: Path)
    requires forall i :: 0 <= i < |path| ==> ArrowSafe(path[i])
    ensures ArrowParts(Labels(path)) == Some(path)
    decreases |path|
  {
    if |path| > 0 {
      LabelParses(path[0]);
      ArrowPartsOfLabels(path[1..]);
      assert Labels(path) == [Label(path[0])] + Labels(path[1..]);
      ArrowPartsCons(Label(path[0]), Labels(path[1..]));
      ConsSplit(path);
    }
  }

  lemma ArrowPartsCons(x: string, xs: seq<string>)
    requires ArrowPart(x).Some? && ArrowParts(xs).Some?
    ensures ArrowParts([x] + xs) == Some([ArrowPart(x).value] + ArrowParts(xs).value)
  {
    assert ([x] + xs)[0] == x;
    assert ([x] + xs)[1..] == xs;
  }

  lemma ConsSplit<T>(s: seq<T>)
    requires |s| > 0
    ensures [s[0]] + s[1..] == s
  {
  }

  lemma LabelParses(seg: Segment)
    requires ArrowSafe(seg)
    ensures ArrowPart(Label(seg)) == Some(seg)
  {
    if seg.Index? {
      var t := IntToString(seg.index);
      var l := Label(seg);
      assert l[1..|l| - 1] == t;
      ParseIntToString(seg.index);
    }
  }

  /** Splitting on a one-character separator absent from the first part. */
  lemma SplitAtFirst(a: string, c: char, rest: string)
    requires c !in a
    ensures Split(a + [c] + rest, [c]) == [a] + Split(rest, [c])
  {
    FirstOccurrenceAfter(a, [c], rest, 0);
    var s := a + [c] + rest;
    assert s[..|a|] == a;
    assert s[|a| + 1..] == rest;
  }

  lemma SplitNone(s: string, c: char)
    requires c !in s
    ensures Split(s, [c]) == [s]
  {
    NoOccurrence(s, [c], 0);
  }

  /** A one-segment path is written without the arrow and read back in the legacy form. */
  lemma LoneRoundTrip(seg: Segment)
    requires LoneSafe(seg)
    ensures ParseField(Label(seg)) == Some([seg])
  {
    match seg
    case Key(s) =>
      assert Arrow[1] == '\U{2192}';
      NoOccurrence(s, Arrow, 1);
      assert !Contains(s, Arrow);
      SplitNone(s, '.');
      assert Split(s, ".") == [s];
      ContainsChar(s, '[');
      ContainsChar(s, ']');
      assert LegacyPart(s) == [Key(s)];
      assert LegacyParts([s]) == LegacyPart(s) + LegacyParts([]);
      assert ParseField(s) == Some(LegacyParts([s]));
      assert LegacyParts([s]) == [Key(s)];
      assert Label(seg) == s;
    case Index(i) =>
      LoneIndex(i);
  }

  lemma LoneIndex(i: int)
    ensures ParseField(Label(Index(i))) == Some([Index(i)])
  {
    var t := IntToString(i);
    var field := Label(Index(i));
    IntToStringChars(i);
    assert field == "[" + t + "]";
    NotRoot(field, 0);
    assert Arrow[1] == '\U{2192}' && '\U{2192}' !in field && '.' !in field;
    NoOccurrence(field, Arrow, 1);
    SplitNone(field, '.');
    assert Split(field, ".") == [field];
    assert LegacyParts([field]) == LegacyPart(field) + LegacyParts([]);
    IndexLegacy(t, i);
    assert LegacyParts([field]) == [Index(i)];
  }

  /** The legacy reading of `"[" + str(i) + "]"` is the index `i`. */
  lemma IndexLegacy(t: string, i: int)
    requires t == IntToString(i)
    ensures LegacyPart("[" + t + "]") == [Index(i)]
  {
    BracketFree(i);
    OpenBracket(t + "]");
    assert "[" + t + "]" == "[" + (t + "]");
    CloseBracket(t);
    IndexOrKeyOf(i);
  }

  lemma BracketFree(i: int)
    ensures '[' !in IntToString(i) + "]" && ']' !in IntToString(i) && ']' in IntToString(i) + "]"
  {
    IntToStringChars(i);
    var t := IntToString(i);
    assert (t + "]")[|t|] == ']';
  }

  lemma IndexOrKeyOf(i: int)
    ensures IndexOrKey(IntToString(i)) == Index(i)
  {
    ParseIntToString(i);
  }

  /** `"[" + idx` with one `]` and no other `[` is read as `IndexParts([idx])`. */
  lemma OpenBracket(idx: string)
    requires '[' !in idx && ']' in idx
    ensures LegacyPart("[" + idx) == IndexParts([idx])
  {
    var part := "[" + idx;
    ContainsChar(part, '[');
    ContainsChar(part, ']');
    assert part[0] == '[';
    assert part == "" + ['['] + idx;
    SplitAtFirst("", '[', idx);
    SplitNone(idx, '[');
    assert Split(part, "[") == ["", idx];
  }

  /** `IndexParts([t + "]"])` reads `t` as an index or a key. */
  lemma CloseBracket(t: string)
    requires ']' !in t
    ensures IndexParts([t + "]"]) == [IndexOrKey(t)]
  {
    var idx := t + "]";
    ContainsChar(idx, ']');
    assert idx[|idx| - 1] == ']';
    assert idx == t + [']'] + "";
    SplitAtFirst(t, ']', "");
    assert Split(idx, "]")[0] == t;
    assert IndexParts([idx]) == [IndexOrKey(t)] + IndexParts([]);
  }

  /**
   * Keys that are non-empty, not `_base` and free of `" → "`, `.`, `[` and
   * `]` can still fail to round-trip: a key ending in `" →"` merges with the
   * following separator. Banning the arrow character, as `Parsable` does,
   * is what the round trip needs.
   */
  lemma ArrowKeyBreaksRoundTrip()
    ensures !Contains(" \U{2192}", Arrow) && !Contains("b", Arrow)
    ensures ParseField(FormatPath([Key(" \U{2192}"), Key("b")])) == Some([Key(""), Key("\U{2192} b")])
  {
    var tail := "\U{2192} b";
    var field := FormatPath([Key(" \U{2192}"), Key("b")]);
    MergedField();
    MergedSplit();
    NotRoot(field, 1);
    assert ParseField(field) == ArrowParts(["", tail]);
    assert ArrowPart("") == Some(Key(""));
    assert ArrowPart(tail) == Some(Key(tail)) by {
      assert tail[0] != '[';
    }
    assert ArrowParts([]) == Some([]);
    ArrowPartsCons(tail, []);
    assert [tail] + [] == [tail];
    assert [Key(tail)] + [] == [Key(tail)];
    assert ArrowParts([tail]) == Some([Key(tail)]);
    ArrowPartsCons("", [tail]);
    assert [""] + [tail] == ["", tail];
    assert [Key("")] + [Key(tail)] == [Key(""), Key(tail)];
    assert ArrowParts(["", tail]) == Some([Key(""), Key(tail)]);
    assert ParseField(field) == Some([Key(""), Key(tail)]);
  }

  /** The two keys and the separator run together: the field begins with the separator itself. */
  lemma MergedField()
    ensures FormatPath([Key(" \U{2192}"), Key("b")]) == "" + Arrow + "\U{2192} b"
  {
    var path := [Key(" \U{2192}"), Key("b")];
    assert Labels(path) == [" \U{2192}", "b"];
    assert Join([" \U{2192}", "b"], Arrow) == " \U{2192}" + Arrow + Join(["b"], Arrow);
  }

  lemma MergedSplit()
    ensures Contains("" + Arrow + "\U{2192} b", Arrow)
    ensures Split("" + Arrow + "\U{2192} b", Arrow) == ["", "\U{2192} b"]
  {
    var tail := "\U{2192} b";
    var field := "" + Arrow + tail;
    FirstOccurrenceAfter("", Arrow, tail, 1);
    assert field[3..] == tail;
    assert !OccursAt(tail, Arrow, 0) by {
      assert tail[0] != Arrow[0];
    }
    assert IndexFrom(tail, Arrow, 1) == None;
    assert Split(tail, Arrow) == [tail];
  }

  /* --------------------------------------------------- message-only error */

  /**
   * `ValidationError(message, path)`: a non-empty message gives exactly one
   * entry, keyed by the formatted path, and one issue at that same path; an
   * empty message gives neither, and the text "Validation failed".
   */
  lemma MessageOnly(message: string, path: Path, description: Option<string>, code: Option<string>)
    ensures var r := Construct(message, path, [], description, code, []);
      && r.Some?
      && (message != "" ==> r.value.errors == [Slot(FormatPath(path), Detail(message, IfTruthy(description), IfTruthy(code)))])
      && (message != "" ==> r.value.issues == [Issue(OrCustom(code), path, message)])
      && (message == "" ==> r.value.errors == [] && r.value.issues == [] && r.value.shown == "Validation failed")
  {
  }

  /** The entry's field and the issue's path name the same place, whenever the path can be read back. */
  lemma MessageFieldNamesPath(message: string, path: Path, description: Option<string>, code: Option<string>)
    requires message != "" && Parsable(path)
    ensures var r := Construct(message, path, [], description, code, []).value;
      ParseField(r.errors[0].field) == Some(r.issues[0].path)
  {
    MessageOnly(message, path, description, code);
    PathRoundTrip(path);
  }

  /* ----------------------------------------------------------- rendering */

  /** No field, message or description of the entry holds a newline. */
  predicate OneLine(s: Slot)
  {
    '\n' !in s.field && '\n' !in s.detail.message && (s.detail.description.Some? ==> '\n' !in s.detail.description.value)
  }

  lemma LineOneLine(s: Slot)
    requires OneLine(s)
    ensures '\n' !in Line(s)
  {
  }

  /** The rendered text is one line per entry, in the map's order. */
  lemma RenderedLines(errs: seq<Slot>)
    requires |errs| > 0 && forall i :: 0 <= i < |errs| ==> OneLine(errs[i])
    ensures Split(FormatErrorMessage(errs), "\n") == Lines(errs)
  {
    var lines := Lines(errs);
    forall i | 0 <= i < |lines|
      ensures '\n' !in lines[i]
    {
      LineOneLine(errs[i]);
    }
    SplitJoin(lines, "\n", 0);
  }

  /** The text is "Validation failed" exactly when there are no entries: every line has a colon. */
  lemma RenderedEmpty(errs: seq<Slot>)
    ensures FormatErrorMessage(errs) == "Validation failed" <==> |errs| == 0
  {
    if |errs| > 0 {
      var lines := Lines(errs);
      JoinStartsWith(lines, "\n");
      var text := FormatErrorMessage(errs);
      var f := errs[0].field;
      assert lines[0] == f + ": " + errs[0].detail.message + (if Truthy(errs[0].detail.description) then " (" + errs[0].detail.description.value + ")" else "");
      assert lines[0][|f|] == ':';
      assert text[..|lines[0]|] == lines[0];
      assert text[|f|] == ':';
    }
  }

  /* ---------------------------------------------------------------- edits */

  /**
   * `add_error` at a field already in the map overwrites that entry in place:
   * the fields stay as they were while the issue list still grows by one, and
   * `str(e)` keeps the text it had.
   */
  lemma AddErrorOverwrites(r: Report, field: string, message: string, description: Option<string>, code: Option<string>)
    requires field in Fields(r.errors) && ParseField(field).Some?
    ensures var e := AddError(r, field, message, description, code);
      && Fields(e.report.errors) == Fields(r.errors)
      && Find(e.report.errors, field) == Some(Detail(message, IfTruthy(description), IfTruthy(code)))
      && |e.report.issues| == |r.issues| + 1
      && e.report.shown == r.shown
  {
  }

  /** `add_issue` at the path of an existing field overwrites it in place, and the issue list grows by one. */
  lemma AddIssueOverwrites(r: Report, issue: Issue)
    requires FormatPath(issue.path) in Fields(r.errors)
    ensures var e := AddIssue(r, issue);
      && Fields(e.errors) == Fields(r.errors)
      && |e.issues| == |r.issues| + 1
      && e.shown == r.shown
  {
  }

  /**
   * Recording an issue directly is `add_error` at its formatted path with its
   * message and code, when the path reads back and the code is non-empty.
   */
  lemma AddErrorIsAddIssue(r: Report, issue: Issue)
    requires Parsable(issue.path) && issue.code != ""
    ensures AddError(r, FormatPath(issue.path), issue.message, None, Some(issue.code)) == Edited(AddIssue(r, issue), false)
  {
    PathRoundTrip(issue.path);
  }

  /** Both edits keep the map a real dict. */
  lemma EditsKeepWellKeyed(r: Report, field: string, message: string, description: Option<string>, code: Option<string>, issue: Issue)
    requires WellKeyed(r.errors)
    ensures WellKeyed(AddError(r, field, message, description, code).report.errors)
    ensures WellKeyed(AddIssue(r, issue).errors)
  {
    PutKeepsWellKeyed(r.errors, field, Detail(message, IfTruthy(description), IfTruthy(code)));
    PutKeepsWellKeyed(r.errors, FormatPath(issue.path), Detail(issue.message, None, Some(issue.code)));
  }

  /* ------------------------------------------------------------- wrapping */

  /** The fields of an `errors` argument. */
  function Named(given: seq<FieldError>): (r: seq<string>)
    ensures |r| == |given| && forall i :: 0 <= i < |given| ==> r[i] == given[i].field
  {
    if |given| == 0 then [] else [given[0].field] + Named(given[1..])
  }

  predicate AllDetails(given: seq<FieldError>)
  {
    forall i :: 0 <= i < |given| ==> given[i].content.Details?
  }

  /** The map entries an `errors` argument of details dicts stands for. */
  function DetailSlots(given: seq<FieldError>): (r: seq<Slot>)
    requires AllDetails(given)
    ensures |r| == |given| && forall i :: 0 <= i < |given| ==> r[i] == Slot(given[i].field, given[i].content.detail)
  {
    if |given| == 0 then [] else [Slot(given[0].field, given[0].content.detail)] + DetailSlots(given[1..])
  }

  /** The issue the first details dict gets when there is none yet. */
  function FirstIssue(item: FieldError, code: Option<string>, p: Path): Issue
    requires item.content.Details?
  {
    var d := item.content.detail;
    Issue(if d.code.Some? then d.code.value else OrCustom(code), p, d.message)
  }

  /** One step of the constructor's loop on a details dict. */
  lemma DetailsStep(given: seq<FieldError>, description: Option<string>, code: Option<string>, t: Table)
    requires |given| > 0 && given[0].content.Details?
    ensures var errs := Put(t.errors, given[0].field, given[0].content.detail);
      AddEntries(given, description, code, t) ==
        if |t.issues| > 0 then AddEntries(given[1..], description, code, Table(errs, t.issues))
        else match ParseField(given[0].field)
          case None => None
          case Some(p) => AddEntries(given[1..], description, code, Table(errs, [FirstIssue(given[0], code, p)]))
  {
  }

  /** Once an issue exists, details dicts cannot fail and add no issue. */
  lemma {:induction false} StaysOnce(given: seq<FieldError>, description: Option<string>, code: Option<string>, t: Table)
    requires AllDetails(given) && |t.issues| > 0
    ensures var r := AddEntries(given, description, code, t);
      r.Some? && r.value.issues == t.issues
    decreases |given|
  {
    if |given| > 0 {
      DetailsStep(given, description, code, t);
      StaysOnce(given[1..], description, code, Table(Put(t.errors, given[0].field, given[0].content.detail), t.issues));
    }
  }

  /**
   * Details dicts are stored as they are; only the first of them gets an
   * issue, and only when there was none before, so reading its field back is
   * the only way the loop can raise.
   */
  lemma DetailsIssues(given: seq<FieldError>, description: Option<string>, code: Option<string>, t: Table)
    requires |given| > 0 && AllDetails(given) && |t.issues| == 0
    ensures var r := AddEntries(given, description, code, t);
      && (r.Some? <==> ParseField(given[0].field).Some?)
      && (r.Some? ==> r.value.issues == [FirstIssue(given[0], code, ParseField(given[0].field).value)])
  {
    DetailsStep(given, description, code, t);
    var errs := Put(t.errors, given[0].field, given[0].content.detail);
    if ParseField(given[0].field).Some? {
      var issue := FirstIssue(given[0], code, ParseField(given[0].field).value);
      StaysOnce(given[1..], description, code, Table(errs, [issue]));
    }
  }

  /** Details dicts with distinct new fields are appended to the map in order. */
  lemma {:induction false} DetailsErrors(given: seq<FieldError>, description: Option<string>, code: Option<string>, t: Table)
    requires AllDetails(given) && Distinct(Named(given))
    requires forall i :: 0 <= i < |given| ==> given[i].field !in Fields(t.errors)
    ensures var r := AddEntries(given, description, code, t);
      r.Some? ==> r.value.errors == t.errors + DetailSlots(given)
    decreases |given|
  {
    if |given| > 0 {
      var item := given[0];
      var errs := Put(t.errors, item.field, item.content.detail);
      DetailsStep(given, description, code, t);
      DetailsRest(given, t.errors);
      var issues := if |t.issues| > 0 then t.issues
        else if ParseField(item.field).Some? then [FirstIssue(item, code, ParseField(item.field).value)] else [];
      if |t.issues| > 0 || ParseField(item.field).Some? {
        DetailsErrors(given[1..], description, code, Table(errs, issues));
      }
    }
  }

  /** After storing the first details dict, the rest still have new fields, and the slots line up. */
  lemma DetailsRest(given: seq<FieldError>, errs: seq<Slot>)
    requires |given| > 0 && AllDetails(given) && Distinct(Named(given))
    requires forall i :: 0 <= i < |given| ==> given[i].field !in Fields(errs)
    ensures var errs' := Put(errs, given[0].field, given[0].content.detail);
      && errs' == errs + [Slot(given[0].field, given[0].content.detail)]
      && AllDetails(given[1..]) && Distinct(Named(given[1..]))
      && (forall i :: 0 <= i < |given| - 1 ==> given[1..][i].field !in Fields(errs'))
      && errs + DetailSlots(given) == errs' + DetailSlots(given[1..])
  {
    var item := given[0];
    var errs' := Put(errs, item.field, item.content.detail);
    NamedTail(given);
    DistinctTail(Named(given));
    forall i | 0 <= i < |given| - 1
      ensures given[1..][i].field !in Fields(errs')
    {
      assert given[1..][i] == given[i + 1];
      DistinctFirst(Named(given), i + 1);
      PutLeavesOthersOut(errs, item.field, item.content.detail, given[i + 1].field);
    }
    DetailSlotsCons(given);
    AppendAssocSlots(errs, [Slot(item.field, item.content.detail)], DetailSlots(given[1..]));
  }

  /** Storing one field adds no other field to the map. */
  lemma PutLeavesOthersOut(errs: seq<Slot>, field: string, d: Detail, other: string)
    requires other !in Fields(errs) && other != field
    ensures other !in Fields(Put(errs, field, d))
  {
    assert Find(Put(errs, field, d), other) == Find(errs, other);
  }

  lemma DistinctFirst<T>(xs: seq<T>, i: int)
    requires Distinct(xs) && 0 < i < |xs|
    ensures xs[i] != xs[0]
  {
  }

  lemma NamedTail(given: seq<FieldError>)
    requires |given| > 0
    ensures Named(given[1..]) == Named(given)[1..]
  {
  }

  lemma DistinctTail<T>(xs: seq<T>)
    requires |xs| > 0 && Distinct(xs)
    ensures Distinct(xs[1..])
  {
  }

  lemma DetailSlotsCons(given: seq<FieldError>)
    requires |given| > 0 && AllDetails(given)
    ensures AllDetails(given[1..])
    ensures DetailSlots(given) == [Slot(given[0].field, given[0].content.detail)] + DetailSlots(given[1..])
  {
  }

  lemma AppendAssocSlots<T>(x: seq<T>, y: seq<T>, z: seq<T>)
    ensures x + (y + z) == (x + y) + z
  {
  }

  /** `_wrap_error` without a custom message returns the error itself. */
  lemma WrapNone(e: Report)
    ensures WrapError(None, e) == Some(e)
  {
  }

  /** With one entry or none, the wrapped error has the custom message at the same path. */
  lemma WrapSingle(c: string, e: Report)
    requires |e.errors| <= 1
    ensures var r := WrapError(Some(c), e);
      && r.Some? && r.value.message == c && r.value.path == e.path
      && (c != "" ==> r.value.errors == [Slot(FormatPath(e.path), Detail(c, IfTruthy(e.description), None))])
  {
  }

  /**
   * With several entries, the wrapped error keeps every field, in order, each
   * now carrying the custom message; its one issue is at the first field.
   * Reading that field back is the only way the wrap can raise.
   */
  lemma WrapMany(c: string, e: Report)
    requires |e.errors| > 1 && WellKeyed(e.errors)
    ensures var r := WrapError(Some(c), e);
      && (r.Some? <==> ParseField(e.errors[0].field).Some?)
      && (r.Some? ==> Fields(r.value.errors) == Fields(e.errors))
      && (r.Some? ==> forall i :: 0 <= i < |r.value.errors| ==> r.value.errors[i].detail == Detail(c, IfTruthy(e.description), None))
      && (r.Some? ==> r.value.issues == [Issue("custom", ParseField(e.errors[0].field).value, c)])
  {
    var given := Rewritten(e.errors, c, e.description);
    assert Named(given) == Fields(e.errors);
    DetailsIssues(given, None, None, Table([], []));
    DetailsErrors(given, None, None, Table([], []));
    var t := AddEntries(given, None, None, Table([], []));
    if t.Some? {
      assert t.value.errors == DetailSlots(given);
      assert Fields(t.value.errors) == Fields(e.errors);
    }
  }

  /**
   * For an error a validator raises as `ValidationError(message, path)`,
   * voltar's `_wrap_error` agrees with the plain message-and-path wrap.
   */
  lemma WrapAgreesOnLifted(custom: Option<string>, e: ValidationError)
    ensures WrapError(custom, Lift(e)) == Some(Lift(Wrap(custom, e)))
  {
    MessageOnly(e.message, e.path, None, None);
  }
}
