/** `processors/google_drive.py`: flattening a Google Doc and a Google
    Sheet into plain text.

    The Docs and Sheets API calls are parameters: the document's body
    content, the spreadsheet's sheet titles and the values of a range, each
    or the failure it raised. Only an `HttpError` is rewrapped with the
    module's message; any other failure passes through unchanged. */
module GoogleDrive {
  import opened Base
  import opened Strings

  datatype ParagraphElement = TextRun(content: string) | OtherElement
  datatype StructuralElement = Paragraph(elements: seq<ParagraphElement>) | OtherStructure

  /** A failed API call: an `HttpError` (with its `str`) or anything else. */
  datatype ApiFailure = HttpError(detail: string) | OtherFailure(message: string)

  const DocErrorPrefix := "Error accessing Google Doc: "
  const SheetErrorPrefix := "Error accessing Google Sheet: "

  // ---------------------------------------------------------------------
  // Documents
  // ---------------------------------------------------------------------

  function RunOf(e: ParagraphElement): seq<string> {
    if e.TextRun? then [e.content] else []
  }

  /** The text runs of a paragraph's elements, in order. */
  function Runs(elements: seq<ParagraphElement>): (rs: seq<string>)
    ensures |rs| <= |elements|
    decreases |elements|
  {
    if |elements| == 0 then []
    else Runs(elements[..|elements| - 1]) + RunOf(elements[|elements| - 1])
  }

  function RunsOfElement(s: StructuralElement): seq<string> {
    if s.Paragraph? then Runs(s.elements) else []
  }

  /** The text runs of a document body, in order. */
  function DocRuns(content: seq<StructuralElement>): seq<string>
    decreases |content|
  {
    if |content| == 0 then []
    else DocRuns(content[..|content| - 1]) + RunsOfElement(content[|content| - 1])
  }

  /** The document text: every text run of every paragraph, concatenated
      with nothing between them. */
  function DocText(content: seq<StructuralElement>): string {
    Concat(DocRuns(content))
  }

  lemma DocRunsSnoc(a: seq<StructuralElement>, x: StructuralElement)
    ensures DocRuns(a + [x]) == DocRuns(a) + RunsOfElement(x)
  {
    assert (a + [x])[..|a|] == a;
  }

  lemma {:induction false} DocRunsAppend(a: seq<StructuralElement>, b: seq<StructuralElement>)
    ensures DocRuns(a + b) == DocRuns(a) + DocRuns(b)
    decreases |b|
  {
    if |b| == 0 {
      assert a + b == a;
    } else {
      var b', x := b[..|b| - 1], b[|b| - 1];
      var ab := a + b';
      assert b == b' + [x];
      assert a + b == ab + [x];
      calc {
        DocRuns(a + b);
        { DocRunsSnoc(ab, x); }
        DocRuns(ab) + RunsOfElement(x);
        { DocRunsAppend(a, b'); }
        DocRuns(a) + DocRuns(b') + RunsOfElement(x);
        { DocRunsSnoc(b', x); }
        DocRuns(a) + DocRuns(b);
      }
    }
  }

  /** The text of a document is the text of its first part followed by
      the text of the rest. */
  lemma DocTextAppend(a: seq<StructuralElement>, b: seq<StructuralElement>)
    ensures DocText(a + b) == DocText(a) + DocText(b)
  {
    DocRunsAppend(a, b);
    ConcatAppend(DocRuns(a), DocRuns(b));
  }

  /** Tables, section breaks and the like contribute nothing. */
  lemma {:induction false} NonParagraphsContributeNothing(content: seq<StructuralElement>)
    requires forall k :: 0 <= k < |content| ==> !content[k].Paragraph?
    ensures DocText(content) == ""
    decreases |content|
  {
    if |content| > 0 {
      var init := content[..|content| - 1];
      assert forall k :: 0 <= k < |init| ==> init[k] == content[k];
      NonParagraphsContributeNothing(init);
      assert DocRuns(content) == DocRuns(init);
    }
  }

  /** The text of one more structural element. */
  lemma DocTextSnoc(content: seq<StructuralElement>, i: nat)
    requires i < |content|
    ensures DocText(content[..i + 1]) == DocText(content[..i]) + Concat(RunsOfElement(content[i]))
  {
    assert content[..i + 1] == content[..i] + [content[i]];
    DocRunsSnoc(content[..i], content[i]);
    ConcatAppend(DocRuns(content[..i]), RunsOfElement(content[i]));
  }

  /** The inner loop of `process_google_doc`, over one paragraph. */
  method FlattenParagraph(elements: seq<ParagraphElement>) returns (text: string)
    ensures text == Concat(Runs(elements))
  {
    text := "";
    var j := 0;
    while j < |elements|
      invariant 0 <= j <= |elements|
      invariant text == Concat(Runs(elements[..j]))
    {
      assert elements[..j + 1][..j] == elements[..j];
      ConcatAppend(Runs(elements[..j]), RunOf(elements[j]));
      if elements[j].TextRun? {
        text := text + elements[j].content;
      }
      j := j + 1;
    }
    assert elements[..j] == elements;
  }

  /** The outer loop of `process_google_doc`. */
  method FlattenDoc(content: seq<StructuralElement>) returns (text: string)
    ensures text == DocText(content)
  {
    text := "";
    var i := 0;
    while i < |content|
      invariant 0 <= i <= |content|
      invariant text == DocText(content[..i])
    {
      DocTextSnoc(content, i);
      if content[i].Paragraph? {
        var t := FlattenParagraph(content[i].elements);
        text := text + t;
      }
      i := i + 1;
    }
    assert content[..i] == content;
  }

  /** `process_google_doc` on the outcome of fetching the document body. */
  function ProcessGoogleDoc(fetched: Result<seq<StructuralElement>, ApiFailure>): (r: Fallible<string>)
    ensures r.Ok? <==> fetched.Ok?
    ensures r.Ok? ==> r.value == DocText(fetched.value)
    ensures fetched.Err? && fetched.error.HttpError? ==> r == Err(DocErrorPrefix + fetched.error.detail)
    ensures fetched.Err? && fetched.error.OtherFailure? ==> r == Err(fetched.error.message)
  {
    match fetched
    case Ok(content) => Ok(DocText(content))
    case Err(HttpError(d)) => Err(DocErrorPrefix + d)
    case Err(OtherFailure(m)) => Err(m)
  }

  // ---------------------------------------------------------------------
  // Spreadsheets
  // ---------------------------------------------------------------------

  /** The A1 range read from each sheet: its first 1000 rows of columns A
      to Z. */
  function RangeName(title: string): (range: string)
    ensures |range| == |title| + 11
    ensures range[..|title| + 1] == "'" + title
    ensures range[|title| + 1..] == "'!A1:Z1000"
  {
    "'" + title + "'!A1:Z1000"
  }

  lemma RangeNameInjective(a: string, b: string)
    requires RangeName(a) == RangeName(b)
    ensures a == b
  {
    assert |a| == |b|;
    assert a == RangeName(a)[1..|a| + 1];
    assert b == RangeName(b)[1..|b| + 1];
  }

  function HeaderLine(title: string): string {
    "Sheet: " + title
  }

  /** Each row as its cells joined by commas, without quoting. */
  function RowLines(rows: seq<seq<string>>): (lines: seq<string>)
    ensures |lines| == |rows|
    ensures forall k :: 0 <= k < |rows| ==> lines[k] == Join(rows[k], ",")
    decreases |rows|
  {
    if |rows| == 0 then []
    else RowLines(rows[..|rows| - 1]) + [Join(rows[|rows| - 1], ",")]
  }

  /** The lines one sheet adds: none for a sheet without values, otherwise
      its header, one line per row, and a `"\n"` entry. */
  function SheetBlock(title: string, rows: seq<seq<string>>): (block: seq<string>)
    ensures |rows| == 0 <==> block == []
    ensures |rows| > 0 ==> |block| == |rows| + 2 && block[0] == HeaderLine(title) && block[|block| - 1] == "\n"
    ensures forall k :: 0 <= k < |rows| ==> block[k + 1] == Join(rows[k], ",")
  {
    if |rows| == 0 then [] else [HeaderLine(title)] + RowLines(rows) + ["\n"]
  }

  /** `values().get(range=…)` for one range: the rows (`[]` when the range
      holds no values), or the failure. */
  type ValuesOf = string -> Result<seq<seq<string>>, ApiFailure>

  /** One pass of the loop: read one more sheet unless an earlier read
      already failed. */
  function Step(acc: Result<seq<string>, ApiFailure>, title: string, values: ValuesOf): Result<seq<string>, ApiFailure> {
    match acc
    case Err(f) => Err(f)
    case Ok(lines) =>
      match values(RangeName(title))
      case Err(f) => Err(f)
      case Ok(rows) => Ok(lines + SheetBlock(title, rows))
  }

  /** The loop over `titles`, continuing from `acc`. */
  function Collect(acc: Result<seq<string>, ApiFailure>, titles: seq<string>, values: ValuesOf): Result<seq<string>, ApiFailure>
    decreases |titles|
  {
    if |titles| == 0 then acc else Collect(Step(acc, titles[0], values), titles[1..], values)
  }

  /** The `all_data` list for the given sheet titles. */
  function SheetLines(titles: seq<string>, values: ValuesOf): Result<seq<string>, ApiFailure> {
    Collect(Ok([]), titles, values)
  }

  /** Every sheet is read successfully. */
  predicate AllRead(titles: seq<string>, values: ValuesOf) {
    forall k :: 0 <= k < |titles| ==> values(RangeName(titles[k])).Ok?
  }

  /** After a failure no further sheet is read. */
  lemma {:induction false} CollectAfterFailure(f: ApiFailure, titles: seq<string>, values: ValuesOf)
    ensures Collect(Err(f), titles, values) == Err(f)
    decreases |titles|
  {
    if |titles| > 0 {
      CollectAfterFailure(f, titles[1..], values);
    }
  }

  lemma {:induction false} CollectAppend(acc: Result<seq<string>, ApiFailure>, a: seq<string>, b: seq<string>, values: ValuesOf)
    ensures Collect(acc, a + b, values) == Collect(Collect(acc, a, values), b, values)
    decreases |a|
  {
    if |a| == 0 {
      assert a + b == b;
    } else {
      assert (a + b)[0] == a[0];
      assert (a + b)[1..] == a[1..] + b;
      CollectAppend(Step(acc, a[0], values), a[1..], b, values);
    }
  }

  /** `acc` with `p` put in front of its lines. */
  function Prepend(p: seq<string>, acc: Result<seq<string>, ApiFailure>): Result<seq<string>, ApiFailure> {
    match acc
    case Ok(lines) => Ok(p + lines)
    case Err(f) => Err(f)
  }

  lemma StepPrepend(p: seq<string>, acc: Result<seq<string>, ApiFailure>, title: string, values: ValuesOf)
    ensures Step(Prepend(p, acc), title, values) == Prepend(p, Step(acc, title, values))
  {
    if acc.Ok? && values(RangeName(title)).Ok? {
      var block := SheetBlock(title, values(RangeName(title)).value);
      assert (p + acc.value) + block == p + (acc.value + block);
    }
  }

  /** Lines already collected stay in front of whatever the rest adds. */
  lemma {:induction false} CollectPrepend(p: seq<string>, acc: Result<seq<string>, ApiFailure>, titles: seq<string>, values: ValuesOf)
    ensures Collect(Prepend(p, acc), titles, values) == Prepend(p, Collect(acc, titles, values))
    decreases |titles|
  {
    if |titles| > 0 {
      StepPrepend(p, acc, titles[0], values);
      CollectPrepend(p, Step(acc, titles[0], values), titles[1..], values);
    }
  }

  lemma CollectKeepsPrefix(p: seq<string>, titles: seq<string>, values: ValuesOf)
    ensures Collect(Ok(p), titles, values) == Prepend(p, Collect(Ok([]), titles, values))
  {
    assert Prepend(p, Ok([])) == Ok(p + []);
    assert p + [] == p;
    CollectPrepend(p, Ok([]), titles, values);
  }

  /** The lines of a spreadsheet are the lines of its first sheets followed
      by those of the rest, when every read succeeds. */
  lemma SheetLinesAppend(a: seq<string>, b: seq<string>, values: ValuesOf)
    requires SheetLines(a, values).Ok? && SheetLines(b, values).Ok?
    ensures SheetLines(a + b, values) == Ok(SheetLines(a, values).value + SheetLines(b, values).value)
  {
    CollectAppend(Ok([]), a, b, values);
    CollectKeepsPrefix(SheetLines(a, values).value, b, values);
  }

  /** The loop ends in a failure exactly when some sheet cannot be read,
      and the failure reported is that of the first such sheet. */
  lemma {:induction false} CollectFailure(p: seq<string>, titles: seq<string>, values: ValuesOf)
    ensures Collect(Ok(p), titles, values).Ok? <==> AllRead(titles, values)
    ensures Collect(Ok(p), titles, values).Err? ==>
      exists k :: 0 <= k < |titles| && values(RangeName(titles[k])) == Err(Collect(Ok(p), titles, values).error)
        && AllRead(titles[..k], values)
    decreases |titles|
  {
    if |titles| > 0 {
      var t, rest := titles[0], titles[1..];
      assert forall k :: 0 <= k < |rest| ==> rest[k] == titles[k + 1];
      match values(RangeName(t))
      case Err(f) =>
        CollectAfterFailure(f, rest, values);
        assert titles[..0] == [];
      case Ok(rows) =>
        var p' := p + SheetBlock(t, rows);
        CollectFailure(p', rest, values);
        if Collect(Ok(p'), rest, values).Err? {
          var k :| 0 <= k < |rest| && values(RangeName(rest[k])) == Err(Collect(Ok(p'), rest, values).error)
            && AllRead(rest[..k], values);
          assert titles[..k + 1] == [t] + rest[..k];
          assert AllRead(titles[..k + 1], values);
        }
    }
  }

  lemma SheetLinesFailure(titles: seq<string>, values: ValuesOf)
    ensures SheetLines(titles, values).Ok? <==> AllRead(titles, values)
    ensures SheetLines(titles, values).Err? ==>
      exists k :: 0 <= k < |titles| && values(RangeName(titles[k])) == Err(SheetLines(titles, values).error)
        && AllRead(titles[..k], values)
  {
    CollectFailure([], titles, values);
  }

  /** A sheet without values leaves no trace, not even its title. */
  lemma EmptySheetLeavesNoTrace(titles: seq<string>, title: string, values: ValuesOf)
    requires values(RangeName(title)) == Ok([])
    ensures SheetLines(titles + [title], values) == SheetLines(titles, values)
  {
    CollectAppend(Ok([]), titles, [title], values);
    if SheetLines(titles, values).Ok? {
      assert SheetLines(titles, values).value + [] == SheetLines(titles, values).value;
    }
  }

  /** Cells are joined without quoting, so a cell holding a comma cannot be
      told apart from two cells. */
  lemma RowJoinLosesCellBoundaries()
    ensures Join(["a,b"], ",") == Join(["a", "b"], ",")
  {
  }

  /** The loop of `process_google_sheet`. */
  method CollectSheetLines(titles: seq<string>, values: ValuesOf) returns (r: Result<seq<string>, ApiFailure>)
    ensures r == SheetLines(titles, values)
  {
    var lines: seq<string> := [];
    var i := 0;
    while i < |titles|
      invariant 0 <= i <= |titles|
      invariant Collect(Ok(lines), titles[i..], values) == SheetLines(titles, values)
    {
      assert titles[i..][0] == titles[i];
      assert titles[i..][1..] == titles[i + 1..];
      var title := titles[i];
      var read := values(RangeName(title));
      if read.Err? {
        CollectAfterFailure(read.error, titles[i + 1..], values);
        return Err(read.error);
      }
      lines := lines + SheetBlock(title, read.value);
      i := i + 1;
    }
    r := Ok(lines);
  }

  /** `process_google_sheet` on the outcome of reading the sheet titles
      and the values of each sheet: the lines joined by line breaks. */
  function ProcessGoogleSheet(titles: Result<seq<string>, ApiFailure>, values: ValuesOf): (r: Fallible<string>)
    ensures r.Ok? <==> titles.Ok? && AllRead(titles.value, values)
    ensures r.Ok? ==> SheetLines(titles.value, values).Ok? && r.value == Join(SheetLines(titles.value, values).value, "\n")
    ensures titles.Err? ==> r == SheetFailure(titles.error)
    ensures titles.Ok? && !AllRead(titles.value, values) ==>
      exists k :: 0 <= k < |titles.value| && AllRead(titles.value[..k], values)
        && values(RangeName(titles.value[k])).Err? && r == SheetFailure(values(RangeName(titles.value[k])).error)
  {
    match titles
    case Err(f) => SheetFailure(f)
    case Ok(ts) =>
      SheetLinesFailure(ts, values);
      match SheetLines(ts, values)
      case Ok(lines) => Ok(Join(lines, "\n"))
      case Err(f) => SheetFailure(f)
  }

  function SheetFailure(f: ApiFailure): (r: Fallible<string>)
    ensures r.Err?
    ensures f.HttpError? ==> r.error == SheetErrorPrefix + f.detail
    ensures f.OtherFailure? ==> r.error == f.message
  {
    match f
    case HttpError(d) => Err(SheetErrorPrefix + d)
    case OtherFailure(m) => Err(m)
  }
}
