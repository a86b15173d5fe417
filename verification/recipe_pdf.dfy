/** The printable recipe sheet: the heading, the meta lines, the notes block,
  the ingredient table with its totals row, the page footer and the file name.
  Only the content is modelled; fonts, positions and the cover image are not.
 */
module RecipePdf {
  import opened Js
  import opened Text
  import opened Records

  /** One entry of the caller's `rows`: every field may be missing. */
  datatype PdfRow = PdfRow(materialName: Option<string>, parts: Raw, percentage: Raw, amountMl: Raw)

  /** The three numeric columns of the table. */
  datatype Column = Parts | Percentage | AmountMl

  function Field(x: PdfRow, c: Column): Raw
  {
    match c
    case Parts => x.parts
    case Percentage => x.percentage
    case AmountMl => x.amountMl
  }

  /** A body line: the row number, the material, and the numbers behind the
      three two-decimal cells. */
  datatype BodyRow = BodyRow(number: nat, material: string, parts: real, percentage: real, amountMl: real)

  function Cell(b: BodyRow, c: Column): real
  {
    match c
    case Parts => b.parts
    case Percentage => b.percentage
    case AmountMl => b.amountMl
  }

  /** The footer line: the coerced sum of each column. */
  datatype Totals = Totals(parts: real, percentage: real, amountMl: real)

  function TotalOf(t: Totals, c: Column): real
  {
    match c
    case Parts => t.parts
    case Percentage => t.percentage
    case AmountMl => t.amountMl
  }

  /** The optional page-footer texts the caller passes as `footer`. */
  datatype FooterInfo = FooterInfo(updatedAtText: Option<string>, userEmail: Option<string>)

  /** Everything `generateRecipePdf` receives except the cover image. */
  datatype Input = Input(
    title: Option<string>,
    status: Option<string>,
    tags: Option<seq<string>>,
    notes: Option<string>,
    rows: seq<PdfRow>,
    footer: Option<FooterInfo>)

  /** The content of the generated document. */
  datatype Report = Report(
    docTitle: string,
    heading: string,
    meta: seq<string>,
    notes: Option<seq<string>>,
    body: seq<BodyRow>,
    totals: Totals,
    pageLeft: string,
    pageRight: string,
    fileName: string)

  /** `xs.filter(Boolean)` on strings. */
  function NonEmpty(xs: seq<string>): (r: seq<string>)
    ensures |r| <= |xs|
    ensures forall k :: 0 <= k < |r| ==> r[k] != ""
  {
    if |xs| == 0 then []
    else if xs[0] == "" then NonEmpty(xs[1..])
    else [xs[0]] + NonEmpty(xs[1..])
  }

  /** A string field is shown when it is present and non-empty. */
  predicate Shown(s: Option<string>)
  {
    s.Some? && s.value != ""
  }

  predicate HasTags(tags: Option<seq<string>>)
  {
    tags.Some? && |tags.value| > 0
  }

  /** The meta lines under the heading. `volumeText` is the batch volume as
      the template literal prints it. */
  function MetaLines(volumeText: string, status: Option<string>, tags: Option<seq<string>>): (lines: seq<string>)
    ensures 1 <= |lines| <= 3
    ensures lines[0] == "Batch Volume: " + volumeText + " ml"
    ensures |lines| == 1 + (if Shown(status) then 1 else 0) + (if HasTags(tags) then 1 else 0)
    ensures Shown(status) ==> lines[1] == "Status: " + status.value
    ensures HasTags(tags) ==> lines[|lines| - 1] == "Tags: " + Join(tags.value, ", ")
  {
    var volumeLine := "Batch Volume: " + volumeText + " ml";
    var statusLine := if Shown(status) then "Status: " + status.value else "";
    var tagsLine := if HasTags(tags) then "Tags: " + Join(tags.value, ", ") else "";
    var all := [volumeLine, statusLine, tagsLine];
    assert all[1..][1..] == [tagsLine] && [tagsLine][1..] == [];
    assert all[1..] == [statusLine, tagsLine];
    var tail := NonEmpty([tagsLine]);
    assert tail == if tagsLine == "" then [] else [tagsLine];
    assert NonEmpty(all[1..]) == if statusLine == "" then tail else [statusLine] + tail;
    NonEmpty(all)
  }

  /** The tags line can be read back: a well-formed tag list joined with
      `", "` parses to the same list. */
  lemma TagsLineRoundTrip(tags: seq<string>)
    requires WellFormedTags(tags)
    ensures ParseTags(Join(tags, ", ")) == tags
  {
    if |tags| == 0 {
      assert Split("", ',') == [""];
    } else {
      var qs := [tags[0]] + Padded(tags[1..], " ");
      JoinPadded(tags, ",", " ");
      assert ", " == "," + " ";
      assert Join(tags, ", ") == Join(qs, [',']);
      forall k | 0 <= k < |qs| ensures ',' !in qs[k] {
        if k > 0 {
          assert qs[k] == " " + tags[k];
        }
      }
      SplitJoin(qs, ',');
      CleanTagsAppend([tags[0]], Padded(tags[1..], " "));
      TrimOfTrimmed(tags[0]);
      CleanPadded(tags[1..]);
      assert [tags[0]] + tags[1..] == tags;
    }
  }

  /** Trimming undoes one leading blank in front of each well-formed tag. */
  lemma {:induction false} CleanPadded(tags: seq<string>)
    requires WellFormedTags(tags)
    ensures CleanTags(Padded(tags, " ")) == tags
  {
    if |tags| > 0 {
      var ps := Padded(tags, " ");
      assert ps[1..] == Padded(tags[1..], " ");
      TrimAfterBlank(tags[0]);
      CleanPadded(tags[1..]);
      assert [tags[0]] + tags[1..] == tags;
    }
  }

  lemma TrimAfterBlank(t: string)
    requires t != "" && Trimmed(t)
    ensures Trim(" " + t) == t
  {
    var s := " " + t;
    assert s[1..] == t;
    assert Leading(s) == 1;
    assert s[1..1 + |t|] == t;
  }

  /** `(x || 0).toFixed(2)` needs a number: a falsy field prints as 0, a truthy
      number as itself, and anything else has no `toFixed`, so the call throws. */
  predicate Printable(x: Raw)
  {
    !x.NonNumeric?
  }

  predicate RowPrintable(x: PdfRow)
  {
    Printable(x.parts) && Printable(x.percentage) && Printable(x.amountMl)
  }

  /** The table body, or `None` when some numeric cell cannot be printed. */
  function BodyRows(rows: seq<PdfRow>): (r: Option<seq<BodyRow>>)
    ensures r.Some? <==> forall k :: 0 <= k < |rows| ==> RowPrintable(rows[k])
    ensures r.Some? ==> |r.value| == |rows|
    ensures r.Some? ==> forall k :: 0 <= k < |rows| ==>
      r.value[k].number == k + 1 &&
      r.value[k].material == StrOr(rows[k].materialName, "\U{2014}") &&
      forall c: Column :: Cell(r.value[k], c) == Coerce(Field(rows[k], c))
  {
    if forall k :: 0 <= k < |rows| ==> RowPrintable(rows[k]) then
      Some(seq(|rows|, k requires 0 <= k < |rows| =>
        BodyRow(k + 1, StrOr(rows[k].materialName, "\U{2014}"),
          Coerce(rows[k].parts), Coerce(rows[k].percentage), Coerce(rows[k].amountMl))))
    else None
  }

  function Fields(rows: seq<PdfRow>, c: Column): (xs: seq<Raw>)
    ensures |xs| == |rows|
    ensures forall k :: 0 <= k < |rows| ==> xs[k] == Field(rows[k], c)
  {
    if |rows| == 0 then [] else [Field(rows[0], c)] + Fields(rows[1..], c)
  }

  function Cells(body: seq<BodyRow>, c: Column): (xs: seq<real>)
    ensures |xs| == |body|
    ensures forall k :: 0 <= k < |body| ==> xs[k] == Cell(body[k], c)
  {
    if |body| == 0 then [] else [Cell(body[0], c)] + Cells(body[1..], c)
  }

  /** The totals row: `rows.reduce((s, r) => s + (Number(r.x) || 0), 0)` per column. */
  function FooterTotals(rows: seq<PdfRow>): Totals
  {
    Totals(SumCoerced(Fields(rows, Parts)), SumCoerced(Fields(rows, Percentage)), SumCoerced(Fields(rows, AmountMl)))
  }

  /** Each footer total is the plain sum of its column's coerced values, a
      missing or non-numeric value counting as 0. */
  lemma FooterTotalsAreSums(rows: seq<PdfRow>, c: Column)
    ensures TotalOf(FooterTotals(rows), c) == Sum(CoerceAll(Fields(rows, c)))
  {
    SumCoercedIsSum(Fields(rows, c));
  }

  /** Whenever the table prints, each total is the sum of the cells above it. */
  lemma FooterMatchesBody(rows: seq<PdfRow>, c: Column)
    requires BodyRows(rows).Some?
    ensures TotalOf(FooterTotals(rows), c) == Sum(Cells(BodyRows(rows).value, c))
  {
    FooterTotalsAreSums(rows, c);
    assert CoerceAll(Fields(rows, c)) == Cells(BodyRows(rows).value, c);
  }

  lemma FooterMatchesEveryColumn(rows: seq<PdfRow>)
    requires BodyRows(rows).Some?
    ensures forall c: Column :: TotalOf(FooterTotals(rows), c) == Sum(Cells(BodyRows(rows).value, c))
  {
    forall c: Column ensures TotalOf(FooterTotals(rows), c) == Sum(Cells(BodyRows(rows).value, c)) {
      FooterMatchesBody(rows, c);
    }
  }

  /** Adding rows adds their totals, column by column. */
  lemma FooterTotalsAppend(a: seq<PdfRow>, b: seq<PdfRow>, c: Column)
    ensures TotalOf(FooterTotals(a + b), c) == TotalOf(FooterTotals(a), c) + TotalOf(FooterTotals(b), c)
  {
    var ab := Fields(a + b, c);
    var fa := Fields(a, c);
    var fb := Fields(b, c);
    forall k | 0 <= k < |ab| ensures ab[k] == (fa + fb)[k] {
      if k < |a| {
        assert (a + b)[k] == a[k];
      } else {
        assert (a + b)[k] == b[k - |a|];
      }
    }
    assert ab == fa + fb;
    SumCoercedAppend(fa, fb);
  }

  /** The notes block: shown only for notes with some non-blank character,
      as at most the first five of the wrapped lines. `wrapped` is the text
      broken to the page width. */
  function NotesLines(notes: Option<string>, wrapped: seq<string>): (r: Option<seq<string>>)
    ensures r.Some? <==> notes.Some? && !AllSpace(notes.value)
    ensures r.Some? ==> r.value <= wrapped && |r.value| <= 5
    ensures r.Some? && |wrapped| >= 5 ==> |r.value| == 5
    ensures r.Some? && |wrapped| < 5 ==> r.value == wrapped
  {
    if notes.Some? && Trim(notes.value) != "" then
      Some(if |wrapped| <= 5 then wrapped else wrapped[..5])
    else
      TrimEmptyIff(if notes.Some? then notes.value else "");
      None
  }

  /** The heading: `title || 'Untitled Recipe'`. */
  function Heading(title: Option<string>): (h: string)
    ensures h != ""
    ensures Shown(title) ==> h == title.value
    ensures !Shown(title) ==> h == "Untitled Recipe"
  {
    StrOr(title, "Untitled Recipe")
  }

  /** A `.pdf` name: `${title || fallback}.pdf`. The document-properties
      title falls back to `Recipe`, the saved file's name to `recipe`. */
  function PdfName(title: Option<string>, fallback: string): (f: string)
    ensures |f| >= 4 && f[|f| - 4..] == ".pdf"
    ensures Shown(title) ==> f[..|f| - 4] == title.value
    ensures !Shown(title) ==> f == fallback + ".pdf"
  {
    StrOr(title, fallback) + ".pdf"
  }

  /** The three title fallbacks agree exactly when there is a title: then the
      heading, the document title and the file name all carry it. */
  lemma TitlesAgree(title: Option<string>)
    ensures Shown(title) <==> PdfName(title, "Recipe") == PdfName(title, "recipe") == Heading(title) + ".pdf"
  {
    if !Shown(title) {
      assert PdfName(title, "Recipe")[0] != PdfName(title, "recipe")[0];
    }
  }

  /** The page footer: `Updated: …` on the left and `User: …` on the right,
      each empty when its text is missing. */
  function PageFooter(footer: Option<FooterInfo>): (lr: (string, string))
    ensures lr.0 == "" <==> footer.None? || !Shown(footer.value.updatedAtText)
    ensures lr.1 == "" <==> footer.None? || !Shown(footer.value.userEmail)
    ensures lr.0 != "" ==> lr.0 == "Updated: " + footer.value.updatedAtText.value
    ensures lr.1 != "" ==> lr.1 == "User: " + footer.value.userEmail.value
  {
    var left := if footer.Some? && Shown(footer.value.updatedAtText) then "Updated: " + footer.value.updatedAtText.value else "";
    var right := if footer.Some? && Shown(footer.value.userEmail) then "User: " + footer.value.userEmail.value else "";
    (left, right)
  }

  /** `generateRecipePdf` without its layout: `None` when printing the table
      throws, otherwise the document's content. */
  function Generate(input: Input, volumeText: string, wrappedNotes: seq<string>): (r: Option<Report>)
    ensures r.Some? <==> forall k :: 0 <= k < |input.rows| ==> RowPrintable(input.rows[k])
    ensures r.Some? ==> |r.value.body| == |input.rows|
    ensures r.Some? ==> forall c: Column :: TotalOf(r.value.totals, c) == Sum(Cells(r.value.body, c))
    ensures r.Some? ==> |r.value.meta| >= 1 && r.value.meta[0] == "Batch Volume: " + volumeText + " ml"
    ensures r.Some? ==> (r.value.notes.Some? <==> input.notes.Some? && !AllSpace(input.notes.value))
    ensures r.Some? ==> BodyRows(input.rows) == Some(r.value.body) && r.value.totals == FooterTotals(input.rows)
    ensures r.Some? ==> r.value.heading == Heading(input.title)
    ensures r.Some? ==> r.value.docTitle == PdfName(input.title, "Recipe") && r.value.fileName == PdfName(input.title, "recipe")
    ensures r.Some? ==> r.value.meta == MetaLines(volumeText, input.status, input.tags)
    ensures r.Some? ==> r.value.notes == NotesLines(input.notes, wrappedNotes)
    ensures r.Some? ==> (r.value.pageLeft, r.value.pageRight) == PageFooter(input.footer)
  {
    var body := BodyRows(input.rows);
    if body.None? then None
    else
      var footer := PageFooter(input.footer);
      FooterMatchesEveryColumn(input.rows);
      Some(Report(
        PdfName(input.title, "Recipe"),
        Heading(input.title),
        MetaLines(volumeText, input.status, input.tags),
        NotesLines(input.notes, wrappedNotes),
        body.value,
        FooterTotals(input.rows),
        footer.0,
        footer.1,
        PdfName(input.title, "recipe")))
  }
}
