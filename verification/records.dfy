/** The records the pages exchange with the document store, and the pieces of
  the save paths that every page shares: the parts and percentage totals, the
  title default and the comma-separated tag list.
 */
module Records {
  import opened Js
  import opened Text

  /** One ingredient object as stored in a recipe document. Recipes created by
      the ratio pages carry `parts`; recipes saved by the editor carry
      `percentage`; the other field is then absent. */
  datatype Row = Row(id: string, materialName: Option<string>, parts: Raw, percentage: Raw)

  /** A recipe document as read back from the store. Every field may be missing. */
  datatype Recipe = Recipe(
    title: Option<string>,
    volume: Raw,
    status: Option<string>,
    tags: Option<seq<string>>,
    note: Option<string>,
    coverUrl: Option<string>,
    isPublic: Option<bool>,
    ingredients: Option<seq<Row>>,
    createdBy: Option<string>,
    createdByName: Option<string>)

  /** The signed-in account as the identity service reports it. */
  datatype User = User(uid: string, displayName: Option<string>, email: Option<string>)

  /** A newly written document: its id, its contents, and where the page navigates next. */
  datatype Created = Created(id: string, doc: Recipe, next: string)

  function PartsOf(rows: seq<Row>): (xs: seq<Raw>)
    ensures |xs| == |rows|
    ensures forall k :: 0 <= k < |rows| ==> xs[k] == rows[k].parts
  {
    if |rows| == 0 then [] else [rows[0].parts] + PartsOf(rows[1..])
  }

  function PercentagesOf(rows: seq<Row>): (xs: seq<Raw>)
    ensures |xs| == |rows|
    ensures forall k :: 0 <= k < |rows| ==> xs[k] == rows[k].percentage
  {
    if |rows| == 0 then [] else [rows[0].percentage] + PercentagesOf(rows[1..])
  }

  /** `ingredients.reduce((s, i) => s + (Number(i.parts) || 0), 0)`. */
  function TotalParts(rows: seq<Row>): real
  {
    SumCoerced(PartsOf(rows))
  }

  /** `ingredients.reduce((s, i) => s + (Number(i.percentage) || 0), 0)`. */
  function TotalPercentage(rows: seq<Row>): real
  {
    SumCoerced(PercentagesOf(rows))
  }

  /** The parts total is the plain sum of every row's coerced parts: a missing
      or non-numeric value counts as 0. */
  lemma TotalPartsIsSum(rows: seq<Row>)
    ensures TotalParts(rows) == Sum(CoerceAll(PartsOf(rows)))
    ensures |rows| > 0 ==> TotalParts(rows) == TotalParts(rows[..|rows| - 1]) + Coerce(rows[|rows| - 1].parts)
  {
    SumCoercedIsSum(PartsOf(rows));
    if |rows| > 0 {
      assert PartsOf(rows)[..|rows| - 1] == PartsOf(rows[..|rows| - 1]);
    }
  }

  /** The percentage total is the plain sum of every row's coerced percentage. */
  lemma TotalPercentageIsSum(rows: seq<Row>)
    ensures TotalPercentage(rows) == Sum(CoerceAll(PercentagesOf(rows)))
    ensures |rows| > 0 ==> TotalPercentage(rows) == TotalPercentage(rows[..|rows| - 1]) + Coerce(rows[|rows| - 1].percentage)
  {
    SumCoercedIsSum(PercentagesOf(rows));
    if |rows| > 0 {
      assert PercentagesOf(rows)[..|rows| - 1] == PercentagesOf(rows[..|rows| - 1]);
    }
  }

  /** Every row's parts is a number: the ratio pages keep this for their
      in-memory rows, since seeds, new rows and edits all store numbers. */
  predicate AllPartsNumeric(rows: seq<Row>)
  {
    forall k :: 0 <= k < |rows| ==> rows[k].parts.Numeric?
  }

  /** A row's share of the parts total in percent: `totalParts ? (parts / totalParts) * 100 : 0`.
      The division reads the raw `parts`, so a missing or non-numeric value gives NaN. */
  function PartsShare(parts: Raw, total: real): (pct: Num)
    ensures total == 0.0 ==> pct == Fin(0.0)
    ensures total != 0.0 ==> (pct.Fin? <==> parts.Numeric?)
    ensures total != 0.0 && parts.Numeric? ==> pct.v * total == parts.value * 100.0
  {
    if total != 0.0 then Mul(Div(ToNumber(parts), total), Fin(100.0)) else Fin(0.0)
  }

  function Shares(rows: seq<Row>, total: real): (xs: seq<Num>)
    ensures |xs| == |rows|
    ensures forall k :: 0 <= k < |rows| ==> xs[k] == PartsShare(rows[k].parts, total)
  {
    if |rows| == 0 then [] else [PartsShare(rows[0].parts, total)] + Shares(rows[1..], total)
  }

  /** The shares add up to the parts sum over the total, times 100. */
  lemma {:induction false} SharesTotal(rows: seq<Row>, total: real)
    requires AllPartsNumeric(rows) && total != 0.0
    ensures Total(Shares(rows, total)) == Fin(Sum(CoerceAll(PartsOf(rows))) / total * 100.0)
  {
    if |rows| > 0 {
      assert Shares(rows, total)[1..] == Shares(rows[1..], total);
      assert PartsOf(rows)[1..] == PartsOf(rows[1..]);
      assert CoerceAll(PartsOf(rows))[1..] == CoerceAll(PartsOf(rows[1..]));
      SharesTotal(rows[1..], total);
      var p := rows[0].parts.value;
      var s := Sum(CoerceAll(PartsOf(rows[1..])));
      ShareAdd(p, s, total);
    }
  }

  lemma ShareAdd(p: real, s: real, total: real)
    requires total != 0.0
    ensures p / total * 100.0 + s / total * 100.0 == (p + s) / total * 100.0
  {
  }

  /** With numeric parts and a non-zero total, the shares add up to exactly 100. */
  lemma SharesSum(rows: seq<Row>)
    requires AllPartsNumeric(rows) && TotalParts(rows) != 0.0
    ensures Total(Shares(rows, TotalParts(rows))) == Fin(100.0)
  {
    var t := TotalParts(rows);
    SumCoercedIsSum(PartsOf(rows));
    SharesTotal(rows, t);
    WholeShare(t);
  }

  lemma WholeShare(t: real)
    requires t != 0.0
    ensures t / t * 100.0 == 100.0
  {
  }

  /** `title.trim() || 'Untitled'`. */
  function TitleOrUntitled(title: string): (t: string)
    ensures t != "" && Trimmed(t)
    ensures !AllSpace(title) ==> t == Trim(title)
    ensures AllSpace(title) ==> t == "Untitled"
  {
    TrimEmptyIff(title);
    var t := Trim(title);
    if t == "" then "Untitled" else t
  }

  /** Trim each piece and drop the empty ones, keeping order and repeats. */
  function CleanTags(pieces: seq<string>): (r: seq<string>)
    ensures |r| <= |pieces|
  {
    if |pieces| == 0 then []
    else
      var t := Trim(pieces[0]);
      if t == "" then CleanTags(pieces[1..]) else [t] + CleanTags(pieces[1..])
  }

  /** `tags.split(',').map((s) => s.trim()).filter(Boolean)`: every parsed tag
      is non-empty, trimmed and free of commas; a text without a comma gives
      its trimmed self, or nothing when it is blank. */
  function ParseTags(s: string): (tags: seq<string>)
    ensures WellFormedTags(tags)
    ensures ',' !in s ==> tags == (if AllSpace(s) then [] else [Trim(s)])
  {
    SplitPiecesFree(s, ',');
    CleanTagsWellFormed(Split(s, ','));
    if ',' in s then CleanTags(Split(s, ','))
    else
      SplitFree(s, ',');
      TrimEmptyIff(s);
      assert [s][1..] == [];
      CleanTags([s])
  }

  /** A tag list that the comma-separated text field can represent. */
  predicate WellFormedTag(t: string)
  {
    t != "" && Trimmed(t) && ',' !in t
  }

  predicate WellFormedTags(tags: seq<string>)
  {
    forall k :: 0 <= k < |tags| ==> WellFormedTag(tags[k])
  }

  /** Trimming a comma-free piece leaves it comma-free. */
  lemma TrimKeepsCommaFree(p: string)
    requires ',' !in p
    ensures ',' !in Trim(p)
  {
    var n := Leading(p);
    var t := Trim(p);
    forall k | 0 <= k < |t| ensures t[k] != ',' {
      assert t[k] == p[n + k];
    }
  }

  lemma {:induction false} CleanTagsWellFormed(pieces: seq<string>)
    requires forall k :: 0 <= k < |pieces| ==> ',' !in pieces[k]
    ensures WellFormedTags(CleanTags(pieces))
  {
    if |pieces| > 0 {
      CleanTagsWellFormed(pieces[1..]);
      TrimKeepsCommaFree(pieces[0]);
    }
  }

  lemma {:induction false} CleanTagsOfWellFormed(tags: seq<string>)
    requires WellFormedTags(tags)
    ensures CleanTags(tags) == tags
  {
    if |tags| > 0 {
      TrimOfTrimmed(tags[0]);
      CleanTagsOfWellFormed(tags[1..]);
      assert [tags[0]] + tags[1..] == tags;
    }
  }

  /** Joining a well-formed tag list with commas and parsing it back gives the list. */
  lemma TagsRoundTrip(tags: seq<string>)
    requires WellFormedTags(tags)
    ensures ParseTags(Join(tags, ",")) == tags
  {
    if |tags| == 0 {
      assert Split("", ',') == [""];
    } else {
      SplitJoin(tags, ',');
      assert Join(tags, [',']) == Join(tags, ",");
      CleanTagsOfWellFormed(tags);
    }
  }

  /** Parsing, joining and parsing again is parsing once. */
  lemma ParseTagsIdempotent(s: string)
    ensures ParseTags(Join(ParseTags(s), ",")) == ParseTags(s)
  {
    TagsRoundTrip(ParseTags(s));
  }

  lemma {:induction false} CleanTagsAppend(a: seq<string>, b: seq<string>)
    ensures CleanTags(a + b) == CleanTags(a) + CleanTags(b)
  {
    if |a| == 0 {
      assert a + b == b;
    } else {
      assert (a + b)[1..] == a[1..] + b;
      CleanTagsAppend(a[1..], b);
    }
  }

  /** Parsing cleans the comma-separated pieces, whichever branch computes it. */
  lemma ParseTagsIsClean(s: string)
    ensures ParseTags(s) == CleanTags(Split(s, ','))
  {
    if ',' !in s {
      SplitFree(s, ',');
    }
  }

  /** Tag parsing works piece by piece: the tags of `a + "," + b` are the tags
      of `a` followed by the tags of `b`, in order and without de-duplication. */
  lemma ParseTagsAppend(a: string, b: string)
    ensures ParseTags(a + "," + b) == ParseTags(a) + ParseTags(b)
  {
    ParseTagsIsClean(a);
    ParseTagsIsClean(b);
    ParseTagsIsClean(a + "," + b);
    assert a + "," + b == a + [','] + b;
    SplitAppend(a, b, ',');
    CleanTagsAppend(Split(a, ','), Split(b, ','));
  }
}
