/** The create page: ingredient rows weighted by relative parts, each row's
  percentage and amount derived from the parts total and the batch volume,
  and the document written on save.
 */
module AddRecipe {
  import opened Js
  import opened Text
  import opened Records

  /** A derived table row: the ingredient with its percentage and amount. */
  datatype RatioRow = RatioRow(row: Row, percentage: Num, amountMl: Num)

  /** The form's state. The batch volume is always a number here: the field
      stores `Number(value) || 0`. */
  datatype Draft = Draft(
    title: string,
    volume: real,
    status: string,
    tags: string,
    coverUrl: string,
    ingredients: seq<Row>)

  /** The two rows a new recipe starts with. */
  function SeedRows(id1: string, id2: string): (rows: seq<Row>)
    ensures |rows| == 2 && AllPartsNumeric(rows)
    ensures rows[0].id == id1 && rows[0].materialName == Some("Ethanol") && rows[0].parts == Numeric(45.0)
    ensures rows[1].id == id2 && rows[1].materialName == Some("Calone (10%)") && rows[1].parts == Numeric(12.0)
    ensures TotalParts(rows) == 57.0
  {
    var rows := [Row(id1, Some("Ethanol"), Numeric(45.0), Absent), Row(id2, Some("Calone (10%)"), Numeric(12.0), Absent)];
    assert PartsOf(rows) == [Numeric(45.0), Numeric(12.0)];
    var ps := PartsOf(rows);
    assert ps[..1] == [Numeric(45.0)] && ps[..1][..0] == [];
    assert SumCoerced(ps[..1]) == 45.0;
    rows
  }

  /** The form a new recipe starts from. */
  function InitialDraft(id1: string, id2: string): (d: Draft)
    ensures d.volume == 500.0 && d.status == "draft" && d.title == "" && d.tags == "" && d.coverUrl == ""
    ensures d.ingredients == SeedRows(id1, id2)
  {
    Draft("", 500.0, "draft", "", "", SeedRows(id1, id2))
  }

  /** `addRow`: a new row with a fresh id, an empty name and 0 parts. */
  function AddRow(rows: seq<Row>, freshId: string): (r: seq<Row>)
    ensures |r| == |rows| + 1 && r[..|rows|] == rows
    ensures r[|rows|] == Row(freshId, Some(""), Numeric(0.0), Absent)
    ensures AllPartsNumeric(rows) ==> AllPartsNumeric(r)
  {
    rows + [Row(freshId, Some(""), Numeric(0.0), Absent)]
  }

  /** Adding a row leaves the parts total unchanged. */
  lemma AddRowTotal(rows: seq<Row>, freshId: string)
    ensures TotalParts(AddRow(rows, freshId)) == TotalParts(rows)
  {
    var r := AddRow(rows, freshId);
    var xs := PartsOf(r);
    forall k | 0 <= k < |rows| ensures xs[..|rows|][k] == PartsOf(rows)[k] {
      assert r[k] == rows[k];
    }
    assert xs[..|rows|] == PartsOf(rows);
    assert xs[|rows|] == Numeric(0.0);
  }

  /** The row derivation for a given parts total and volume. */
  function Derive(x: Row, total: real, volume: real): RatioRow
  {
    var pct := PartsShare(x.parts, total);
    RatioRow(x, pct, Div(Mul(Fin(volume), pct), 100.0))
  }

  function DeriveAll(rows: seq<Row>, total: real, volume: real): (r: seq<RatioRow>)
    ensures |r| == |rows|
    ensures forall k :: 0 <= k < |rows| ==> r[k] == Derive(rows[k], total, volume)
  {
    if |rows| == 0 then [] else [Derive(rows[0], total, volume)] + DeriveAll(rows[1..], total, volume)
  }

  /** The table rows: `ingredients.map(...)` with `pct = totalParts ? (parts / totalParts) * 100 : 0`
      and `ml = (totalVolume * pct) / 100`. */
  function RatioRows(rows: seq<Row>, volume: real): (r: seq<RatioRow>)
    ensures |r| == |rows|
    ensures forall k :: 0 <= k < |rows| ==> r[k].row == rows[k]
    ensures forall k :: 0 <= k < |rows| ==> r[k].percentage == PartsShare(rows[k].parts, TotalParts(rows))
    ensures forall k :: 0 <= k < |rows| ==> r[k].amountMl == Div(Mul(Fin(volume), r[k].percentage), 100.0)
    ensures TotalParts(rows) == 0.0 ==> forall k :: 0 <= k < |r| ==> r[k].percentage == Fin(0.0) && r[k].amountMl == Fin(0.0)
  {
    DeriveAll(rows, TotalParts(rows), volume)
  }

  /** One derived row in plain arithmetic: with a non-zero total, the
      percentage is the row's parts over the total times 100 (NaN for
      non-numeric parts), and the amount is that percentage of the volume. */
  lemma DeriveShares(x: Row, total: real, volume: real)
    requires total != 0.0
    ensures var d := Derive(x, total, volume);
      && (d.percentage.Fin? <==> x.parts.Numeric?)
      && (d.percentage.Fin? ==> d.percentage.v * total == x.parts.value * 100.0)
      && (d.percentage.Fin? ==> d.amountMl == Fin(volume * d.percentage.v / 100.0))
      && (d.percentage.NaN? ==> d.amountMl == NaN)
  {
    var pct := PartsShare(x.parts, total);
    if pct.Fin? {
      assert Mul(Fin(volume), pct) == Fin(volume * pct.v);
    }
  }

  function Percentages(rs: seq<RatioRow>): (xs: seq<Num>)
    ensures |xs| == |rs|
    ensures forall k :: 0 <= k < |rs| ==> xs[k] == rs[k].percentage
  {
    seq(|rs|, k requires 0 <= k < |rs| => rs[k].percentage)
  }

  function Amounts(rs: seq<RatioRow>): (xs: seq<Num>)
    ensures |xs| == |rs|
    ensures forall k :: 0 <= k < |rs| ==> xs[k] == rs[k].amountMl
  {
    if |rs| == 0 then [] else [rs[0].amountMl] + Amounts(rs[1..])
  }

  /** Each amount is `volume * pct / 100`, so the amounts add up to `volume * Σ pct / 100`. */
  lemma {:induction false} AmountTotal(rs: seq<RatioRow>, volume: real)
    requires forall k :: 0 <= k < |rs| ==> rs[k].percentage.Fin? && rs[k].amountMl == Div(Mul(Fin(volume), rs[k].percentage), 100.0)
    ensures Total(Percentages(rs)).Fin?
    ensures Total(Amounts(rs)) == Fin(volume * Total(Percentages(rs)).v / 100.0)
  {
    if |rs| > 0 {
      assert Percentages(rs)[1..] == Percentages(rs[1..]);
      assert Amounts(rs)[1..] == Amounts(rs[1..]);
      AmountTotal(rs[1..], volume);
      var p := rs[0].percentage.v;
      var s := Total(Percentages(rs[1..])).v;
      AmountAdd(volume, p, s);
    }
  }

  /** With a non-zero parts total the percentages add up to exactly 100 and the
      amounts to exactly the batch volume. */
  lemma RatioRowsSums(rows: seq<Row>, volume: real)
    requires AllPartsNumeric(rows) && TotalParts(rows) != 0.0
    ensures Total(Percentages(RatioRows(rows, volume))) == Fin(100.0)
    ensures Total(Amounts(RatioRows(rows, volume))) == Fin(volume)
  {
    assert Percentages(RatioRows(rows, volume)) == Shares(rows, TotalParts(rows));
    SharesSum(rows);
    AmountTotal(RatioRows(rows, volume), volume);
  }

  /** The sidebar's `Sum %`: `totalParts ? 100 : 0`. */
  function SumLabel(rows: seq<Row>): real
  {
    if TotalParts(rows) != 0.0 then 100.0 else 0.0
  }

  /** The sidebar figure is the true sum of the derived percentages, in both cases. */
  lemma SumLabelIsPercentageSum(rows: seq<Row>, volume: real)
    requires AllPartsNumeric(rows)
    ensures Total(Percentages(RatioRows(rows, volume))) == Fin(SumLabel(rows))
  {
    if TotalParts(rows) != 0.0 {
      RatioRowsSums(rows, volume);
    } else {
      ZeroTotal(Percentages(RatioRows(rows, volume)));
    }
  }

  lemma {:induction false} ZeroTotal(xs: seq<Num>)
    requires forall k :: 0 <= k < |xs| ==> xs[k] == Fin(0.0)
    ensures Total(xs) == Fin(0.0)
  {
    if |xs| > 0 {
      ZeroTotal(xs[1..]);
    }
  }

  /** The saved form of one ingredient: its id, `materialName || ''` and `Number(parts) || 0`. */
  function SaveRow(x: Row): (y: Row)
    ensures y.id == x.id && y.materialName == Some(StrOr(x.materialName, ""))
    ensures y.parts == Numeric(Coerce(x.parts)) && y.percentage == Absent
  {
    Row(x.id, Some(StrOr(x.materialName, "")), Numeric(Coerce(x.parts)), Absent)
  }

  function SaveRows(rows: seq<Row>): (r: seq<Row>)
    ensures |r| == |rows|
    ensures forall k :: 0 <= k < |rows| ==> r[k] == SaveRow(rows[k])
  {
    if |rows| == 0 then [] else [SaveRow(rows[0])] + SaveRows(rows[1..])
  }

  /** `save`: refused without a signed-in user; otherwise the document written
      under `recipeId`, after which the page goes to `/r/<recipeId>`. */
  function Save(d: Draft, user: Option<User>, recipeId: string): (r: Result<Created>)
    ensures user.None? <==> r == Err("You must be signed in.")
    ensures r.Ok? ==> r.value.id == recipeId && r.value.next == "/r/" + recipeId
    ensures r.Ok? ==> r.value.doc.title == Some(TitleOrUntitled(d.title))
    ensures r.Ok? ==> r.value.doc.tags == Some(ParseTags(d.tags))
    ensures r.Ok? ==> r.value.doc.volume == Numeric(d.volume)
    ensures r.Ok? ==> r.value.doc.createdBy == Some(user.value.uid)
    ensures r.Ok? ==> r.value.doc.isPublic.None? && r.value.doc.note.None?
    ensures r.Ok? ==> r.value.doc.status == Some(d.status) && r.value.doc.coverUrl == Some(d.coverUrl)
    ensures r.Ok? ==> r.value.doc.createdByName.None?
    ensures r.Ok? ==> r.value.doc.ingredients == Some(SaveRows(d.ingredients))
  {
    if user.None? then Err("You must be signed in.")
    else
      var doc := Recipe(
        Some(TitleOrUntitled(d.title)),
        Numeric(Coerce(Numeric(d.volume))),
        Some(d.status),
        Some(ParseTags(d.tags)),
        None,
        Some(d.coverUrl),
        None,
        Some(SaveRows(d.ingredients)),
        Some(user.value.uid),
        None);
      Ok(Created(recipeId, doc, "/r/" + recipeId))
  }

  /** Saving keeps the parts total: coercion changes nothing a total can see. */
  lemma SaveKeepsTotal(rows: seq<Row>)
    ensures TotalParts(SaveRows(rows)) == TotalParts(rows)
    ensures AllPartsNumeric(SaveRows(rows))
  {
    var a := CoerceAll(PartsOf(SaveRows(rows)));
    var b := CoerceAll(PartsOf(rows));
    assert a == b;
    SumCoercedIsSum(PartsOf(SaveRows(rows)));
    SumCoercedIsSum(PartsOf(rows));
  }
}
