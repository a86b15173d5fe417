/** The read-only recipe page: the stored ingredients shown with their share
  of the parts total and the amount for a batch volume, which the reader may
  replace by a what-if volume without touching the stored recipe.
 */
module RecipeView {
  import opened Js
  import opened Records

  /** One table line: number, material, percentage (may be NaN) and amount in ml. */
  datatype ViewRow = ViewRow(number: nat, materialName: Option<string>, pct: Num, ml: real)

  /** `recipe.ingredients || []`. */
  function Ingredients(r: Recipe): (rows: seq<Row>)
    ensures r.ingredients.Some? ==> rows == r.ingredients.value
    ensures r.ingredients.None? ==> rows == []
  {
    if r.ingredients.Some? then r.ingredients.value else []
  }

  /** `customVolume ?? recipe.totalVolume_ml`, as the number the multiplication sees. */
  function DisplayVolume(custom: Option<real>, stored: Raw): (v: Num)
    ensures custom.Some? ==> v == Fin(custom.value)
    ensures custom.None? ==> v == ToNumber(stored)
  {
    if custom.Some? then Fin(custom.value) else ToNumber(stored)
  }

  /** `(displayVolume * pct) / 100 || 0`. */
  function RowMl(volume: Num, pct: Num): (ml: real)
    ensures volume.Fin? && pct.Fin? ==> ml * 100.0 == volume.v * pct.v
    ensures volume.NaN? || pct.NaN? ==> ml == 0.0
  {
    OrZero(Div(Mul(volume, pct), 100.0))
  }

  /** The ingredient table of the page for the stored recipe and the optional what-if volume. */
  function ViewRows(r: Recipe, custom: Option<real>): (rs: seq<ViewRow>)
    ensures |rs| == |Ingredients(r)|
    ensures forall k :: 0 <= k < |rs| ==> rs[k].number == k + 1 && rs[k].materialName == Ingredients(r)[k].materialName
    ensures TotalParts(Ingredients(r)) == 0.0 ==> forall k :: 0 <= k < |rs| ==> rs[k].pct == Fin(0.0) && rs[k].ml == 0.0
    ensures forall k :: 0 <= k < |rs| ==> rs[k].pct == PartsShare(Ingredients(r)[k].parts, TotalParts(Ingredients(r)))
    ensures forall k :: 0 <= k < |rs| ==> rs[k].ml == RowMl(DisplayVolume(custom, r.volume), rs[k].pct)
  {
    var rows := Ingredients(r);
    var total := TotalParts(rows);
    var volume := DisplayVolume(custom, r.volume);
    seq(|rows|, k requires 0 <= k < |rows| =>
      var pct := PartsShare(rows[k].parts, total);
      ViewRow(k + 1, rows[k].materialName, pct, RowMl(volume, pct)))
  }

  /** One shown row in plain arithmetic: with a non-zero total, the
      percentage is the row's parts over the total times 100 (NaN for
      non-numeric parts), and the amount is that percentage of the display
      volume, 0 when either is NaN. */
  lemma ViewRowAt(r: Recipe, custom: Option<real>, k: nat)
    requires k < |Ingredients(r)| && TotalParts(Ingredients(r)) != 0.0
    ensures var x := ViewRows(r, custom)[k];
      && (x.pct.Fin? <==> Ingredients(r)[k].parts.Numeric?)
      && (x.pct.Fin? ==> x.pct.v * TotalParts(Ingredients(r)) == Ingredients(r)[k].parts.value * 100.0)
      && (DisplayVolume(custom, r.volume).Fin? && x.pct.Fin? ==> x.ml * 100.0 == DisplayVolume(custom, r.volume).v * x.pct.v)
      && (DisplayVolume(custom, r.volume).NaN? || x.pct.NaN? ==> x.ml == 0.0)
  {
    var x := ViewRows(r, custom)[k];
    var rows := Ingredients(r);
    var t := TotalParts(rows);
    assert x.pct == PartsShare(rows[k].parts, t);
    assert x.ml == RowMl(DisplayVolume(custom, r.volume), x.pct);
  }

  function ViewPcts(rs: seq<ViewRow>): (xs: seq<Num>)
    ensures |xs| == |rs|
    ensures forall k :: 0 <= k < |rs| ==> xs[k] == rs[k].pct
  {
    if |rs| == 0 then [] else [rs[0].pct] + ViewPcts(rs[1..])
  }

  /** With numeric parts and a non-zero total, the shown percentages add up to 100. */
  lemma ViewPercentagesSum(r: Recipe, custom: Option<real>)
    requires AllPartsNumeric(Ingredients(r)) && TotalParts(Ingredients(r)) != 0.0
    ensures Total(ViewPcts(ViewRows(r, custom))) == Fin(100.0)
  {
    var rows := Ingredients(r);
    assert ViewPcts(ViewRows(r, custom)) == Shares(rows, TotalParts(rows));
    SharesSum(rows);
  }

  /** The shown amounts follow the what-if volume when one is set: the stored
      volume then plays no part. */
  lemma WhatIfIgnoresStoredVolume(r: Recipe, v: real, other: Raw)
    ensures ViewRows(r, Some(v)) == ViewRows(r.(volume := other), Some(v))
  {
  }

  /** Without a what-if volume the page shows exactly what it would show with
      the stored volume entered as the what-if volume. */
  lemma FallbackIsStoredVolume(r: Recipe)
    requires r.volume.Numeric?
    ensures ViewRows(r, None) == ViewRows(r, Some(r.volume.value))
  {
  }

  /** For a fixed percentage the amount is linear in the display volume. */
  lemma RowMlLinear(v: real, k: real, pct: Num)
    ensures RowMl(Fin(k * v), pct) == k * RowMl(Fin(v), pct)
  {
    if pct.Fin? {
      assert k * v * pct.v / 100.0 == k * (v * pct.v / 100.0);
    }
  }

  /** The what-if field: `setCustomVolume(Number(value) || null)`. 0 and
      non-numeric input clear it, any other number sets it. */
  function SetCustomVolume(value: Raw): (custom: Option<real>)
    ensures custom.None? <==> Coerce(value) == 0.0
    ensures custom.Some? ==> custom.value == value.value
  {
    if Coerce(value) != 0.0 then Some(Coerce(value)) else None
  }

  /** Clearing the what-if volume brings the page back to the stored volume. */
  lemma ClearedWhatIfShowsStored(r: Recipe, value: Raw)
    requires Coerce(value) == 0.0
    ensures ViewRows(r, SetCustomVolume(value)) == ViewRows(r, None)
  {
  }

  /** The Edit button: shown only to the signed-in owner, `user && user.uid === recipe.createdBy`. */
  function CanEdit(user: Option<User>, r: Recipe): (ok: bool)
    ensures ok <==> user.Some? && r.createdBy == Some(user.value.uid)
  {
    user.Some? && r.createdBy.Some? && user.value.uid == r.createdBy.value
  }
}
