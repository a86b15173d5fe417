/** The edit page: ingredient rows carrying explicit percentages of the batch
  volume, loaded from a stored recipe, edited in place, saved back by merging
  into the stored document, or duplicated into a new private draft.
 */
module RecipeEditor {
  import opened Js
  import opened Text
  import opened Records

  /** The form's state. The batch volume keeps whatever the document held
      (`r.totalVolume_ml || 500`) until the field is edited. */
  datatype EditorState = EditorState(
    title: string,
    volume: Raw,
    status: string,
    tags: string,
    note: string,
    coverUrl: string,
    isPublic: bool,
    ingredients: seq<Row>)

  /** A derived table row: the ingredient, its coerced percentage and its amount. */
  datatype PercentageRow = PercentageRow(row: Row, percentage: real, amountMl: Num)

  /** The state before the document arrives. */
  function InitialState(): (s: EditorState)
    ensures s.volume == Numeric(500.0) && s.status == "draft" && !s.isPublic && s.ingredients == []
    ensures s.title == "" && s.tags == "" && s.note == "" && s.coverUrl == ""
  {
    EditorState("", Numeric(500.0), "draft", "", "", "", false, [])
  }

  /** Loading: an empty id and a missing document are errors; otherwise every
      missing field gets its default. */
  function Load(id: string, found: Option<Recipe>): (r: Result<EditorState>)
    ensures id == "" ==> r == Err("Missing recipe id.")
    ensures id != "" && found.None? ==> r == Err("Recipe not found.")
    ensures r.Ok? <==> id != "" && found.Some?
    ensures r.Ok? ==> r.value.title == StrOr(found.value.title, "")
    ensures r.Ok? ==> (r.value.volume == Numeric(500.0) <==> !Truthy(found.value.volume) || found.value.volume == Numeric(500.0))
    ensures r.Ok? ==> Truthy(r.value.volume)
    ensures r.Ok? ==> (found.value.status.None? ==> r.value.status == "draft")
    ensures r.Ok? ==> (r.value.isPublic <==> found.value.isPublic == Some(true))
    ensures r.Ok? ==> r.value.status == StrOr(found.value.status, "draft")
    ensures r.Ok? ==> r.value.volume == RawOr(found.value.volume, Numeric(500.0))
    ensures r.Ok? ==> r.value.note == StrOr(found.value.note, "") && r.value.coverUrl == StrOr(found.value.coverUrl, "")
    ensures r.Ok? ==> (found.value.ingredients.Some? ==> r.value.ingredients == found.value.ingredients.value)
    ensures r.Ok? ==> (found.value.ingredients.None? ==> r.value.ingredients == [])
    ensures r.Ok? ==> (found.value.tags.Some? ==> r.value.tags == Join(found.value.tags.value, ","))
    ensures r.Ok? ==> (found.value.tags.None? ==> r.value.tags == "")
  {
    if id == "" then Err("Missing recipe id.")
    else if found.None? then Err("Recipe not found.")
    else
      var d := found.value;
      Ok(EditorState(
        StrOr(d.title, ""),
        RawOr(d.volume, Numeric(500.0)),
        StrOr(d.status, "draft"),
        Join(if d.tags.Some? then d.tags.value else [], ","),
        StrOr(d.note, ""),
        StrOr(d.coverUrl, ""),
        d.isPublic == Some(true),
        if d.ingredients.Some? then d.ingredients.value else []))
  }

  function DerivePercentage(x: Row, volume: Raw): PercentageRow
  {
    var pct := Coerce(x.percentage);
    PercentageRow(x, pct, Div(Mul(ToNumber(volume), Fin(pct)), 100.0))
  }

  /** The table rows: `percentage: Number(i.percentage) || 0` and
      `amount_ml: (totalVolume * percentage) / 100`. No row is rescaled. */
  function PercentageRows(rows: seq<Row>, volume: Raw): (r: seq<PercentageRow>)
    ensures |r| == |rows|
    ensures forall k :: 0 <= k < |rows| ==> r[k].row == rows[k] && r[k].percentage == Coerce(rows[k].percentage)
    ensures volume.Numeric? ==> forall k :: 0 <= k < |rows| ==> r[k].amountMl == Fin(volume.value * Coerce(rows[k].percentage) / 100.0)
    ensures !volume.Numeric? ==> forall k :: 0 <= k < |rows| ==> r[k].amountMl == NaN
  {
    if |rows| == 0 then [] else [DerivePercentage(rows[0], volume)] + PercentageRows(rows[1..], volume)
  }

  /** A row's figures depend on that row alone: unlike the ratio pages, the
      derivation distributes over concatenation. */
  lemma {:induction false} PercentageRowsAppend(a: seq<Row>, b: seq<Row>, volume: Raw)
    ensures PercentageRows(a + b, volume) == PercentageRows(a, volume) + PercentageRows(b, volume)
  {
    if |a| == 0 {
      assert a + b == b;
    } else {
      assert (a + b)[1..] == a[1..] + b;
      PercentageRowsAppend(a[1..], b, volume);
    }
  }

  function AmountsOf(rs: seq<PercentageRow>): (xs: seq<Num>)
    ensures |xs| == |rs|
    ensures forall k :: 0 <= k < |rs| ==> xs[k] == rs[k].amountMl
  {
    seq(|rs|, k requires 0 <= k < |rs| => rs[k].amountMl)
  }

  /** The amounts add up to the volume times the plain percentage total over
      100, whatever that total is: nothing forces it to 100. */
  lemma {:induction false} AmountsFollowTotalPercentage(rows: seq<Row>, v: real)
    ensures Total(AmountsOf(PercentageRows(rows, Numeric(v)))) == Fin(v * TotalPercentage(rows) / 100.0)
  {
    var rs := PercentageRows(rows, Numeric(v));
    SumCoercedIsSum(PercentagesOf(rows));
    AmountsSum(rows, v);
  }

  lemma {:induction false} AmountsSum(rows: seq<Row>, v: real)
    ensures Total(AmountsOf(PercentageRows(rows, Numeric(v)))) == Fin(v * Sum(CoerceAll(PercentagesOf(rows))) / 100.0)
  {
    if |rows| > 0 {
      var rs := PercentageRows(rows, Numeric(v));
      assert rs[1..] == PercentageRows(rows[1..], Numeric(v));
      assert AmountsOf(rs)[1..] == AmountsOf(rs[1..]);
      assert PercentagesOf(rows)[1..] == PercentagesOf(rows[1..]);
      assert CoerceAll(PercentagesOf(rows))[1..] == CoerceAll(PercentagesOf(rows[1..]));
      AmountsSum(rows[1..], v);
      var p := Coerce(rows[0].percentage);
      var s := Sum(CoerceAll(PercentagesOf(rows[1..])));
      AmountAdd(v, p, s);
    }
  }

  /** `addRow`: a new row with a fresh id, an empty name and percentage 0. */
  function AddRow(rows: seq<Row>, freshId: string): (r: seq<Row>)
    ensures |r| == |rows| + 1 && r[..|rows|] == rows
    ensures r[|rows|] == Row(freshId, Some(""), Absent, Numeric(0.0))
    ensures TotalPercentage(r) == TotalPercentage(rows)
  {
    var r := rows + [Row(freshId, Some(""), Absent, Numeric(0.0))];
    assert PercentagesOf(r)[..|rows|] == PercentagesOf(rows);
    r
  }

  /** The percentage edit `c[idx] = { ...c[idx], percentage: Number(value) || 0 }`. */
  function SetPercentage(rows: seq<Row>, idx: nat, value: Raw): (r: seq<Row>)
    requires idx < |rows|
    ensures |r| == |rows|
    ensures forall k :: 0 <= k < |rows| && k != idx ==> r[k] == rows[k]
    ensures r[idx] == Row(rows[idx].id, rows[idx].materialName, rows[idx].parts, Numeric(Coerce(value)))
  {
    rows[idx := rows[idx].(percentage := Numeric(Coerce(value)))]
  }

  /** A percentage edit moves the total by exactly the change in that row. */
  lemma SetPercentageTotal(rows: seq<Row>, idx: nat, value: Raw)
    requires idx < |rows|
    ensures TotalPercentage(SetPercentage(rows, idx, value)) == TotalPercentage(rows) - Coerce(rows[idx].percentage) + Coerce(value)
  {
    assert PercentagesOf(SetPercentage(rows, idx, value)) == PercentagesOf(rows)[idx := Numeric(Coerce(value))];
    SumCoercedReplace(PercentagesOf(rows), idx, Numeric(Coerce(value)));
  }

  /** The saved form of one ingredient: its id, `materialName || ''` and
      `Number(percentage) || 0`; no `parts` field is written. */
  function SaveRow(x: Row, id: string): (y: Row)
    ensures y.id == id && y.materialName == Some(StrOr(x.materialName, ""))
    ensures y.parts == Absent && y.percentage == Numeric(Coerce(x.percentage))
  {
    Row(id, Some(StrOr(x.materialName, "")), Absent, Numeric(Coerce(x.percentage)))
  }

  function IdsOf(rows: seq<Row>): (ids: seq<string>)
    ensures |ids| == |rows|
    ensures forall k :: 0 <= k < |rows| ==> ids[k] == rows[k].id
  {
    if |rows| == 0 then [] else [rows[0].id] + IdsOf(rows[1..])
  }

  /** The saved rows, the k-th one under `ids[k]`. */
  function SaveRows(rows: seq<Row>, ids: seq<string>): (r: seq<Row>)
    requires |ids| == |rows|
    ensures |r| == |rows|
    ensures forall k :: 0 <= k < |rows| ==> r[k] == SaveRow(rows[k], ids[k])
  {
    if |rows| == 0 then [] else [SaveRow(rows[0], ids[0])] + SaveRows(rows[1..], ids[1..])
  }

  /** `save`: refused without a signed-in user; otherwise the form merged into
      the stored document (`setDoc(..., { merge: true })`): the form's fields
      replace the stored ones and the owner fields stay as they were. */
  function Save(s: EditorState, user: Option<User>, stored: Option<Recipe>): (r: Result<Recipe>)
    ensures user.None? <==> r == Err("Please sign in.")
    ensures r.Ok? ==> r.value.title == Some(TitleOrUntitled(s.title))
    ensures r.Ok? ==> r.value.volume == Numeric(Coerce(s.volume))
    ensures r.Ok? ==> r.value.tags == Some(ParseTags(s.tags)) && r.value.isPublic == Some(s.isPublic)
    ensures r.Ok? ==> r.value.note == Some(Trim(s.note)) && r.value.status == Some(s.status)
    ensures r.Ok? ==> r.value.coverUrl == Some(s.coverUrl)
    ensures r.Ok? ==> r.value.ingredients.Some? && |r.value.ingredients.value| == |s.ingredients|
    ensures r.Ok? ==> forall k :: 0 <= k < |s.ingredients| ==>
      r.value.ingredients.value[k].id == s.ingredients[k].id &&
      r.value.ingredients.value[k].materialName == Some(StrOr(s.ingredients[k].materialName, "")) &&
      r.value.ingredients.value[k].parts == Absent &&
      r.value.ingredients.value[k].percentage == Numeric(Coerce(s.ingredients[k].percentage))
    ensures r.Ok? && stored.Some? ==> r.value.createdBy == stored.value.createdBy && r.value.createdByName == stored.value.createdByName
    ensures r.Ok? && stored.None? ==> r.value.createdBy.None? && r.value.createdByName.None?
  {
    if user.None? then Err("Please sign in.")
    else
      Ok(Recipe(
        Some(TitleOrUntitled(s.title)),
        Numeric(Coerce(s.volume)),
        Some(s.status),
        Some(ParseTags(s.tags)),
        Some(Trim(s.note)),
        Some(s.coverUrl),
        Some(s.isPublic),
        Some(SaveRows(s.ingredients, IdsOf(s.ingredients))),
        if stored.Some? then stored.value.createdBy else None,
        if stored.Some? then stored.value.createdByName else None))
  }

  /** `duplicate`: refused without a signed-in user; otherwise a new private
      draft under `newId`, titled `(title.trim() || 'Untitled') + ' (Copy)'`,
      owned by the acting user, whose k-th row gets the fresh id `freshIds[k]`. */
  function Duplicate(s: EditorState, user: Option<User>, newId: string, freshIds: seq<string>): (r: Result<Created>)
    requires |freshIds| == |s.ingredients|
    ensures user.None? <==> r == Err("Please sign in.")
    ensures r.Ok? ==> r.value.id == newId && r.value.next == "/r/" + newId + "/edit"
    ensures r.Ok? ==> r.value.doc.title == Some(TitleOrUntitled(s.title) + " (Copy)")
    ensures r.Ok? ==> r.value.doc.status == Some("draft") && r.value.doc.isPublic == Some(false)
    ensures r.Ok? ==> r.value.doc.createdBy == Some(user.value.uid)
    ensures r.Ok? ==> r.value.doc.createdByName == Some(StrOr(user.value.displayName, ""))
    ensures r.Ok? ==> r.value.doc.tags == Some(ParseTags(s.tags)) && r.value.doc.volume == Numeric(Coerce(s.volume))
    ensures r.Ok? ==> r.value.doc.note == Some(Trim(s.note)) && r.value.doc.coverUrl == Some(s.coverUrl)
    ensures r.Ok? ==> r.value.doc.ingredients.Some? && |r.value.doc.ingredients.value| == |s.ingredients|
    ensures r.Ok? ==> forall k :: 0 <= k < |s.ingredients| ==>
      r.value.doc.ingredients.value[k].id == freshIds[k] &&
      r.value.doc.ingredients.value[k].materialName == Some(StrOr(s.ingredients[k].materialName, "")) &&
      r.value.doc.ingredients.value[k].parts == Absent &&
      r.value.doc.ingredients.value[k].percentage == Numeric(Coerce(s.ingredients[k].percentage))
  {
    if user.None? then Err("Please sign in.")
    else
      var doc := Recipe(
        Some(TitleOrUntitled(s.title) + " (Copy)"),
        Numeric(Coerce(s.volume)),
        Some("draft"),
        Some(ParseTags(s.tags)),
        Some(Trim(s.note)),
        Some(s.coverUrl),
        Some(false),
        Some(SaveRows(s.ingredients, freshIds)),
        Some(user.value.uid),
        Some(StrOr(user.value.displayName, "")));
      Ok(Created(newId, doc, "/r/" + newId + "/edit"))
  }

  /** Ids drawn from the fresh-id source: different from every id already in
      use and from each other. */
  predicate Fresh(ids: seq<string>, used: set<string>)
  {
    (forall k :: 0 <= k < |ids| ==> ids[k] !in used)
    && (forall j, k :: 0 <= j < k < |ids| ==> ids[j] != ids[k])
  }

  /** With fresh ids, the duplicate shares no id with its source: neither the
      document id nor any row id; its rows are pairwise distinct in id; and it
      is a private draft whatever the source's status and visibility. */
  lemma DuplicateIndependent(s: EditorState, user: User, sourceId: string, newId: string, freshIds: seq<string>)
    requires |freshIds| == |s.ingredients|
    requires Fresh([newId] + freshIds, {sourceId} + set k | 0 <= k < |s.ingredients| :: s.ingredients[k].id)
    ensures var c := Duplicate(s, Some(user), newId, freshIds);
      && c.Ok?
      && c.value.id != sourceId
      && (forall k :: 0 <= k < |s.ingredients| ==> c.value.doc.ingredients.value[k].id != s.ingredients[k].id)
      && (forall j, k :: 0 <= j < |s.ingredients| && 0 <= k < |s.ingredients| ==> c.value.doc.ingredients.value[j].id != s.ingredients[k].id)
      && (forall j, k :: 0 <= j < k < |s.ingredients| ==> c.value.doc.ingredients.value[j].id != c.value.doc.ingredients.value[k].id)
      && c.value.doc.status == Some("draft") && c.value.doc.isPublic == Some(false)
  {
    var ids := [newId] + freshIds;
    var used := {sourceId} + set k | 0 <= k < |s.ingredients| :: s.ingredients[k].id;
    assert ids[0] == newId && ids[0] !in used && sourceId in used;
    assert forall k :: 0 <= k < |freshIds| ==> freshIds[k] == ids[k + 1];
    var c := Duplicate(s, Some(user), newId, freshIds);
    var rows := c.value.doc.ingredients.value;
    forall j, k | 0 <= j < |s.ingredients| && 0 <= k < |s.ingredients|
      ensures rows[j].id != s.ingredients[k].id
    {
      assert ids[j + 1] == rows[j].id;
      assert s.ingredients[k].id in used;
    }
    forall j, k | 0 <= j < k < |s.ingredients|
      ensures rows[j].id != rows[k].id
    {
      assert ids[j + 1] == rows[j].id && ids[k + 1] == rows[k].id;
    }
  }
}
