/** The row-list editing shared by the ingredient tables: remove by id, edit a
  row's name or parts at a row index, and the 1-based row numbers shown.
 */
module IngredientTable {
  import opened Js
  import opened Records

  /** `prev.filter((x) => x.id !== id)`. */
  function RemoveRow(rows: seq<Row>, id: string): (r: seq<Row>)
    ensures |r| <= |rows|
    ensures forall k :: 0 <= k < |r| ==> r[k].id != id
  {
    if |rows| == 0 then []
    else
      var rest := RemoveRow(rows[1..], id);
      if rows[0].id == id then rest else [rows[0]] + rest
  }

  /** Every row with another id stays, as often as it occurred. */
  lemma {:induction false} RemoveRowKeepsOthers(rows: seq<Row>, id: string, x: Row)
    requires x.id != id
    ensures multiset(RemoveRow(rows, id))[x] == multiset(rows)[x]
  {
    if |rows| > 0 {
      RemoveRowKeepsOthers(rows[1..], id, x);
      assert rows == [rows[0]] + rows[1..];
    }
  }

  /** Removal works row by row: it distributes over concatenation, so the rows
      that stay keep their relative order. */
  lemma {:induction false} RemoveRowAppend(a: seq<Row>, b: seq<Row>, id: string)
    ensures RemoveRow(a + b, id) == RemoveRow(a, id) + RemoveRow(b, id)
  {
    if |a| == 0 {
      assert a + b == b;
    } else {
      assert (a + b)[1..] == a[1..] + b;
      RemoveRowAppend(a[1..], b, id);
    }
  }

  /** Removing an id no row carries changes nothing. */
  lemma {:induction false} RemoveAbsent(rows: seq<Row>, id: string)
    requires forall k :: 0 <= k < |rows| ==> rows[k].id != id
    ensures RemoveRow(rows, id) == rows
  {
    if |rows| > 0 {
      var tail := rows[1..];
      assert forall k :: 0 <= k < |tail| ==> tail[k] == rows[k + 1];
      RemoveAbsent(tail, id);
      assert [rows[0]] + tail == rows;
    }
  }

  /** Removing an id some row carries makes the list shorter. */
  lemma {:induction false} RemovePresent(rows: seq<Row>, id: string, k: nat)
    requires k < |rows| && rows[k].id == id
    ensures |RemoveRow(rows, id)| < |rows|
  {
    if k > 0 {
      assert rows[1..][k - 1] == rows[k];
      RemovePresent(rows[1..], id, k - 1);
    }
  }

  /** Removing an id leaves the list equal exactly when no row carries that id. */
  lemma RemoveAbsentIff(rows: seq<Row>, id: string)
    ensures RemoveRow(rows, id) == rows <==> forall k :: 0 <= k < |rows| ==> rows[k].id != id
  {
    if forall k :: 0 <= k < |rows| ==> rows[k].id != id {
      RemoveAbsent(rows, id);
    } else {
      var k :| 0 <= k < |rows| && rows[k].id == id;
      RemovePresent(rows, id, k);
    }
  }

  /** Removing twice is removing once. */
  lemma RemoveRowIdempotent(rows: seq<Row>, id: string)
    ensures RemoveRow(RemoveRow(rows, id), id) == RemoveRow(rows, id)
  {
    RemoveAbsentIff(RemoveRow(rows, id), id);
  }

  /** The name edit `c[idx] = { ...c[idx], materialName: value }`. */
  function SetName(rows: seq<Row>, idx: nat, name: string): (r: seq<Row>)
    requires idx < |rows|
    ensures |r| == |rows|
    ensures forall k :: 0 <= k < |rows| && k != idx ==> r[k] == rows[k]
    ensures r[idx] == Row(rows[idx].id, Some(name), rows[idx].parts, rows[idx].percentage)
  {
    rows[idx := rows[idx].(materialName := Some(name))]
  }

  /** The parts edit `c[idx] = { ...c[idx], parts: Number(value) || 0 }`. */
  function SetParts(rows: seq<Row>, idx: nat, value: Raw): (r: seq<Row>)
    requires idx < |rows|
    ensures |r| == |rows|
    ensures forall k :: 0 <= k < |rows| && k != idx ==> r[k] == rows[k]
    ensures r[idx] == Row(rows[idx].id, rows[idx].materialName, Numeric(Coerce(value)), rows[idx].percentage)
  {
    rows[idx := rows[idx].(parts := Numeric(Coerce(value)))]
  }

  /** A parts edit moves the total by the difference between the new coerced
      value and the old one; a name edit leaves it as it was. */
  lemma SetPartsTotal(rows: seq<Row>, idx: nat, value: Raw)
    requires idx < |rows|
    ensures TotalParts(SetParts(rows, idx, value)) == TotalParts(rows) - Coerce(rows[idx].parts) + Coerce(value)
  {
    assert PartsOf(SetParts(rows, idx, value)) == PartsOf(rows)[idx := Numeric(Coerce(value))];
    SumCoercedReplace(PartsOf(rows), idx, Numeric(Coerce(value)));
  }

  lemma SetNameTotal(rows: seq<Row>, idx: nat, name: string)
    requires idx < |rows|
    ensures TotalParts(SetName(rows, idx, name)) == TotalParts(rows)
    ensures TotalPercentage(SetName(rows, idx, name)) == TotalPercentage(rows)
  {
    assert PartsOf(SetName(rows, idx, name)) == PartsOf(rows);
    assert PercentagesOf(SetName(rows, idx, name)) == PercentagesOf(rows);
  }

  /** Every edit of the table keeps the parts numeric. */
  lemma EditsKeepPartsNumeric(rows: seq<Row>, idx: nat, name: string, value: Raw, id: string)
    requires AllPartsNumeric(rows) && idx < |rows|
    ensures AllPartsNumeric(SetName(rows, idx, name))
    ensures AllPartsNumeric(SetParts(rows, idx, value))
    ensures AllPartsNumeric(RemoveRow(rows, id))
  {
    RemoveKeepsNumeric(rows, id);
  }

  lemma {:induction false} RemoveKeepsNumeric(rows: seq<Row>, id: string)
    requires AllPartsNumeric(rows)
    ensures AllPartsNumeric(RemoveRow(rows, id))
  {
    if |rows| > 0 {
      assert AllPartsNumeric(rows[1..]) by {
        forall k | 0 <= k < |rows| - 1 ensures rows[1..][k].parts.Numeric? {
          assert rows[1..][k] == rows[k + 1];
        }
      }
      RemoveKeepsNumeric(rows[1..], id);
    }
  }

  /** `rows.map((r, idx) => ... idx + 1 ...)`: each row paired with its number. */
  function Numbered<T>(xs: seq<T>): (r: seq<(nat, T)>)
    ensures |r| == |xs|
    ensures forall k :: 0 <= k < |xs| ==> r[k] == (k + 1, xs[k])
  {
    if |xs| == 0 then []
    else Numbered(xs[..|xs| - 1]) + [(|xs|, xs[|xs| - 1])]
  }
}
