/**
 * JavaScript's `Array.prototype.join()` with its default separator ",",
 * on arrays whose elements are strings, and what can be recovered from its result.
 */
module ArrayJoin {

  /** `cells.join()`: the cells separated by commas; the empty array joins to "". */
  function Join(cells: seq<string>): string
  {
    if |cells| == 0 then ""
    else if |cells| == 1 then cells[0]
    else cells[0] + "," + Join(cells[1..])
  }

  /** No cell of `cells` contains the separator. */
  predicate CommaFree(cells: seq<string>)
  {
    forall k :: 0 <= k < |cells| ==> ',' !in cells[k]
  }

  /**
   * The shape of a join of comma-free cells: one cell joins to itself and has
   * no comma; two or more join to the first cell, a comma, and the join of the rest.
   */
  lemma JoinShape(cells: seq<string>)
    requires |cells| > 0 && CommaFree(cells)
    ensures |cells| == 1 ==> Join(cells) == cells[0] && ',' !in Join(cells)
    ensures |cells| >= 2 ==>
      && |Join(cells)| > |cells[0]|
      && Join(cells)[..|cells[0]|] == cells[0]
      && Join(cells)[|cells[0]|] == ','
      && Join(cells)[|cells[0]| + 1..] == Join(cells[1..])
      && (forall k :: 0 <= k < |cells[0]| ==> Join(cells)[k] != ',')
  {
  }

  /**
   * Joining is injective on non-empty arrays of comma-free cells: the joined
   * text determines the cells. (Without the two side conditions it is not:
   * `[]` and `[""]` both join to "", and `["a,b"]` and `["a", "b"]` both join to "a,b".)
   */
  lemma {:induction false} JoinInjective(a: seq<string>, b: seq<string>)
    requires |a| > 0 && |b| > 0
    requires CommaFree(a) && CommaFree(b)
    requires Join(a) == Join(b)
    ensures a == b
  {
    JoinShape(a);
    JoinShape(b);
    if |a| == 1 {
      assert |b| == 1;
      assert a == [a[0]] && b == [b[0]];
    } else {
      assert |b| >= 2;
      assert |a[0]| == |b[0]|;
      assert a[0] == b[0];
      assert Join(a[1..]) == Join(b[1..]);
      assert CommaFree(a[1..]) && CommaFree(b[1..]) by {
        assert forall k :: 0 <= k < |a| - 1 ==> a[1..][k] == a[k + 1];
        assert forall k :: 0 <= k < |b| - 1 ==> b[1..][k] == b[k + 1];
      }
      JoinInjective(a[1..], b[1..]);
      assert a == [a[0]] + a[1..];
      assert b == [b[0]] + b[1..];
    }
  }
}
