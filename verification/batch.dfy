/**
  Turning a flat feature list into a two-dimensional batch, as a numeric
  array's `reshape(rows, -1)` does: the column count is inferred so that the
  rows, read one after another, are the original list.
 */
module Batch {

  /** Row-major reading of a batch. */
  function Flatten(rows: seq<seq<real>>): seq<real> {
    if |rows| == 0 then [] else rows[0] + Flatten(rows[1..])
  }

  /** Cut `flat` into `rows` consecutive rows of `width` entries each. */
  function Chunk(flat: seq<real>, rows: nat, width: nat): (b: seq<seq<real>>)
    requires |flat| == rows * width
    ensures |b| == rows
    ensures forall i :: 0 <= i < rows ==> |b[i]| == width
    ensures Flatten(b) == flat
    decreases rows
  {
    if rows == 0 then []
    else
      var rest := Chunk(flat[width..], rows - 1, width);
      assert ([flat[..width]] + rest)[1..] == rest;
      [flat[..width]] + rest
  }

  /** `reshape(rows, -1)`: `rows` rows whose width is inferred from the length of `flat`. */
  function Reshape(flat: seq<real>, rows: nat): (b: seq<seq<real>>)
    requires rows > 0 && |flat| % rows == 0
    ensures |b| == rows
    ensures forall i :: 0 <= i < rows ==> |b[i]| == |flat| / rows
    ensures Flatten(b) == flat
  {
    Chunk(flat, rows, |flat| / rows)
  }

  /** Reshaping to one row gives the batch whose only row is the list itself. */
  lemma SingleRow(flat: seq<real>)
    ensures Reshape(flat, 1) == [flat]
  {
    var b := Reshape(flat, 1);
    assert |b| == 1;
    assert Flatten(b[1..]) == [];
    assert Flatten(b) == b[0] + Flatten(b[1..]);
    assert b[0] == flat;
  }
}
