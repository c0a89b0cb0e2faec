/** Restoring grid order (lines 339, 353, 377): the reader returns one value
    per cell in no particular order together with the cells' CellIDs;
    `datamap[cellids.argsort()].reshape([sizes[1], sizes[0]])` permutes the
    values into ascending CellID order and cuts them into rows. */
module CellOrder {
  import opened Outcomes

  /** Cell `j` comes before cell `k`: a smaller CellID, or an equal one and
      a smaller position in the reader's array. */
  predicate Before(ids: seq<int>, j: nat, k: nat)
    requires j < |ids| && k < |ids|
  {
    ids[j] < ids[k] || (ids[j] == ids[k] && j < k)
  }

  predicate Indices(ids: seq<int>, idx: seq<nat>) {
    forall k :: 0 <= k < |idx| ==> idx[k] < |ids|
  }

  /** The positions in `idx` are listed in ascending CellID order. */
  predicate Ordered(ids: seq<int>, idx: seq<nat>)
    requires Indices(ids, idx)
  {
    forall a, b :: 0 <= a < b < |idx| ==> Before(ids, idx[a], idx[b])
  }

  /** The positions 0, 1, ..., n-1. */
  function Range(n: nat): (r: seq<nat>)
    ensures |r| == n && forall k :: 0 <= k < n ==> r[k] == k
  {
    seq(n, k requires 0 <= k < n => k)
  }

  /** Inserts position `i` behind every listed cell that does not come after it. */
  function Insert(ids: seq<int>, sorted: seq<nat>, i: nat): (r: seq<nat>)
    requires i < |ids| && Indices(ids, sorted)
    ensures Indices(ids, r) && |r| == |sorted| + 1
    ensures multiset(r) == multiset(sorted) + multiset{i}
  {
    if sorted == [] then [i]
    else if ids[i] < ids[sorted[0]] then [i] + sorted
    else
      assert sorted == [sorted[0]] + sorted[1..];
      [sorted[0]] + Insert(ids, sorted[1..], i)
  }

  /** Inserting a position later than all listed ones keeps the list ordered. */
  lemma {:induction false} InsertOrdered(ids: seq<int>, sorted: seq<nat>, i: nat)
    requires i < |ids| && Indices(ids, sorted) && Ordered(ids, sorted)
    requires forall k :: 0 <= k < |sorted| ==> sorted[k] < i
    ensures Ordered(ids, Insert(ids, sorted, i))
  {
    if sorted != [] && ids[sorted[0]] <= ids[i] {
      var rest := Insert(ids, sorted[1..], i);
      InsertOrdered(ids, sorted[1..], i);
      forall b | 0 <= b < |rest| ensures Before(ids, sorted[0], rest[b]) {
        assert rest[b] in multiset(rest);
        if rest[b] != i {
          assert rest[b] in multiset(sorted[1..]);
          var a :| 0 <= a < |sorted[1..]| && sorted[1..][a] == rest[b];
          assert Before(ids, sorted[0], sorted[a + 1]);
        }
      }
    }
  }

  /** Stable argsort of the first `m` CellIDs. */
  function ArgSortPrefix(ids: seq<int>, m: nat): (r: seq<nat>)
    requires m <= |ids|
    ensures Indices(ids, r) && |r| == m
  {
    if m == 0 then [] else Insert(ids, ArgSortPrefix(ids, m - 1), m - 1)
  }

  /** `cellids.argsort()`. NumPy's default sort does not promise an order for
      equal CellIDs; this one keeps them in array order. */
  function ArgSort(ids: seq<int>): (p: seq<nat>)
    ensures |p| == |ids| && Indices(ids, p)
  {
    ArgSortPrefix(ids, |ids|)
  }

  lemma RangeSnoc(m: nat)
    requires m > 0
    ensures multiset(Range(m)) == multiset(Range(m - 1)) + multiset{(m - 1) as nat}
  {
    assert Range(m) == Range(m - 1) + [m - 1];
  }

  /** A rearrangement of 0..m-1 holds only positions below `m`. */
  lemma RangeBound(p: seq<nat>, m: nat)
    requires multiset(p) == multiset(Range(m))
    ensures forall k :: 0 <= k < |p| ==> p[k] < m
  {
    forall k | 0 <= k < |p| ensures p[k] < m {
      assert p[k] in multiset(Range(m));
    }
  }

  lemma {:induction false} ArgSortPrefixPermutes(ids: seq<int>, m: nat)
    requires m <= |ids|
    ensures multiset(ArgSortPrefix(ids, m)) == multiset(Range(m))
    ensures Ordered(ids, ArgSortPrefix(ids, m))
  {
    if m > 0 {
      var prev := ArgSortPrefix(ids, m - 1);
      ArgSortPrefixPermutes(ids, m - 1);
      RangeBound(prev, m - 1);
      InsertOrdered(ids, prev, m - 1);
      RangeSnoc(m);
    }
  }

  /** `argsort` lists every position exactly once, in ascending CellID order. */
  lemma ArgSortIsSortingPermutation(ids: seq<int>)
    ensures var p := ArgSort(ids);
      && |p| == |ids| && Indices(ids, p)
      && multiset(p) == multiset(Range(|ids|))
      && Ordered(ids, p)
  {
    ArgSortPrefixPermutes(ids, |ids|);
  }

  /** `values[idx]`: NumPy fancy indexing. */
  function Gather<T>(values: seq<T>, idx: seq<nat>): (r: seq<T>)
    requires forall k :: 0 <= k < |idx| ==> idx[k] < |values|
    ensures |r| == |idx|
  {
    if idx == [] then [] else [values[idx[0]]] + Gather(values, idx[1..])
  }

  lemma {:induction false} GatherAt<T>(values: seq<T>, idx: seq<nat>, k: nat)
    requires forall k :: 0 <= k < |idx| ==> idx[k] < |values|
    requires k < |idx|
    ensures Gather(values, idx)[k] == values[idx[k]]
  {
    if k > 0 {
      GatherAt(values, idx[1..], k - 1);
    }
  }

  lemma {:induction false} GatherInsert<T>(ids: seq<int>, values: seq<T>, sorted: seq<nat>, i: nat)
    requires i < |ids| <= |values| && Indices(ids, sorted)
    ensures multiset(Gather(values, Insert(ids, sorted, i))) == multiset(Gather(values, sorted)) + multiset{values[i]}
  {
    if sorted != [] && ids[sorted[0]] <= ids[i] {
      var rest := Insert(ids, sorted[1..], i);
      GatherInsert(ids, values, sorted[1..], i);
      assert Insert(ids, sorted, i) == [sorted[0]] + rest;
      assert ([sorted[0]] + rest)[1..] == rest;
    }
  }

  lemma PrefixMultiset<T>(s: seq<T>, m: nat)
    requires 0 < m <= |s|
    ensures multiset(s[..m]) == multiset(s[..m - 1]) + multiset{s[m - 1]}
  {
    assert s[..m] == s[..m - 1] + [s[m - 1]];
  }

  lemma {:induction false} GatherArgSortPrefix<T>(ids: seq<int>, values: seq<T>, m: nat)
    requires m <= |ids| <= |values|
    ensures multiset(Gather(values, ArgSortPrefix(ids, m))) == multiset(values[..m])
  {
    if m > 0 {
      var prev := ArgSortPrefix(ids, m - 1);
      GatherArgSortPrefix(ids, values, m - 1);
      GatherInsert(ids, values, prev, m - 1);
      assert ArgSortPrefix(ids, m) == Insert(ids, prev, m - 1);
      PrefixMultiset(values, m);
    }
  }

  /** `np.reshape` of a flat array into `rows` rows of `cols` values. */
  function Reshape<T>(flat: seq<T>, rows: nat, cols: nat): (g: seq<seq<T>>)
    requires |flat| == rows * cols
    ensures |g| == rows && forall r :: 0 <= r < rows ==> |g[r]| == cols
  {
    if rows == 0 then [] else [flat[..cols]] + Reshape(flat[cols..], rows - 1, cols)
  }

  /** Row-major flattening of a grid. */
  function Flatten<T>(g: seq<seq<T>>): seq<T> {
    if g == [] then [] else g[0] + Flatten(g[1..])
  }

  /** Row `r`, column `c` of the reshaped grid is flat element `r*cols + c`. */
  lemma {:induction false} ReshapeAt<T>(flat: seq<T>, rows: nat, cols: nat, r: nat, c: nat)
    requires |flat| == rows * cols && r < rows && c < cols
    ensures r * cols + c < |flat| && Reshape(flat, rows, cols)[r][c] == flat[r * cols + c]
  {
    if r > 0 {
      ReshapeAt(flat[cols..], rows - 1, cols, r - 1, c);
      assert (r - 1) * cols + cols == r * cols;
    }
  }

  /** Flattening the reshaped grid gives back the flat array. */
  lemma {:induction false} FlattenReshape<T>(flat: seq<T>, rows: nat, cols: nat)
    requires |flat| == rows * cols
    ensures Flatten(Reshape(flat, rows, cols)) == flat
  {
    if rows > 0 {
      FlattenReshape(flat[cols..], rows - 1, cols);
      assert flat == flat[..cols] + flat[cols..];
    }
  }

  datatype ReorderError =
    | IndexOutOfRange   // more CellIDs than values: `argsort` yields an index past the end
    | ShapeMismatch     // the cell count is not rows * cols: `reshape` refuses

  /** `values[ids.argsort()].reshape([rows, cols])`. */
  function ReorderCells<T>(ids: seq<int>, values: seq<T>, rows: nat, cols: nat): (r: Result<seq<seq<T>>, ReorderError>)
    ensures r.Ok? <==> |ids| <= |values| && |ids| == rows * cols
    ensures r.Ok? ==> |r.value| == rows && forall i :: 0 <= i < rows ==> |r.value[i]| == cols
  {
    if |ids| > |values| then Err(IndexOutOfRange)
    else if |ids| != rows * cols then Err(ShapeMismatch)
    else Ok(Reshape(Gather(values, ArgSort(ids)), rows, cols))
  }

  /** The grid holds exactly the values the cells had: the reorder is a
      permutation of the (first `|ids|`) values. */
  lemma ReorderCellsPermutes<T>(ids: seq<int>, values: seq<T>, rows: nat, cols: nat)
    requires |ids| <= |values| && |ids| == rows * cols
    ensures multiset(Flatten(ReorderCells(ids, values, rows, cols).value)) == multiset(values[..|ids|])
  {
    var flat := Gather(values, ArgSort(ids));
    assert ReorderCells(ids, values, rows, cols).value == Reshape(flat, rows, cols);
    FlattenReshape(flat, rows, cols);
    GatherArgSortPrefix(ids, values, |ids|);
  }

  /** Row `r`, column `c` of the grid holds the value of the cell listed at
      position `r*cols + c` in CellID order. */
  lemma ReorderCellsAt<T>(ids: seq<int>, values: seq<T>, rows: nat, cols: nat, r: nat, c: nat)
    requires |ids| <= |values| && |ids| == rows * cols
    requires r < rows && c < cols
    ensures var p := ArgSort(ids);
      r * cols + c < |p| && ReorderCells(ids, values, rows, cols).value[r][c] == values[p[r * cols + c]]
  {
    var p := ArgSort(ids);
    var flat := Gather(values, p);
    assert ReorderCells(ids, values, rows, cols).value == Reshape(flat, rows, cols);
    ReshapeAt(flat, rows, cols, r, c);
    var k := r * cols + c;
    GatherAt(values, p, k);
  }

  /** The cell sorted into position `k` is the `k`-th smallest: exactly `k`
      cells come before it. */
  lemma ArgSortRank(ids: seq<int>, k: nat)
    requires k < |ids|
    ensures var p := ArgSort(ids);
      |set j | 0 <= j < |ids| && Before(ids, j, p[k])| == k
  {
    var p := ArgSort(ids);
    ArgSortIsSortingPermutation(ids);
    var smaller := set j | 0 <= j < |ids| && Before(ids, j, p[k]);
    var listed := set a | 0 <= a < k :: p[a];
    forall j | j in smaller ensures j in listed {
      assert Range(|ids|)[j] == j;
      assert j in multiset(Range(|ids|));
      assert j in multiset(p);
      var a :| 0 <= a < |p| && p[a] == j;
      assert a < k;
    }
    assert smaller == listed;
    ImageSize(ids, p, k);
  }

  /** The first `k` entries of an ordered list are `k` distinct positions. */
  lemma {:induction false} ImageSize(ids: seq<int>, p: seq<nat>, k: nat)
    requires Indices(ids, p) && Ordered(ids, p) && k <= |p|
    ensures |set a | 0 <= a < k :: p[a]| == k
  {
    if k > 0 {
      ImageSize(ids, p, k - 1);
      var prev := set a | 0 <= a < k - 1 :: p[a];
      assert (set a | 0 <= a < k :: p[a]) == prev + {p[k - 1]};
      assert p[k - 1] !in prev;
    }
  }
}
