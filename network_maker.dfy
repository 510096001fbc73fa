/**
 * The transfer network of transfer_linkage/network_maker.py.
 *
 * `make_adj` numbers the distinct facilities 0..n-1 and, walking each subject's rows
 * in order, adds one to the matrix entry (from, to) for every pair of consecutive
 * rows. The sparse n-by-n matrix is a map from index pairs to counts; a missing
 * entry reads as zero.
 */
module NetworkMaker {
  import opened Options
  import opened Rows

  /** The facility of every row. */
  function FacilityIds(rows: seq<Row>): (r: seq<string>)
    ensures |r| == |rows|
    ensures forall i :: 0 <= i < |rows| ==> r[i] == rows[i].fid
  {
    seq(|rows|, i requires 0 <= i < |rows| => rows[i].fid)
  }

  /** `database.select("fID").unique()`, taken in order of first appearance. */
  function Facilities(parts: seq<seq<Row>>): (r: seq<string>)
    ensures Distinct(r)
    ensures forall p, x :: p in parts && x in p ==> x.fid in r
    ensures forall f :: f in r ==> exists p, x :: p in parts && x in p && x.fid == f
  {
    var rows := Flatten(parts);
    var ids := FacilityIds(rows);
    assert forall x :: x in rows ==> x.fid in ids;
    assert forall f :: f in ids ==> exists x :: x in rows && x.fid == f;
    Unique(ids)
  }

  /** `{fac: i for i, fac in enumerate(facilities)}`. */
  function IndexMap(facilities: seq<string>): (m: map<string, int>)
    requires Distinct(facilities)
  {
    map i | 0 <= i < |facilities| :: facilities[i] := i
  }

  /** The index map numbers the facilities 0..n-1, one number each, in list order. */
  lemma {:induction false} IndexMapBijective(facilities: seq<string>)
    requires Distinct(facilities)
    ensures var m := IndexMap(facilities);
      && m.Keys == set f | f in facilities
      && (forall f :: f in m ==> 0 <= m[f] < |facilities| && facilities[m[f]] == f)
      && (forall i :: 0 <= i < |facilities| ==> m[facilities[i]] == i)
      && (forall f, g :: f in m && g in m && m[f] == m[g] ==> f == g)
  {
    var m := IndexMap(facilities);
    forall f | f in m
      ensures 0 <= m[f] < |facilities| && facilities[m[f]] == f
    {
      var i :| 0 <= i < |facilities| && facilities[i] == f;
      assert m[f] == i;
    }
  }

  /** The index map sends a listed facility to its position. */
  lemma {:induction false} IndexOf(facilities: seq<string>, f: string)
    requires Distinct(facilities) && f in facilities
    ensures f in IndexMap(facilities)
    ensures 0 <= IndexMap(facilities)[f] < |facilities| && facilities[IndexMap(facilities)[f]] == f
  {
    IndexMapBijective(facilities);
  }

  /** A matrix entry; entries never written are zero. */
  function Entry(adj: map<(int, int), int>, i: int, j: int): int {
    if (i, j) in adj then adj[(i, j)] else 0
  }

  /** How many times a row at `f` is directly followed by a row at `g` within `rows`. */
  function Transfers(rows: seq<Row>, f: string, g: string): nat
    decreases |rows|
  {
    if |rows| < 2 then 0
    else
      var step := if rows[|rows| - 2].fid == f && rows[|rows| - 1].fid == g then 1 else 0;
      Transfers(rows[..|rows| - 1], f, g) + step
  }

  /** The row at `r` adds the pair it closes, if any. */
  lemma {:induction false} TransfersStep(rows: seq<Row>, r: int, f: string, g: string)
    requires 0 <= r < |rows|
    ensures Transfers(rows[..r + 1], f, g)
      == Transfers(rows[..r], f, g) + (if r > 0 && rows[r - 1].fid == f && rows[r].fid == g then 1 else 0)
  {
    assert rows[..r + 1][..r] == rows[..r];
  }

  /** The row at `i` is at `g` and directly follows a row at `f`. */
  predicate MovesAt(rows: seq<Row>, i: int, f: string, g: string) {
    0 < i < |rows| && rows[i - 1].fid == f && rows[i].fid == g
  }

  /** A positive count has a move that witnesses it. */
  lemma {:induction false} TransfersWitness(rows: seq<Row>, f: string, g: string) returns (i: int)
    requires Transfers(rows, f, g) > 0
    ensures MovesAt(rows, i, f, g)
    decreases |rows|
  {
    var front := rows[..|rows| - 1];
    if Transfers(front, f, g) > 0 {
      i := TransfersWitness(front, f, g);
    } else {
      i := |rows| - 1;
    }
  }

  /** Every move is counted. */
  lemma {:induction false} TransfersCounts(rows: seq<Row>, i: int, f: string, g: string)
    requires MovesAt(rows, i, f, g)
    ensures Transfers(rows, f, g) > 0
    decreases |rows|
  {
    if i < |rows| - 1 {
      var front := rows[..|rows| - 1];
      assert MovesAt(front, i, f, g);
      TransfersCounts(front, i, f, g);
    }
  }

  /** A transfer from `f` to `g` is counted exactly when some row at `f` is directly followed by one at `g`. */
  lemma {:induction false} TransfersPositive(rows: seq<Row>, f: string, g: string)
    ensures Transfers(rows, f, g) > 0 <==> exists i :: MovesAt(rows, i, f, g)
  {
    if Transfers(rows, f, g) > 0 {
      var i := TransfersWitness(rows, f, g);
    }
    if i :| MovesAt(rows, i, f, g) {
      TransfersCounts(rows, i, f, g);
    }
  }

  /** `Transfers` over every subject, with nothing counted across subjects. */
  function AllTransfers(parts: seq<seq<Row>>, f: string, g: string): nat
    decreases |parts|
  {
    if parts == [] then 0
    else AllTransfers(parts[..|parts| - 1], f, g) + Transfers(parts[|parts| - 1], f, g)
  }

  /** The number of consecutive row pairs of all subjects: each subject's rows less one. */
  function Moves(parts: seq<seq<Row>>): nat
    decreases |parts|
  {
    if parts == [] then 0
    else Moves(parts[..|parts| - 1]) + (if parts[|parts| - 1] == [] then 0 else |parts[|parts| - 1]| - 1)
  }

  /** The sum of row `i` of the matrix over columns 0..n-1. */
  function RowSum(adj: map<(int, int), int>, i: int, n: nat): int
    decreases n
  {
    if n == 0 then 0 else RowSum(adj, i, n - 1) + Entry(adj, i, n - 1)
  }

  /** The sum of the top-left n-by-n block of the matrix. */
  function Total(adj: map<(int, int), int>, rows: nat, n: nat): int
    decreases rows
  {
    if rows == 0 then 0 else Total(adj, rows - 1, n) + RowSum(adj, rows - 1, n)
  }

  lemma {:induction false} RowSumBump(adj: map<(int, int), int>, i: int, j: int, k: int, n: nat)
    requires 0 <= j < n
    ensures RowSum(adj[(i, j) := Entry(adj, i, j) + 1], k, n)
      == RowSum(adj, k, n) + (if k == i then 1 else 0)
    decreases n
  {
    if j < n - 1 {
      RowSumBump(adj, i, j, k, n - 1);
    } else if n - 1 > 0 {
      RowSumUnchanged(adj, i, j, k, n - 1);
    }
  }

  lemma {:induction false} RowSumUnchanged(adj: map<(int, int), int>, i: int, j: int, k: int, n: nat)
    requires n <= j
    ensures RowSum(adj[(i, j) := Entry(adj, i, j) + 1], k, n) == RowSum(adj, k, n)
    decreases n
  {
    if n > 0 {
      RowSumUnchanged(adj, i, j, k, n - 1);
    }
  }

  /** Adding one to an entry inside the block adds one to the block's total. */
  lemma {:induction false} TotalBump(adj: map<(int, int), int>, i: int, j: int, rows: nat, n: nat)
    requires 0 <= i < rows && 0 <= j < n
    ensures Total(adj[(i, j) := Entry(adj, i, j) + 1], rows, n) == Total(adj, rows, n) + 1
    decreases rows
  {
    RowSumBump(adj, i, j, rows - 1, n);
    if i < rows - 1 {
      TotalBump(adj, i, j, rows - 1, n);
    } else {
      TotalUnchanged(adj, i, j, rows - 1, n);
    }
  }

  lemma {:induction false} TotalUnchanged(adj: map<(int, int), int>, i: int, j: int, rows: nat, n: nat)
    requires rows <= i && 0 <= j < n
    ensures Total(adj[(i, j) := Entry(adj, i, j) + 1], rows, n) == Total(adj, rows, n)
    decreases rows
  {
    if rows > 0 {
      RowSumBump(adj, i, j, rows - 1, n);
      TotalUnchanged(adj, i, j, rows - 1, n);
    }
  }

  lemma {:induction false} TotalEmpty(rows: nat, n: nat)
    ensures Total(map[], rows, n) == 0
    decreases rows
  {
    if rows > 0 {
      RowSumEmpty(rows - 1, n);
      TotalEmpty(rows - 1, n);
    }
  }

  lemma {:induction false} RowSumEmpty(i: int, n: nat)
    ensures RowSum(map[], i, n) == 0
    decreases n
  {
    if n > 0 {
      RowSumEmpty(i, n - 1);
    }
  }

  /** Adding one to entry (i0, j0) changes that entry alone. */
  lemma {:induction false} EntryBump(adj: map<(int, int), int>, i0: int, j0: int, i: int, j: int)
    ensures Entry(adj[(i0, j0) := Entry(adj, i0, j0) + 1], i, j)
      == Entry(adj, i, j) + (if i == i0 && j == j0 then 1 else 0)
  {
  }

  /** Every key of the matrix lies in the n-by-n block. */
  predicate InBlock(adj: map<(int, int), int>, n: int) {
    forall k :: k in adj ==> 0 <= k.0 < n && 0 <= k.1 < n
  }

  /** Every entry of `adj` is that of `adj0` plus the transfers within `rows`. */
  predicate CountsPairs(adj: map<(int, int), int>, adj0: map<(int, int), int>, rows: seq<Row>,
                        facilities: seq<string>) {
    forall i, j {:trigger Transfers(rows, facilities[i], facilities[j])} ::
      0 <= i < |facilities| && 0 <= j < |facilities| ==>
      Entry(adj, i, j) == Entry(adj0, i, j) + Transfers(rows, facilities[i], facilities[j])
  }

  /** The first row of a subject adds nothing. */
  lemma {:induction false} FirstRowEntries(adj0: map<(int, int), int>, adj: map<(int, int), int>, chunk: seq<Row>,
                        facilities: seq<string>)
    requires chunk != []
    requires CountsPairs(adj, adj0, chunk[..0], facilities)
    ensures CountsPairs(adj, adj0, chunk[..1], facilities)
  {
    forall i, j | 0 <= i < |facilities| && 0 <= j < |facilities|
      ensures Entry(adj, i, j) == Entry(adj0, i, j) + Transfers(chunk[..1], facilities[i], facilities[j])
    {
      assert Transfers(chunk[..0], facilities[i], facilities[j]) == 0;
    }
  }

  /**
   * One step of the inner loop: the pair (r-1, r) bumps its own entry and no other,
   * stays inside the block, and adds one to the total.
   */
  lemma {:induction false} AddPairEntries(adj0: map<(int, int), int>, adj: map<(int, int), int>, chunk: seq<Row>, r: int,
                       facilities: seq<string>, i0: int, j0: int)
    requires Distinct(facilities) && 0 < r < |chunk|
    requires 0 <= i0 < |facilities| && 0 <= j0 < |facilities|
    requires facilities[i0] == chunk[r - 1].fid && facilities[j0] == chunk[r].fid
    requires InBlock(adj, |facilities|)
    requires CountsPairs(adj, adj0, chunk[..r], facilities)
    ensures InBlock(adj[(i0, j0) := Entry(adj, i0, j0) + 1], |facilities|)
    ensures CountsPairs(adj[(i0, j0) := Entry(adj, i0, j0) + 1], adj0, chunk[..r + 1], facilities)
    ensures Total(adj[(i0, j0) := Entry(adj, i0, j0) + 1], |facilities|, |facilities|)
      == Total(adj, |facilities|, |facilities|) + 1
  {
    var n := |facilities|;
    TotalBump(adj, i0, j0, n, n);
    forall i, j | 0 <= i < n && 0 <= j < n
      ensures Entry(adj[(i0, j0) := Entry(adj, i0, j0) + 1], i, j)
        == Entry(adj0, i, j) + Transfers(chunk[..r + 1], facilities[i], facilities[j])
    {
      EntryBump(adj, i0, j0, i, j);
      TransfersStep(chunk, r, facilities[i], facilities[j]);
      assert facilities[i] == facilities[i0] <==> i == i0;
      assert facilities[j] == facilities[j0] <==> j == j0;
    }
  }

  /**
   * The inner loop of `make_adj` over one subject's rows: `from_nd` starts as None,
   * so the first row adds nothing, and each later row adds one to the entry from the
   * previous row's facility to its own.
   */
  method AddSubject(adj0: map<(int, int), int>, chunk: seq<Row>, facilities: seq<string>,
                    fmap: map<string, int>)
    returns (adj: map<(int, int), int>)
    requires Distinct(facilities) && fmap == IndexMap(facilities)
    requires forall x :: x in chunk ==> x.fid in facilities
    requires forall k :: k in adj0 ==> 0 <= k.0 < |facilities| && 0 <= k.1 < |facilities|
    ensures forall k :: k in adj ==> 0 <= k.0 < |facilities| && 0 <= k.1 < |facilities|
    ensures forall i, j :: 0 <= i < |facilities| && 0 <= j < |facilities| ==>
      Entry(adj, i, j) == Entry(adj0, i, j) + Transfers(chunk, facilities[i], facilities[j])
    ensures Total(adj, |facilities|, |facilities|)
      == Total(adj0, |facilities|, |facilities|) + (if chunk == [] then 0 else |chunk| - 1)
  {
    var n := |facilities|;
    adj := adj0;
    var fromNode: Option<string> := None;
    for r := 0 to |chunk|
      invariant fromNode == if r == 0 then None else Some(chunk[r - 1].fid)
      invariant InBlock(adj, n)
      invariant CountsPairs(adj, adj0, chunk[..r], facilities)
      invariant Total(adj, n, n) == Total(adj0, n, n) + (if r == 0 then 0 else r - 1)
    {
      var fid := chunk[r].fid;
      if fromNode.Some? {
        assert chunk[r - 1] in chunk && chunk[r] in chunk;
        IndexOf(facilities, fromNode.value);
        IndexOf(facilities, fid);
        var i, j := fmap[fromNode.value], fmap[fid];
        AddPairEntries(adj0, adj, chunk, r, facilities, i, j);
        adj := adj[(i, j) := Entry(adj, i, j) + 1];
      } else {
        FirstRowEntries(adj0, adj, chunk, facilities);
      }
      fromNode := Some(fid);
    }
    assert chunk[..|chunk|] == chunk;
  }

  /**
   * `make_adj` on the subject partitions: the index map, and a matrix whose entry
   * (map[f], map[g]) counts the consecutive row pairs from `f` to `g` within one
   * subject, whose keys lie in the n-by-n block, and whose entries add up to the
   * number of consecutive row pairs.
   */
  method MakeAdj(parts: seq<seq<Row>>) returns (adj: map<(int, int), int>, fmap: map<string, int>)
    ensures var facilities := Facilities(parts);
      && fmap == IndexMap(facilities)
      && (forall k :: k in adj ==> 0 <= k.0 < |facilities| && 0 <= k.1 < |facilities|)
      && (forall i, j :: 0 <= i < |facilities| && 0 <= j < |facilities| ==>
            Entry(adj, i, j) == AllTransfers(parts, facilities[i], facilities[j]))
      && Total(adj, |facilities|, |facilities|) == Moves(parts)
    ensures forall f, g :: f in fmap && g in fmap ==> Entry(adj, fmap[f], fmap[g]) == AllTransfers(parts, f, g)
  {
    var facilities := Facilities(parts);
    fmap := IndexMap(facilities);
    var n := |facilities|;
    adj := map[];
    TotalEmpty(n, n);
    for c := 0 to |parts|
      invariant forall k :: k in adj ==> 0 <= k.0 < n && 0 <= k.1 < n
      invariant forall i, j :: 0 <= i < n && 0 <= j < n ==>
        Entry(adj, i, j) == AllTransfers(parts[..c], facilities[i], facilities[j])
      invariant Total(adj, n, n) == Moves(parts[..c])
    {
      assert parts[..c + 1][..c] == parts[..c];
      assert parts[c] in parts;
      adj := AddSubject(adj, parts[c], facilities, fmap);
    }
    assert parts[..|parts|] == parts;
    IndexMapBijective(facilities);
  }
}
