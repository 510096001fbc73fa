/**
 * The transition stream of transfer_linkage/parse_transitions.py.
 *
 * For one subject's rows, in order, `parse_indv_transition` yields the first row's
 * admission, then for each pair of consecutive rows either the next admission alone
 * (a direct transfer: the next admission comes less than `window` days after the
 * discharge) or a discharge marker followed by the next admission, and finally a
 * discharge marker for the last row. `parse_transitions` concatenates the streams of
 * all subject partitions, with the default window of one day.
 */
module ParseTransitions {
  import opened Options
  import opened Rows

  /** One yielded record `{sID, fID, Date}`; `fid` is None for a discharge marker. */
  datatype Transition = Transition(sid: string, fid: Option<string>, date: int)

  /** The default `window` of `parse_indv_transition`, which `parse_transitions` relies on. */
  const DefaultWindow := 1

  /** `(sID, fID, Adate)` of a row. */
  function Admission(r: Row): Transition {
    Transition(r.sid, Some(r.fid), r.adate)
  }

  /** `(sID, None, Ddate)` of a row. */
  function Discharge(r: Row): Transition {
    Transition(r.sid, None, r.ddate)
  }

  /** A direct transfer: the next admission starts less than `window` after this discharge. */
  predicate Direct(row: Row, next: Row, window: int) {
    next.adate - row.ddate < window
  }

  /** What one pair of consecutive rows yields. */
  function Link(row: Row, next: Row, window: int): seq<Transition> {
    if Direct(row, next, window) then [Admission(next)] else [Discharge(row), Admission(next)]
  }

  /** What the `for row, next_row` loop yields over all consecutive pairs of `rows`. */
  function Links(rows: seq<Row>, window: int): seq<Transition>
    decreases |rows|
  {
    if |rows| < 2 then []
    else Links(rows[..|rows| - 1], window) + Link(rows[|rows| - 2], rows[|rows| - 1], window)
  }

  /**
   * The list of what `parse_indv_transition` yields, or None for an empty chunk, on
   * which the first `next` raises.
   */
  function IndvTransitions(rows: seq<Row>, window: int): Option<seq<Transition>> {
    if rows == [] then None
    else Some([Admission(rows[0])] + Links(rows, window) + [Discharge(rows[|rows| - 1])])
  }

  /** `parse_indv_transition`, with its generator's output collected into a list. */
  method ParseIndvTransition(chunk: seq<Row>, window: int) returns (r: Option<seq<Transition>>)
    ensures r == IndvTransitions(chunk, window)
  {
    if chunk == [] {
      return None;
    }
    var out := [Admission(chunk[0])];
    for i := 0 to |chunk| - 1
      invariant out == [Admission(chunk[0])] + Links(chunk[..i + 1], window)
    {
      var row, next := chunk[i], chunk[i + 1];
      assert chunk[..i + 2][..i + 1] == chunk[..i + 1];
      if next.adate - row.ddate < window {
        out := out + [Admission(next)];
      } else {
        out := out + [Discharge(row), Admission(next)];
      }
    }
    assert chunk[..|chunk|] == chunk;
    out := out + [Discharge(chunk[|chunk| - 1])];
    return Some(out);
  }

  // ------------------------------------------------------------ what it yields

  /** The number of consecutive pairs that are not direct transfers. */
  function Gaps(rows: seq<Row>, window: int): (n: nat)
    ensures |rows| < 2 ==> n == 0
    ensures n <= |rows| - 1 || rows == []
    decreases |rows|
  {
    if |rows| < 2 then 0
    else Gaps(rows[..|rows| - 1], window) + (if Direct(rows[|rows| - 2], rows[|rows| - 1], window) then 0 else 1)
  }

  lemma {:induction false} LinksLength(rows: seq<Row>, window: int)
    ensures |Links(rows, window)| == (if rows == [] then 0 else |rows| - 1) + Gaps(rows, window)
    decreases |rows|
  {
    if |rows| >= 2 {
      LinksLength(rows[..|rows| - 1], window);
    }
  }

  /**
   * The stream opens with the first admission, closes with the last discharge, and
   * holds one record per row, one closing marker and one marker per gap.
   */
  lemma {:induction false} IndvShape(rows: seq<Row>, window: int)
    ensures IndvTransitions(rows, window).None? <==> rows == []
    ensures rows != [] ==>
      var t := IndvTransitions(rows, window).value;
      && t[0] == Admission(rows[0])
      && t[|t| - 1] == Discharge(rows[|rows| - 1])
      && |t| == |rows| + 1 + Gaps(rows, window)
      && |rows| + 1 <= |t| <= 2 * |rows|
  {
    if rows != [] {
      LinksLength(rows, window);
    }
  }

  /** A wider window never makes the stream longer: it turns gaps into direct transfers. */
  lemma {:induction false} GapsAntitone(rows: seq<Row>, narrow: int, wide: int)
    requires narrow <= wide
    ensures Gaps(rows, wide) <= Gaps(rows, narrow)
    decreases |rows|
  {
    if |rows| >= 2 {
      GapsAntitone(rows[..|rows| - 1], narrow, wide);
    }
  }

  /**
   * The discharge of the earlier row of every gap, in row order: exactly the
   * discharges of rows that are not followed by a direct transfer.
   */
  function GapMarkers(rows: seq<Row>, window: int): (r: seq<Transition>)
    ensures |r| == Gaps(rows, window)
    decreases |rows|
  {
    if |rows| < 2 then []
    else
      GapMarkers(rows[..|rows| - 1], window)
      + (if Direct(rows[|rows| - 2], rows[|rows| - 1], window) then [] else [Discharge(rows[|rows| - 2])])
  }

  /** The gap markers are exactly the discharges of rows not followed by a direct transfer. */
  lemma {:induction false} GapMarkersMembers(rows: seq<Row>, window: int)
    ensures forall i :: 0 <= i < |rows| - 1 && !Direct(rows[i], rows[i + 1], window) ==>
      Discharge(rows[i]) in GapMarkers(rows, window)
    ensures forall m :: m in GapMarkers(rows, window) ==>
      exists i :: 0 <= i < |rows| - 1 && !Direct(rows[i], rows[i + 1], window) && m == Discharge(rows[i])
    decreases |rows|
  {
    if |rows| >= 2 {
      var init := rows[..|rows| - 1];
      GapMarkersMembers(init, window);
      assert forall i :: 0 <= i < |init| ==> init[i] == rows[i];
    }
  }

  /** The admission records of a stream, in order. */
  function Admissions(ts: seq<Transition>): seq<Transition>
    decreases |ts|
  {
    if ts == [] then []
    else Admissions(ts[..|ts| - 1]) + (if ts[|ts| - 1].fid.Some? then [ts[|ts| - 1]] else [])
  }

  /** The discharge markers of a stream, in order. */
  function Markers(ts: seq<Transition>): seq<Transition>
    decreases |ts|
  {
    if ts == [] then []
    else Markers(ts[..|ts| - 1]) + (if ts[|ts| - 1].fid.None? then [ts[|ts| - 1]] else [])
  }

  lemma {:induction false} SingleFilters(t: Transition)
    ensures Admissions([t]) == if t.fid.Some? then [t] else []
    ensures Markers([t]) == if t.fid.None? then [t] else []
  {
    assert [t][..0] == [];
  }

  lemma {:induction false} AdmissionsAppend(a: seq<Transition>, b: seq<Transition>)
    ensures Admissions(a + b) == Admissions(a) + Admissions(b)
    decreases |b|
  {
    if b == [] {
      assert a + b == a;
    } else {
      var ab := a + b;
      assert ab[..|ab| - 1] == a + b[..|b| - 1];
      assert ab[|ab| - 1] == b[|b| - 1];
      AdmissionsAppend(a, b[..|b| - 1]);
    }
  }

  lemma {:induction false} MarkersAppend(a: seq<Transition>, b: seq<Transition>)
    ensures Markers(a + b) == Markers(a) + Markers(b)
    decreases |b|
  {
    if b == [] {
      assert a + b == a;
    } else {
      var ab := a + b;
      assert ab[..|ab| - 1] == a + b[..|b| - 1];
      assert ab[|ab| - 1] == b[|b| - 1];
      MarkersAppend(a, b[..|b| - 1]);
    }
  }

  lemma {:induction false} FiltersOfThree(a: seq<Transition>, b: seq<Transition>, c: seq<Transition>)
    ensures Admissions(a + b + c) == Admissions(a) + Admissions(b) + Admissions(c)
    ensures Markers(a + b + c) == Markers(a) + Markers(b) + Markers(c)
  {
    AdmissionsAppend(a, b);
    AdmissionsAppend(a + b, c);
    MarkersAppend(a, b);
    MarkersAppend(a + b, c);
  }

  /** Every row's admission, in row order. */
  function RowAdmissions(rows: seq<Row>): seq<Transition>
    decreases |rows|
  {
    if rows == [] then [] else RowAdmissions(rows[..|rows| - 1]) + [Admission(rows[|rows| - 1])]
  }

  /** The row just added at the back is the last admission. */
  lemma {:induction false} RowAdmissionsSnoc(rows: seq<Row>, x: Row)
    ensures RowAdmissions(rows + [x]) == RowAdmissions(rows) + [Admission(x)]
  {
    assert (rows + [x])[..|rows|] == rows;
  }

  lemma {:induction false} RowAdmissionsAppend(x: seq<Row>, y: seq<Row>)
    ensures RowAdmissions(x + y) == RowAdmissions(x) + RowAdmissions(y)
    decreases |y|
  {
    if y == [] {
      assert x + y == x;
    } else {
      var init := y[..|y| - 1];
      var last := y[|y| - 1];
      assert x + y == (x + init) + [last];
      assert y == init + [last];
      RowAdmissionsSnoc(x + init, last);
      RowAdmissionsSnoc(init, last);
      RowAdmissionsAppend(x, init);
    }
  }

  lemma {:induction false} RowAdmissionsCons(rows: seq<Row>)
    requires rows != []
    ensures RowAdmissions(rows) == [Admission(rows[0])] + RowAdmissions(rows[1..])
  {
    assert rows == [rows[0]] + rows[1..];
    RowAdmissionsAppend([rows[0]], rows[1..]);
  }

  /** One pair of rows yields the next admission, and nothing else that is an admission. */
  lemma {:induction false} LinkAdmissions(row: Row, next: Row, window: int)
    ensures Admissions(Link(row, next, window)) == [Admission(next)]
  {
    SingleFilters(Admission(next));
    if !Direct(row, next, window) {
      SingleFilters(Discharge(row));
      assert Link(row, next, window) == [Discharge(row)] + [Admission(next)];
      AdmissionsAppend([Discharge(row)], [Admission(next)]);
    }
  }

  /** One pair of rows yields the earlier row's discharge marker exactly when there is a gap. */
  lemma {:induction false} LinkMarkers(row: Row, next: Row, window: int)
    ensures Markers(Link(row, next, window)) == if Direct(row, next, window) then [] else [Discharge(row)]
  {
    SingleFilters(Admission(next));
    if !Direct(row, next, window) {
      SingleFilters(Discharge(row));
      assert Link(row, next, window) == [Discharge(row)] + [Admission(next)];
      MarkersAppend([Discharge(row)], [Admission(next)]);
    }
  }

  /** Dropping the first and the last row commute. */
  lemma {:induction false} InnerSlices(rows: seq<Row>)
    requires |rows| >= 2
    ensures rows[1..][..|rows| - 2] == rows[..|rows| - 1][1..]
  {
  }

  /** The loop yields the admission of every row after the first, in order. */
  lemma {:induction false} LinksAdmissions(rows: seq<Row>, window: int)
    requires rows != []
    ensures Admissions(Links(rows, window)) == RowAdmissions(rows[1..])
    decreases |rows|
  {
    if |rows| >= 2 {
      var init := rows[..|rows| - 1];
      var row, next := rows[|rows| - 2], rows[|rows| - 1];
      assert Links(rows, window) == Links(init, window) + Link(row, next, window);
      LinksAdmissions(init, window);
      AdmissionsAppend(Links(init, window), Link(row, next, window));
      LinkAdmissions(row, next, window);
      InnerSlices(rows);
      assert RowAdmissions(rows[1..]) == RowAdmissions(rows[1..][..|rows| - 2]) + [Admission(next)];
    } else {
      assert rows[1..] == [];
    }
  }

  /** The loop yields the discharge marker of the earlier row of every gap, in order. */
  lemma {:induction false} LinksMarkers(rows: seq<Row>, window: int)
    ensures Markers(Links(rows, window)) == GapMarkers(rows, window)
    ensures |Markers(Links(rows, window))| == Gaps(rows, window)
    decreases |rows|
  {
    if |rows| >= 2 {
      var init := rows[..|rows| - 1];
      var row, next := rows[|rows| - 2], rows[|rows| - 1];
      assert Links(rows, window) == Links(init, window) + Link(row, next, window);
      LinksMarkers(init, window);
      MarkersAppend(Links(init, window), Link(row, next, window));
      LinkMarkers(row, next, window);
    }
  }

  /** Keeping only the admission records gives back every row's `(sID, fID, Adate)` in order. */
  lemma {:induction false} IndvAdmissions(rows: seq<Row>, window: int)
    requires rows != []
    ensures Admissions(IndvTransitions(rows, window).value) == RowAdmissions(rows)
  {
    var head, last := [Admission(rows[0])], [Discharge(rows[|rows| - 1])];
    var links := Links(rows, window);
    assert IndvTransitions(rows, window).value == head + links + last;
    LinksAdmissions(rows, window);
    SingleFilters(Admission(rows[0]));
    SingleFilters(Discharge(rows[|rows| - 1]));
    FiltersOfThree(head, links, last);
    RowAdmissionsCons(rows);
    assert head + RowAdmissions(rows[1..]) + [] == RowAdmissions(rows);
  }

  /** The stream's markers are the loop's, then the final discharge. */
  lemma {:induction false} IndvMarkersSplit(rows: seq<Row>, window: int)
    requires rows != []
    ensures Markers(IndvTransitions(rows, window).value) == Markers(Links(rows, window)) + [Discharge(rows[|rows| - 1])]
  {
    var head, last := [Admission(rows[0])], [Discharge(rows[|rows| - 1])];
    var links := Links(rows, window);
    assert IndvTransitions(rows, window).value == head + links + last;
    SingleFilters(Admission(rows[0]));
    SingleFilters(Discharge(rows[|rows| - 1]));
    FiltersOfThree(head, links, last);
    assert [] + Markers(links) + last == Markers(links) + last;
  }

  /**
   * The discharge markers are those of the earlier row of every gap, in order,
   * then the last row's: one per gap, and one more at the end.
   */
  lemma {:induction false} IndvMarkers(rows: seq<Row>, window: int)
    requires rows != []
    ensures Markers(IndvTransitions(rows, window).value) == GapMarkers(rows, window) + [Discharge(rows[|rows| - 1])]
    ensures |Markers(IndvTransitions(rows, window).value)| == Gaps(rows, window) + 1
  {
    IndvMarkersSplit(rows, window);
    LinksMarkers(rows, window);
  }

  // ------------------------------------------------------------ all subjects

  /**
   * `parse_transitions` on the subject partitions, in partition order: None when there
   * are none (`pl.concat` of an empty list raises) or when one is empty.
   */
  function AllTransitions(parts: seq<seq<Row>>): Option<seq<Transition>> {
    if parts == [] then None else Concatenated(parts)
  }

  /** The streams of `parts` one after the other, or None if one of them raises. */
  function Concatenated(parts: seq<seq<Row>>): Option<seq<Transition>>
    decreases |parts|
  {
    if parts == [] then Some([])
    else match IndvTransitions(parts[0], DefaultWindow)
      case None => None
      case Some(first) =>
        match Concatenated(parts[1..])
        case None => None
        case Some(rest) => Some(first + rest)
  }

  /** The stream lengths of all partitions, added up. */
  function TotalLength(parts: seq<seq<Row>>): int
    decreases |parts|
  {
    if parts == [] then 0
    else |parts[0]| + 1 + Gaps(parts[0], DefaultWindow) + TotalLength(parts[1..])
  }

  lemma {:induction false} ConcatenatedDefined(parts: seq<seq<Row>>)
    ensures Concatenated(parts).Some? <==> forall i :: 0 <= i < |parts| ==> parts[i] != []
    decreases |parts|
  {
    if parts != [] {
      ConcatenatedDefined(parts[1..]);
      assert Concatenated(parts).Some? <==> parts[0] != [] && Concatenated(parts[1..]).Some?;
      assert forall i :: 0 < i < |parts| ==> parts[i] == parts[1..][i - 1];
    }
  }

  lemma {:induction false} ConcatenatedShape(parts: seq<seq<Row>>)
    requires Concatenated(parts).Some?
    ensures |Concatenated(parts).value| == TotalLength(parts)
    ensures Admissions(Concatenated(parts).value) == RowAdmissions(Flatten(parts))
    decreases |parts|
  {
    if parts != [] {
      var first := IndvTransitions(parts[0], DefaultWindow).value;
      var rest := Concatenated(parts[1..]).value;
      ConcatenatedShape(parts[1..]);
      IndvShape(parts[0], DefaultWindow);
      IndvAdmissions(parts[0], DefaultWindow);
      AdmissionsAppend(first, rest);
      RowAdmissionsAppend(parts[0], Flatten(parts[1..]));
    }
  }

  /**
   * `parse_transitions` succeeds exactly when there is a partition and none is empty;
   * it then holds each subject's stream in partition order, and its admission records
   * are all rows' admissions in that order.
   */
  lemma {:induction false} AllTransitionsShape(parts: seq<seq<Row>>)
    ensures AllTransitions(parts).Some? <==> parts != [] && forall i :: 0 <= i < |parts| ==> parts[i] != []
    ensures AllTransitions(parts).Some? ==>
      && |AllTransitions(parts).value| == TotalLength(parts)
      && Admissions(AllTransitions(parts).value) == RowAdmissions(Flatten(parts))
  {
    ConcatenatedDefined(parts);
    if AllTransitions(parts).Some? {
      ConcatenatedShape(parts);
    }
  }
}
