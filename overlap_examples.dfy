/**
 * The cases of tests/test_overlap_fixer.py, proved about the model of `clean_overlaps`;
 * the inputs on which the source itself stops with an exception; and two runs with
 * stays that end on the same day.
 *
 * Each case is split the same way: a lemma that sweeps the sorted events to the
 * final state, a lemma that pairs the records, and one that puts the two together.
 * Facility ids are parameters that are only known to differ, which keeps the
 * string comparisons out of the sweep.
 */
module OverlapExamples {
  import opened Options
  import opened Events
  import opened OverlapFixer

  /** A closed sweep with the given records. */
  function Closed(recs: seq<Event>): Sweep {
    Sweep(None, None, false, [], recs)
  }

  /**
   * When sorted events are a permutation of the stays' events and sweep to a closed
   * state whose records pair up to `out`, `clean_overlaps` gives `out`.
   */
  lemma {:induction false} CleanVia(chunk: seq<Stay>, evs: seq<Event>, recs: seq<Event>, out: seq<Stay>)
    requires Sorted(evs)
    requires multiset(evs) == multiset(Project(chunk))
    requires Run(Init, evs) == Ok(Closed(recs))
    requires Unpair(recs) == Ok(out)
    ensures CleanResult(chunk) == Ok(out)
  {
    SortEventsIsSorted(Project(chunk), evs);
    SortEventsIdempotent(evs);
  }

  /** When such events stop the sweep with `f`, `clean_overlaps` raises `f`. */
  lemma {:induction false} FailVia(chunk: seq<Stay>, evs: seq<Event>, f: Failure)
    requires Sorted(evs)
    requires multiset(evs) == multiset(Project(chunk))
    requires Run(Init, evs) == Fail(f)
    ensures CleanResult(chunk) == Fail(f)
  {
    SortEventsIsSorted(Project(chunk), evs);
    SortEventsIdempotent(evs);
  }

  lemma {:induction false} ProjectTwo(x: Stay, y: Stay)
    ensures Project([x, y]) == [Event(x.start, x.fid, Start), Event(x.end, x.fid, End),
                               Event(y.start, y.fid, Start), Event(y.end, y.fid, End)]
  {
    ProjectAt([x, y], 0);
    ProjectAt([x, y], 1);
  }

  lemma {:induction false} ProjectThree(x: Stay, y: Stay, z: Stay)
    ensures Project([x, y, z]) == [Event(x.start, x.fid, Start), Event(x.end, x.fid, End),
                                  Event(y.start, y.fid, Start), Event(y.end, y.fid, End),
                                  Event(z.start, z.fid, Start), Event(z.end, z.fid, End)]
  {
    ProjectAt([x, y, z], 0);
    ProjectAt([x, y, z], 1);
    ProjectAt([x, y, z], 2);
  }

  lemma {:induction false} ProjectFour(w: Stay, x: Stay, y: Stay, z: Stay)
    ensures Project([w, x, y, z]) == [Event(w.start, w.fid, Start), Event(w.end, w.fid, End),
                                     Event(x.start, x.fid, Start), Event(x.end, x.fid, End),
                                     Event(y.start, y.fid, Start), Event(y.end, y.fid, End),
                                     Event(z.start, z.fid, Start), Event(z.end, z.fid, End)]
  {
    ProjectAt([w, x, y, z], 0);
    ProjectAt([w, x, y, z], 1);
    ProjectAt([w, x, y, z], 2);
    ProjectAt([w, x, y, z], 3);
  }

  /** The events of two stays, both starts first, the first stay ending first. */
  lemma {:induction false} TwoStaysInterleaved(x: Stay, y: Stay, q: seq<Event>)
    requires q == [Event(x.start, x.fid, Start), Event(y.start, y.fid, Start),
                   Event(x.end, x.fid, End), Event(y.end, y.fid, End)]
    ensures multiset(q) == multiset(Project([x, y]))
  {
    ProjectTwo(x, y);
    var p := Project([x, y]);
    assert p == [p[0]] + [p[1]] + [p[2]] + [p[3]];
    assert q == [p[0]] + [p[2]] + [p[1]] + [p[3]];
  }

  /** The events of two stays, the second nested in the first. */
  lemma {:induction false} TwoStaysNested(x: Stay, y: Stay, q: seq<Event>)
    requires q == [Event(x.start, x.fid, Start), Event(y.start, y.fid, Start),
                   Event(y.end, y.fid, End), Event(x.end, x.fid, End)]
    ensures multiset(q) == multiset(Project([x, y]))
  {
    ProjectTwo(x, y);
    var p := Project([x, y]);
    assert p == [p[0]] + [p[1]] + [p[2]] + [p[3]];
    assert q == [p[0]] + [p[2]] + [p[3]] + [p[1]];
  }

  /**
   * The events of three stays with all starts first, then the ends of the first,
   * third and second stay: a permutation of what `transform` is given.
   */
  lemma {:induction false} ThreeStaysInnermostLast(x: Stay, y: Stay, z: Stay, q: seq<Event>)
    requires q == [Event(x.start, x.fid, Start), Event(y.start, y.fid, Start), Event(z.start, z.fid, Start),
                   Event(x.end, x.fid, End), Event(z.end, z.fid, End), Event(y.end, y.fid, End)]
    ensures multiset(q) == multiset(Project([x, y, z]))
  {
    ProjectThree(x, y, z);
    var p := Project([x, y, z]);
    assert p == [p[0]] + [p[1]] + [p[2]] + [p[3]] + [p[4]] + [p[5]];
    assert q == [p[0]] + [p[2]] + [p[4]] + [p[1]] + [p[5]] + [p[3]];
  }

  /** As above, with the ends of the second, third and first stay. */
  lemma {:induction false} ThreeStaysOutermostLast(x: Stay, y: Stay, z: Stay, q: seq<Event>)
    requires q == [Event(x.start, x.fid, Start), Event(y.start, y.fid, Start), Event(z.start, z.fid, Start),
                   Event(y.end, y.fid, End), Event(z.end, z.fid, End), Event(x.end, x.fid, End)]
    ensures multiset(q) == multiset(Project([x, y, z]))
  {
    ProjectThree(x, y, z);
    var p := Project([x, y, z]);
    assert p == [p[0]] + [p[1]] + [p[2]] + [p[3]] + [p[4]] + [p[5]];
    assert q == [p[0]] + [p[2]] + [p[4]] + [p[3]] + [p[5]] + [p[1]];
  }

  /** As `ThreeStaysInnermostLast`, followed by a fourth stay after all three. */
  lemma {:induction false} ThreeNestedThenOne(x: Stay, y: Stay, z: Stay, w: Stay, q: seq<Event>)
    requires q == [Event(x.start, x.fid, Start), Event(y.start, y.fid, Start), Event(z.start, z.fid, Start),
                   Event(x.end, x.fid, End), Event(z.end, z.fid, End), Event(y.end, y.fid, End),
                   Event(w.start, w.fid, Start), Event(w.end, w.fid, End)]
    ensures multiset(q) == multiset(Project([x, y, z, w]))
  {
    ProjectFour(x, y, z, w);
    var p := Project([x, y, z, w]);
    assert p == [p[0]] + [p[1]] + [p[2]] + [p[3]] + [p[4]] + [p[5]] + [p[6]] + [p[7]];
    assert q == [p[0]] + [p[2]] + [p[4]] + [p[1]] + [p[5]] + [p[3]] + [p[6]] + [p[7]];
  }

  // -------------------------------------------------------- test_simple_overlap

  lemma {:induction false} SimpleOverlapSweep(a: string, b: string, evs: seq<Event>, recs: seq<Event>)
    requires a != b
    requires evs == [Event(1, a, Start), Event(2, b, Start), Event(4, a, End), Event(6, b, End)]
    requires recs == [Event(1, a, Start), Event(2, a, End), Event(2, b, Start), Event(6, b, End)]
    ensures Run(Init, evs) == Ok(Closed(recs))
  {
    var r1 := [Event(1, a, Start)];
    var r3 := r1 + [Event(2, a, End), Event(2, b, Start)];
    var s1 := Sweep(Some(a), Some(Start), false, [], r1);
    var s2 := Sweep(Some(b), Some(Start), false, [a], r3);
    var s3 := Sweep(Some(b), Some(Start), false, [], r3);
    IdleCases(Init, evs[0]);
    SuspendThenResume(s1, b, 2, 6);
    EndOfSuspended(s2, evs[2]);
    assert RemoveFirst([a], a) == [];
    CloseActive(s3, 6);
    assert r3 + [Event(6, b, End)] == recs;
    RunUnfold(Init, evs);
    RunUnfold(s1, evs[1..]);
    RunUnfold(s2, evs[2..]);
    RunUnfold(s3, evs[3..]);
    assert evs[1..][1..][1..][1..] == [];
  }

  lemma {:induction false} SimpleOverlapPairs(a: string, b: string, recs: seq<Event>, out: seq<Stay>)
    requires recs == [Event(1, a, Start), Event(2, a, End), Event(2, b, Start), Event(6, b, End)]
    requires out == [Stay(a, 1, 2), Stay(b, 2, 6)]
    ensures Unpair(recs) == Ok(out)
  {
    assert Unpaired(recs) == out;
  }

  lemma {:induction false} SimpleOverlapEvents(a: string, b: string, chunk: seq<Stay>, evs: seq<Event>)
    requires chunk == [Stay(a, 1, 4), Stay(b, 2, 6)]
    requires evs == [Event(1, a, Start), Event(2, b, Start), Event(4, a, End), Event(6, b, End)]
    ensures Sorted(evs)
    ensures multiset(evs) == multiset(Project(chunk))
  {
    assert TimesIncrease(evs);
    TimesIncreaseSorted(evs);
    TwoStaysInterleaved(Stay(a, 1, 4), Stay(b, 2, 6), evs);
  }

  lemma {:induction false} SimpleOverlapFor(a: string, b: string)
    requires a != b
    ensures CleanResult([Stay(a, 1, 4), Stay(b, 2, 6)])
      == Ok([Stay(a, 1, 2), Stay(b, 2, 6)])
  {
    var chunk := [Stay(a, 1, 4), Stay(b, 2, 6)];
    var evs := [Event(1, a, Start), Event(2, b, Start), Event(4, a, End), Event(6, b, End)];
    var recs := [Event(1, a, Start), Event(2, a, End), Event(2, b, Start), Event(6, b, End)];
    var out := [Stay(a, 1, 2), Stay(b, 2, 6)];
    SimpleOverlapEvents(a, b, chunk, evs);
    SimpleOverlapSweep(a, b, evs, recs);
    SimpleOverlapPairs(a, b, recs, out);
    CleanVia(chunk, evs, recs, out);
  }

  /** The later admission cuts the earlier one short. */
  lemma {:induction false} SimpleOverlap()
    ensures CleanResult([Stay("0001", 1, 4), Stay("0002", 2, 6)])
      == Ok([Stay("0001", 1, 2), Stay("0002", 2, 6)])
  {
    var a, b := "0001", "0002";
    assert a[3] != b[3];
    SimpleOverlapFor(a, b);
  }

  // ----------------------------------------------------- test_returning_overlap

  lemma {:induction false} ReturningOverlapSweep(a: string, b: string, evs: seq<Event>, recs: seq<Event>)
    requires a != b
    requires evs == [Event(1, a, Start), Event(2, b, Start), Event(4, b, End), Event(6, a, End)]
    requires recs == [Event(1, a, Start), Event(2, a, End), Event(2, b, Start),
                      Event(4, b, End), Event(4, a, Start), Event(6, a, End)]
    ensures Run(Init, evs) == Ok(Closed(recs))
  {
    var r1 := [Event(1, a, Start)];
    var r3 := r1 + [Event(2, a, End), Event(2, b, Start)];
    var r5 := r3 + [Event(4, b, End), Event(4, a, Start)];
    var s1 := Sweep(Some(a), Some(Start), false, [], r1);
    var s2 := Sweep(Some(b), Some(Start), false, [a], r3);
    var s3 := Sweep(Some(a), Some(Start), false, [], r5);
    IdleCases(Init, evs[0]);
    SuspendThenResume(s1, b, 2, 4);
    CloseActive(s3, 6);
    assert r5 + [Event(6, a, End)] == recs;
    RunUnfold(Init, evs);
    RunUnfold(s1, evs[1..]);
    RunUnfold(s2, evs[2..]);
    RunUnfold(s3, evs[3..]);
    assert evs[1..][1..][1..][1..] == [];
  }

  lemma {:induction false} ReturningOverlapPairs(a: string, b: string, recs: seq<Event>, out: seq<Stay>)
    requires recs == [Event(1, a, Start), Event(2, a, End), Event(2, b, Start),
                      Event(4, b, End), Event(4, a, Start), Event(6, a, End)]
    requires out == [Stay(a, 1, 2), Stay(b, 2, 4), Stay(a, 4, 6)]
    ensures Unpair(recs) == Ok(out)
  {
    assert Unpaired(recs) == out;
  }

  lemma {:induction false} ReturningOverlapEvents(a: string, b: string, chunk: seq<Stay>, evs: seq<Event>)
    requires chunk == [Stay(a, 1, 6), Stay(b, 2, 4)]
    requires evs == [Event(1, a, Start), Event(2, b, Start), Event(4, b, End), Event(6, a, End)]
    ensures Sorted(evs)
    ensures multiset(evs) == multiset(Project(chunk))
  {
    assert TimesIncrease(evs);
    TimesIncreaseSorted(evs);
    TwoStaysNested(Stay(a, 1, 6), Stay(b, 2, 4), evs);
  }

  lemma {:induction false} ReturningOverlapFor(a: string, b: string)
    requires a != b
    ensures CleanResult([Stay(a, 1, 6), Stay(b, 2, 4)])
      == Ok([Stay(a, 1, 2), Stay(b, 2, 4), Stay(a, 4, 6)])
  {
    var chunk := [Stay(a, 1, 6), Stay(b, 2, 4)];
    var evs := [Event(1, a, Start), Event(2, b, Start), Event(4, b, End), Event(6, a, End)];
    var recs := [Event(1, a, Start), Event(2, a, End), Event(2, b, Start),
                 Event(4, b, End), Event(4, a, Start), Event(6, a, End)];
    var out := [Stay(a, 1, 2), Stay(b, 2, 4), Stay(a, 4, 6)];
    ReturningOverlapEvents(a, b, chunk, evs);
    ReturningOverlapSweep(a, b, evs, recs);
    ReturningOverlapPairs(a, b, recs, out);
    CleanVia(chunk, evs, recs, out);
  }

  /** A stay nested in another splits it; the outer facility resumes afterwards. */
  lemma {:induction false} ReturningOverlap()
    ensures CleanResult([Stay("001", 1, 6), Stay("002", 2, 4)])
      == Ok([Stay("001", 1, 2), Stay("002", 2, 4), Stay("001", 4, 6)])
  {
    var a, b := "001", "002";
    assert a[2] != b[2];
    ReturningOverlapFor(a, b);
  }

  // --------------------------------------------------- test_multiple_admissions

  /** Two separate stays at the same facility are left as they are. */
  lemma {:induction false} MultipleAdmissions()
    ensures CleanResult([Stay("001", 1, 6), Stay("001", 7, 9)])
      == Ok([Stay("001", 1, 6), Stay("001", 7, 9)])
  {
    CleanPassThrough([Stay("001", 1, 6), Stay("001", 7, 9)]);
  }

  // ------------------------------------------------------ test_nesting_overlaps

  /** The nesting case up to the third admission, which suspends the first two. */
  lemma {:induction false} NestingOpen(a: string, b: string, c: string, evs: seq<Event>, s3: Sweep)
    requires a != b && b != c
    requires evs == [Event(1, a, Start), Event(2, b, Start), Event(3, c, Start)]
    requires s3 == Sweep(Some(c), Some(Start), false, [a, b],
      [Event(1, a, Start), Event(2, a, End), Event(2, b, Start), Event(3, b, End), Event(3, c, Start)])
    ensures Run(Init, evs) == Ok(s3)
  {
    var r1 := [Event(1, a, Start)];
    var r3 := r1 + [Event(2, a, End), Event(2, b, Start)];
    var s1 := Sweep(Some(a), Some(Start), false, [], r1);
    var s2 := Sweep(Some(b), Some(Start), false, [a], r3);
    IdleCases(Init, evs[0]);
    SuspendThenResume(s1, b, 2, 6);
    SuspendThenResume(s2, c, 3, 5);
    assert [a] + [b] == [a, b];
    assert r3 + [Event(3, b, End), Event(3, c, Start)] == s3.records;
    RunUnfold(Init, evs);
    RunUnfold(s1, evs[1..]);
    RunUnfold(s2, evs[2..]);
    assert evs[2..][1..] == [];
  }

  /**
   * The nesting case from there: the first facility ends while suspended, the third
   * ends and resumes the second, and the second ends with nothing left to resume.
   */
  lemma {:induction false} NestingUnwind(a: string, b: string, c: string, s3: Sweep, evs: seq<Event>, recs: seq<Event>)
    requires a != b && b != c && a != c
    requires s3 == Sweep(Some(c), Some(Start), false, [a, b],
      [Event(1, a, Start), Event(2, a, End), Event(2, b, Start), Event(3, b, End), Event(3, c, Start)])
    requires evs == [Event(4, a, End), Event(5, c, End), Event(6, b, End)]
    requires recs == [Event(1, a, Start), Event(2, a, End), Event(2, b, Start),
                      Event(3, b, End), Event(3, c, Start), Event(5, c, End),
                      Event(5, b, Start), Event(6, b, End)]
    ensures Run(s3, evs) == Ok(Closed(recs))
  {
    var r7 := s3.records + [Event(5, c, End), Event(5, b, Start)];
    var s4 := s3.(stack := [b]);
    var s5 := Sweep(Some(b), Some(Start), false, [], r7);
    EndOfSuspended(s3, evs[0]);
    assert RemoveFirst([a, b], a) == [b];
    CloseActive(s4, 5);
    assert [b][..0] == [];
    CloseActive(s5, 6);
    assert r7 + [Event(6, b, End)] == recs;
    RunUnfold(s3, evs);
    RunUnfold(s4, evs[1..]);
    RunUnfold(s5, evs[2..]);
    assert evs[2..][1..] == [];
  }

  /** The first three stays of the nesting case, up to the moment nothing is active. */
  lemma {:induction false} NestingHead(a: string, b: string, c: string, evs: seq<Event>, recs: seq<Event>)
    requires a != b && b != c && a != c
    requires evs == [Event(1, a, Start), Event(2, b, Start), Event(3, c, Start),
                     Event(4, a, End), Event(5, c, End), Event(6, b, End)]
    requires recs == [Event(1, a, Start), Event(2, a, End), Event(2, b, Start),
                      Event(3, b, End), Event(3, c, Start), Event(5, c, End),
                      Event(5, b, Start), Event(6, b, End)]
    ensures Run(Init, evs) == Ok(Closed(recs))
  {
    var s3 := Sweep(Some(c), Some(Start), false, [a, b],
      [Event(1, a, Start), Event(2, a, End), Event(2, b, Start), Event(3, b, End), Event(3, c, Start)]);
    NestingOpen(a, b, c, evs[..3], s3);
    NestingUnwind(a, b, c, s3, evs[3..], recs);
    RunAppend(Init, evs[..3], evs[3..]);
    assert evs[..3] + evs[3..] == evs;
  }

  lemma {:induction false} NestingSweep(a: string, b: string, c: string, evs: seq<Event>, recs: seq<Event>)
    requires a != b && b != c && a != c
    requires evs == [Event(1, a, Start), Event(2, b, Start), Event(3, c, Start),
                     Event(4, a, End), Event(5, c, End), Event(6, b, End),
                     Event(7, b, Start), Event(8, b, End)]
    requires recs == [Event(1, a, Start), Event(2, a, End), Event(2, b, Start),
                      Event(3, b, End), Event(3, c, Start), Event(5, c, End),
                      Event(5, b, Start), Event(6, b, End), Event(7, b, Start), Event(8, b, End)]
    ensures Run(Init, evs) == Ok(Closed(recs))
  {
    NestingHead(a, b, c, evs[..6], recs[..8]);
    RunAppend(Init, evs[..6], evs[6..]);
    assert evs[..6] + evs[6..] == evs;
    OpenThenClose(recs[..8], Stay(b, 7, 8), []);
    assert evs[6..] == [Event(7, b, Start), Event(8, b, End)] + [];
    assert recs[..8] + [Event(7, b, Start), Event(8, b, End)] == recs;
  }

  lemma {:induction false} NestingPairs(a: string, b: string, c: string, recs: seq<Event>, out: seq<Stay>)
    requires recs == [Event(1, a, Start), Event(2, a, End), Event(2, b, Start),
                      Event(3, b, End), Event(3, c, Start), Event(5, c, End),
                      Event(5, b, Start), Event(6, b, End), Event(7, b, Start), Event(8, b, End)]
    requires out == [Stay(a, 1, 2), Stay(b, 2, 3), Stay(c, 3, 5), Stay(b, 5, 6), Stay(b, 7, 8)]
    ensures Unpair(recs) == Ok(out)
  {
    assert Unpaired(recs) == out;
  }

  lemma {:induction false} NestingEvents(a: string, b: string, c: string, chunk: seq<Stay>, evs: seq<Event>)
    requires chunk == [Stay(a, 1, 4), Stay(b, 2, 6), Stay(c, 3, 5), Stay(b, 7, 8)]
    requires evs == [Event(1, a, Start), Event(2, b, Start), Event(3, c, Start),
                     Event(4, a, End), Event(5, c, End), Event(6, b, End),
                     Event(7, b, Start), Event(8, b, End)]
    ensures Sorted(evs)
    ensures multiset(evs) == multiset(Project(chunk))
  {
    assert TimesIncrease(evs);
    TimesIncreaseSorted(evs);
    ThreeNestedThenOne(Stay(a, 1, 4), Stay(b, 2, 6), Stay(c, 3, 5), Stay(b, 7, 8), evs);
  }

  lemma {:induction false} NestingOverlapsFor(a: string, b: string, c: string)
    requires a != b && b != c && a != c
    ensures CleanResult([Stay(a, 1, 4), Stay(b, 2, 6), Stay(c, 3, 5), Stay(b, 7, 8)])
      == Ok([Stay(a, 1, 2), Stay(b, 2, 3), Stay(c, 3, 5), Stay(b, 5, 6), Stay(b, 7, 8)])
  {
    var chunk := [Stay(a, 1, 4), Stay(b, 2, 6), Stay(c, 3, 5), Stay(b, 7, 8)];
    var evs := [Event(1, a, Start), Event(2, b, Start), Event(3, c, Start),
                Event(4, a, End), Event(5, c, End), Event(6, b, End),
                Event(7, b, Start), Event(8, b, End)];
    var recs := [Event(1, a, Start), Event(2, a, End), Event(2, b, Start),
                 Event(3, b, End), Event(3, c, Start), Event(5, c, End),
                 Event(5, b, Start), Event(6, b, End), Event(7, b, Start), Event(8, b, End)];
    var out := [Stay(a, 1, 2), Stay(b, 2, 3), Stay(c, 3, 5), Stay(b, 5, 6), Stay(b, 7, 8)];
    NestingEvents(a, b, c, chunk, evs);
    NestingSweep(a, b, c, evs, recs);
    NestingPairs(a, b, c, recs, out);
    CleanVia(chunk, evs, recs, out);
  }

  /**
   * Three stays nested in each other: the innermost is kept whole, the ones it
   * interrupts are split, and the outermost, which ends while suspended, is dropped
   * from the stack without being resumed.
   */
  lemma {:induction false} NestingOverlaps()
    ensures CleanResult([Stay("a", 1, 4), Stay("b", 2, 6), Stay("c", 3, 5), Stay("b", 7, 8)])
      == Ok([Stay("a", 1, 2), Stay("b", 2, 3), Stay("c", 3, 5), Stay("b", 5, 6), Stay("b", 7, 8)])
  {
    var a, b, c := "a", "b", "c";
    assert a[0] != b[0] && b[0] != c[0] && a[0] != c[0];
    NestingOverlapsFor(a, b, c);
  }

  // ------------------------------------------------------- test_continuity_case

  lemma {:induction false} ContinuitySweep(a: string, evs: seq<Event>, recs: seq<Event>)
    requires evs == [Event(1, a, Start), Event(2, a, Start), Event(3, a, End), Event(4, a, End)]
    requires recs == [Event(1, a, Start), Event(2, a, End), Event(2, a, Start), Event(4, a, End)]
    ensures Run(Init, evs) == Ok(Closed(recs))
  {
    var r1 := [Event(1, a, Start)];
    var r3 := r1 + [Event(2, a, End), Event(2, a, Start)];
    var s1 := Sweep(Some(a), Some(Start), false, [], r1);
    var s2 := Sweep(Some(a), Some(Start), true, [], r3);
    var s3 := Sweep(Some(a), Some(Start), false, [], r3);
    IdleCases(Init, evs[0]);
    RestartSkipsNextEnd(s1, 2, 3);
    CloseActive(s3, 4);
    assert r3 + [Event(4, a, End)] == recs;
    RunUnfold(Init, evs);
    RunUnfold(s1, evs[1..]);
    RunUnfold(s2, evs[2..]);
    RunUnfold(s3, evs[3..]);
    assert evs[1..][1..][1..][1..] == [];
  }

  lemma {:induction false} ContinuityPairs(a: string, recs: seq<Event>, out: seq<Stay>)
    requires recs == [Event(1, a, Start), Event(2, a, End), Event(2, a, Start), Event(4, a, End)]
    requires out == [Stay(a, 1, 2), Stay(a, 2, 4)]
    ensures Unpair(recs) == Ok(out)
  {
    assert Unpaired(recs) == out;
  }

  lemma {:induction false} ContinuityEvents(a: string, chunk: seq<Stay>, evs: seq<Event>)
    requires chunk == [Stay(a, 1, 3), Stay(a, 2, 4)]
    requires evs == [Event(1, a, Start), Event(2, a, Start), Event(3, a, End), Event(4, a, End)]
    ensures Sorted(evs)
    ensures multiset(evs) == multiset(Project(chunk))
  {
    assert TimesIncrease(evs);
    TimesIncreaseSorted(evs);
    TwoStaysInterleaved(Stay(a, 1, 3), Stay(a, 2, 4), evs);
  }

  lemma {:induction false} ContinuityCaseFor(a: string)
    ensures CleanResult([Stay(a, 1, 3), Stay(a, 2, 4)])
      == Ok([Stay(a, 1, 2), Stay(a, 2, 4)])
  {
    var chunk := [Stay(a, 1, 3), Stay(a, 2, 4)];
    var evs := [Event(1, a, Start), Event(2, a, Start), Event(3, a, End), Event(4, a, End)];
    var recs := [Event(1, a, Start), Event(2, a, End), Event(2, a, Start), Event(4, a, End)];
    var out := [Stay(a, 1, 2), Stay(a, 2, 4)];
    ContinuityEvents(a, chunk, evs);
    ContinuitySweep(a, evs, recs);
    ContinuityPairs(a, recs, out);
    CleanVia(chunk, evs, recs, out);
  }

  /** Two overlapping stays at one facility become back-to-back stays. */
  lemma {:induction false} ContinuityCase()
    ensures CleanResult([Stay("a", 1, 3), Stay("a", 2, 4)])
      == Ok([Stay("a", 1, 2), Stay("a", 2, 4)])
  {
    var a := "a";
    ContinuityCaseFor(a);
  }

  // ------------------------------------------- inputs on which the source raises

  lemma {:induction false} TripleRestartSweep(a: string, evs: seq<Event>)
    requires evs == [Event(1, a, Start), Event(2, a, Start), Event(3, a, Start),
                     Event(5, a, End), Event(6, a, End), Event(10, a, End)]
    ensures Run(Init, evs) == Fail(EndWhileIdle)
  {
    var r1 := [Event(1, a, Start)];
    var r2 := r1 + [Event(2, a, End), Event(2, a, Start)];
    var r3 := r2 + [Event(3, a, End), Event(3, a, Start)];
    IdleCases(Init, evs[0]);
    var s1 := Sweep(Some(a), Some(Start), false, [], r1);
    RestartSkipsNextEnd(s1, 2, 0);
    var s2 := Sweep(Some(a), Some(Start), true, [], r2);
    RestartSkipsNextEnd(s2, 3, 5);
    var s3 := Sweep(Some(a), Some(Start), true, [], r3);
    var s4 := Sweep(Some(a), Some(Start), false, [], r3);
    CloseActive(s4, 6);
    var s5 := Sweep(None, None, false, [], r3 + [Event(6, a, End)]);
    IdleCases(s5, evs[5]);
    RunUnfold(Init, evs);
    RunUnfold(s1, evs[1..]);
    RunUnfold(s2, evs[2..]);
    RunUnfold(s3, evs[3..]);
    RunUnfold(s4, evs[4..]);
    RunUnfold(s5, evs[5..]);
  }

  lemma {:induction false} TripleRestartEvents(a: string, chunk: seq<Stay>, evs: seq<Event>)
    requires chunk == [Stay(a, 1, 10), Stay(a, 2, 5), Stay(a, 3, 6)]
    requires evs == [Event(1, a, Start), Event(2, a, Start), Event(3, a, Start),
                     Event(5, a, End), Event(6, a, End), Event(10, a, End)]
    ensures Sorted(evs)
    ensures multiset(evs) == multiset(Project(chunk))
  {
    assert TimesIncrease(evs);
    TimesIncreaseSorted(evs);
    ThreeStaysOutermostLast(Stay(a, 1, 10), Stay(a, 2, 5), Stay(a, 3, 6), evs);
  }

  lemma {:induction false} TripleRestartFailsFor(a: string)
    ensures CleanResult([Stay(a, 1, 10), Stay(a, 2, 5), Stay(a, 3, 6)]) == Fail(EndWhileIdle)
  {
    var chunk := [Stay(a, 1, 10), Stay(a, 2, 5), Stay(a, 3, 6)];
    var evs := [Event(1, a, Start), Event(2, a, Start), Event(3, a, Start),
                Event(5, a, End), Event(6, a, End), Event(10, a, End)];
    TripleRestartEvents(a, chunk, evs);
    TripleRestartSweep(a, evs);
    FailVia(chunk, evs, EndWhileIdle);
  }

  /**
   * Three overlapping stays at one facility: the single `cont` flag skips only one of
   * the two surplus ends, so the last end arrives with nothing active and the
   * assertion that it is a start fails.
   */
  lemma {:induction false} TripleRestartFails()
    ensures CleanResult([Stay("a", 1, 10), Stay("a", 2, 5), Stay("a", 3, 6)]) == Fail(EndWhileIdle)
  {
    var a := "a";
    TripleRestartFailsFor(a);
  }

  lemma {:induction false} SkipCarriedOverSweep(a: string, b: string, evs: seq<Event>)
    requires a != b
    requires evs == [Event(1, a, Start), Event(2, a, Start), Event(25, b, Start),
                     Event(30, a, End), Event(40, b, End), Event(50, a, End)]
    ensures Run(Init, evs) == Fail(EndNotSuspended)
  {
    var r1 := [Event(1, a, Start)];
    var r2 := r1 + [Event(2, a, End), Event(2, a, Start)];
    var r3 := r2 + [Event(25, a, End), Event(25, b, Start)];
    IdleCases(Init, evs[0]);
    var s1 := Sweep(Some(a), Some(Start), false, [], r1);
    RestartSkipsNextEnd(s1, 2, 0);
    var s2 := Sweep(Some(a), Some(Start), true, [], r2);
    var s3 := Sweep(Some(b), Some(Start), true, [a], r3);
    EndOfSuspended(s3, evs[3]);
    assert RemoveFirst([a], a) == [];
    var s4 := Sweep(Some(b), Some(Start), true, [], r3);
    var s5 := Sweep(Some(b), Some(Start), false, [], r3);
    EndOfSuspended(s5, evs[5]);
    RunUnfold(Init, evs);
    RunUnfold(s1, evs[1..]);
    RunUnfold(s2, evs[2..]);
    RunUnfold(s3, evs[3..]);
    RunUnfold(s4, evs[4..]);
    RunUnfold(s5, evs[5..]);
  }

  lemma {:induction false} SkipCarriedOverEvents(a: string, b: string, chunk: seq<Stay>, evs: seq<Event>)
    requires chunk == [Stay(a, 1, 50), Stay(a, 2, 30), Stay(b, 25, 40)]
    requires evs == [Event(1, a, Start), Event(2, a, Start), Event(25, b, Start),
                     Event(30, a, End), Event(40, b, End), Event(50, a, End)]
    ensures Sorted(evs)
    ensures multiset(evs) == multiset(Project(chunk))
  {
    assert TimesIncrease(evs);
    TimesIncreaseSorted(evs);
    ThreeStaysOutermostLast(Stay(a, 1, 50), Stay(a, 2, 30), Stay(b, 25, 40), evs);
  }

  lemma {:induction false} SkipCarriedOverFailsFor(a: string, b: string)
    requires a != b
    ensures CleanResult([Stay(a, 1, 50), Stay(a, 2, 30), Stay(b, 25, 40)])
      == Fail(EndNotSuspended)
  {
    var chunk := [Stay(a, 1, 50), Stay(a, 2, 30), Stay(b, 25, 40)];
    var evs := [Event(1, a, Start), Event(2, a, Start), Event(25, b, Start),
                Event(30, a, End), Event(40, b, End), Event(50, a, End)];
    SkipCarriedOverEvents(a, b, chunk, evs);
    SkipCarriedOverSweep(a, b, evs);
    FailVia(chunk, evs, EndNotSuspended);
  }

  /**
   * A restart of `a` followed by a stay of `b` inside it: the skip meant for `a`'s
   * surplus end is spent on `b`'s end instead, and `a`'s last end then finds `a`
   * neither active nor suspended, so `stack.remove` raises.
   */
  lemma {:induction false} SkipCarriedOverFails()
    ensures CleanResult([Stay("a", 1, 50), Stay("a", 2, 30), Stay("b", 25, 40)])
      == Fail(EndNotSuspended)
  {
    var a, b := "a", "b";
    assert a[0] != b[0];
    SkipCarriedOverFailsFor(a, b);
  }

  /**
   * A stay that ends on the day it starts: its end `(t, f, 'e')` sorts before its
   * start `(t, f, 's')`, so the sweep meets an end with nothing active and the
   * assertion that it is a start fails.
   */
  lemma {:induction false} ZeroLengthFails(f: string, t: int)
    ensures CleanResult([Stay(f, t, t)]) == Fail(EndWhileIdle)
  {
    var chunk := [Stay(f, t, t)];
    var evs := [Event(t, f, End), Event(t, f, Start)];
    ProjectAt(chunk, 0);
    assert Project(chunk) == [Event(t, f, Start), Event(t, f, End)];
    assert EventLess(evs[0], evs[1]);
    SortEventsIsSorted(Project(chunk), evs);
    SortEventsIdempotent(evs);
    IdleCases(Init, evs[0]);
    RunUnfold(Init, evs);
  }

  // ------------------------------------------------ stays that end on one day

  /** The events of three stays in the order first start, second start, first end, second end, third end, third start. */
  lemma {:induction false} ThreeStaysLastReversed(x: Stay, y: Stay, z: Stay, q: seq<Event>)
    requires q == [Event(x.start, x.fid, Start), Event(y.start, y.fid, Start), Event(x.end, x.fid, End),
                   Event(y.end, y.fid, End), Event(z.end, z.fid, End), Event(z.start, z.fid, Start)]
    ensures multiset(q) == multiset(Project([x, y, z]))
  {
    ProjectThree(x, y, z);
    var p := Project([x, y, z]);
    assert p == [p[0]] + [p[1]] + [p[2]] + [p[3]] + [p[4]] + [p[5]];
    assert q == [p[0]] + [p[2]] + [p[1]] + [p[3]] + [p[5]] + [p[4]];
  }

  /** The events of three stays with the third one inside the second and the first ending with the second. */
  lemma {:induction false} ThreeStaysInnerReversed(x: Stay, y: Stay, z: Stay, q: seq<Event>)
    requires q == [Event(x.start, x.fid, Start), Event(y.start, y.fid, Start), Event(z.end, z.fid, End),
                   Event(z.start, z.fid, Start), Event(x.end, x.fid, End), Event(y.end, y.fid, End)]
    ensures multiset(q) == multiset(Project([x, y, z]))
  {
    ProjectThree(x, y, z);
    var p := Project([x, y, z]);
    assert p == [p[0]] + [p[1]] + [p[2]] + [p[3]] + [p[4]] + [p[5]];
    assert q == [p[0]] + [p[2]] + [p[5]] + [p[4]] + [p[1]] + [p[3]];
  }

  lemma {:induction false} SameDayEndsSweep(a: string, b: string, evs: seq<Event>, recs: seq<Event>)
    requires a != b
    requires evs == [Event(1, b, Start), Event(2, a, Start), Event(5, a, End), Event(5, b, End)]
    requires recs == [Event(1, b, Start), Event(2, b, End), Event(2, a, Start),
                      Event(5, a, End), Event(5, b, Start), Event(5, b, End)]
    ensures Run(Init, evs) == Ok(Closed(recs))
  {
    var r1 := [Event(1, b, Start)];
    var r3 := r1 + [Event(2, b, End), Event(2, a, Start)];
    var r5 := r3 + [Event(5, a, End), Event(5, b, Start)];
    var s1 := Sweep(Some(b), Some(Start), false, [], r1);
    var s2 := Sweep(Some(a), Some(Start), false, [b], r3);
    var s3 := Sweep(Some(b), Some(Start), false, [], r5);
    IdleCases(Init, evs[0]);
    SuspendThenResume(s1, a, 2, 5);
    CloseActive(s3, 5);
    assert r5 + [Event(5, b, End)] == recs;
    RunUnfold(Init, evs);
    RunUnfold(s1, evs[1..]);
    RunUnfold(s2, evs[2..]);
    RunUnfold(s3, evs[3..]);
    assert evs[1..][1..][1..][1..] == [];
  }

  lemma {:induction false} SameDayEndsPairs(a: string, b: string, recs: seq<Event>, out: seq<Stay>)
    requires recs == [Event(1, b, Start), Event(2, b, End), Event(2, a, Start),
                      Event(5, a, End), Event(5, b, Start), Event(5, b, End)]
    requires out == [Stay(b, 1, 2), Stay(a, 2, 5), Stay(b, 5, 5)]
    ensures Unpair(recs) == Ok(out)
  {
    assert Unpaired(recs) == out;
  }

  lemma {:induction false} SameDayEndsEvents(a: string, b: string, chunk: seq<Stay>, evs: seq<Event>)
    requires StrLess(a, b)
    requires chunk == [Stay(b, 1, 5), Stay(a, 2, 5)]
    requires evs == [Event(1, b, Start), Event(2, a, Start), Event(5, a, End), Event(5, b, End)]
    ensures Sorted(evs)
    ensures multiset(evs) == multiset(Project(chunk))
  {
    assert Sorted(evs) by {
      NeighboursSorted(evs);
    }
    assert multiset(evs) == multiset(Project(chunk)) by {
      TwoStaysNested(Stay(b, 1, 5), Stay(a, 2, 5), evs);
    }
  }

  /**
   * Two stays that end on the same day, the later one at the facility with the smaller
   * id: the end of `a` resumes `b` on that day, and `b`'s own end then closes it at
   * once, which leaves a zero-length stay of `b` in the result.
   */
  lemma {:induction false} SameDayEnds(a: string, b: string)
    requires StrLess(a, b)
    ensures CleanResult([Stay(b, 1, 5), Stay(a, 2, 5)])
      == Ok([Stay(b, 1, 2), Stay(a, 2, 5), Stay(b, 5, 5)])
  {
    var chunk := [Stay(b, 1, 5), Stay(a, 2, 5)];
    var evs := [Event(1, b, Start), Event(2, a, Start), Event(5, a, End), Event(5, b, End)];
    var recs := [Event(1, b, Start), Event(2, b, End), Event(2, a, Start),
                 Event(5, a, End), Event(5, b, Start), Event(5, b, End)];
    var out := [Stay(b, 1, 2), Stay(a, 2, 5), Stay(b, 5, 5)];
    StrLessIrreflexive(a);
    SameDayEndsEvents(a, b, chunk, evs);
    SameDayEndsSweep(a, b, evs, recs);
    SameDayEndsPairs(a, b, recs, out);
    CleanVia(chunk, evs, recs, out);
  }

  lemma {:induction false} CleanAgainSweep(a: string, b: string, evs: seq<Event>)
    requires a != b
    requires evs == [Event(1, b, Start), Event(2, a, Start), Event(2, b, End),
                     Event(5, a, End), Event(5, b, End), Event(5, b, Start)]
    ensures Run(Init, evs) == Fail(EndWhileIdle)
  {
    var r1 := [Event(1, b, Start)];
    var r3 := r1 + [Event(2, b, End), Event(2, a, Start)];
    var s1 := Sweep(Some(b), Some(Start), false, [], r1);
    var s2 := Sweep(Some(a), Some(Start), false, [b], r3);
    var s3 := Sweep(Some(a), Some(Start), false, [], r3);
    var s4 := Sweep(None, None, false, [], r3 + [Event(5, a, End)]);
    IdleCases(Init, evs[0]);
    SuspendThenResume(s1, a, 2, 5);
    EndOfSuspended(s2, evs[2]);
    assert RemoveFirst([b], b) == [];
    CloseActive(s3, 5);
    IdleCases(s4, evs[4]);
    RunUnfold(Init, evs);
    RunUnfold(s1, evs[1..]);
    RunUnfold(s2, evs[2..]);
    RunUnfold(s3, evs[3..]);
    RunUnfold(s4, evs[4..]);
  }

  lemma {:induction false} CleanAgainEvents(a: string, b: string, chunk: seq<Stay>, evs: seq<Event>)
    requires StrLess(a, b)
    requires chunk == [Stay(b, 1, 2), Stay(a, 2, 5), Stay(b, 5, 5)]
    requires evs == [Event(1, b, Start), Event(2, a, Start), Event(2, b, End),
                     Event(5, a, End), Event(5, b, End), Event(5, b, Start)]
    ensures Sorted(evs)
    ensures multiset(evs) == multiset(Project(chunk))
  {
    assert Sorted(evs) by {
      NeighboursSorted(evs);
    }
    assert multiset(evs) == multiset(Project(chunk)) by {
      ThreeStaysLastReversed(Stay(b, 1, 2), Stay(a, 2, 5), Stay(b, 5, 5), evs);
    }
  }

  /**
   * Cleaning the result of `SameDayEnds` again raises: on day 5 the end of `a` leaves
   * the sweep idle, and the zero-length stay's end `(5, b, 'e')` sorts before its
   * start, so it fails the assertion that an idle sweep meets a start.
   */
  lemma {:induction false} SameDayEndsCleanedAgainFails(a: string, b: string)
    requires StrLess(a, b)
    ensures CleanResult([Stay(b, 1, 2), Stay(a, 2, 5), Stay(b, 5, 5)]) == Fail(EndWhileIdle)
  {
    var chunk := [Stay(b, 1, 2), Stay(a, 2, 5), Stay(b, 5, 5)];
    var evs := [Event(1, b, Start), Event(2, a, Start), Event(2, b, End),
                Event(5, a, End), Event(5, b, End), Event(5, b, Start)];
    StrLessIrreflexive(a);
    CleanAgainEvents(a, b, chunk, evs);
    CleanAgainSweep(a, b, evs);
    FailVia(chunk, evs, EndWhileIdle);
  }

  /** Up to the zero-length stay's end, which drops the suspension of `y`. */
  lemma {:induction false} ZeroLengthInsideOpen(y: string, z: string, evs: seq<Event>, s3: Sweep)
    requires y != z
    requires evs == [Event(1, y, Start), Event(2, z, Start), Event(5, y, End)]
    requires s3 == Sweep(Some(z), Some(Start), false, [],
      [Event(1, y, Start), Event(2, y, End), Event(2, z, Start)])
    ensures Run(Init, evs) == Ok(s3)
  {
    var r1 := [Event(1, y, Start)];
    var s1 := Sweep(Some(y), Some(Start), false, [], r1);
    var s2 := Sweep(Some(z), Some(Start), false, [y], s3.records);
    IdleCases(Init, evs[0]);
    SuspendThenResume(s1, z, 2, 10);
    assert r1 + [Event(2, y, End), Event(2, z, Start)] == s3.records;
    assert s1.stack + [y] == [y];
    EndOfSuspended(s2, evs[2]);
    assert RemoveFirst([y], y) == [];
    RunUnfold(Init, evs);
    RunUnfold(s1, evs[1..]);
    RunUnfold(s2, evs[2..]);
    assert evs[2..][1..] == [];
  }

  /** From there: the zero-length stay's start suspends `z`, and the two ends unwind. */
  lemma {:induction false} ZeroLengthInsideClose(y: string, z: string, s3: Sweep, evs: seq<Event>, recs: seq<Event>)
    requires y != z
    requires s3 == Sweep(Some(z), Some(Start), false, [],
      [Event(1, y, Start), Event(2, y, End), Event(2, z, Start)])
    requires evs == [Event(5, y, Start), Event(10, y, End), Event(10, z, End)]
    requires recs == [Event(1, y, Start), Event(2, y, End), Event(2, z, Start), Event(5, z, End),
                      Event(5, y, Start), Event(10, y, End), Event(10, z, Start), Event(10, z, End)]
    ensures Run(s3, evs) == Ok(Closed(recs))
  {
    var r5 := s3.records + [Event(5, z, End), Event(5, y, Start)];
    var r7 := r5 + [Event(10, y, End), Event(10, z, Start)];
    var s4 := Sweep(Some(y), Some(Start), false, [z], r5);
    var s5 := Sweep(Some(z), Some(Start), false, [], r7);
    SuspendThenResume(s3, y, 5, 10);
    CloseActive(s5, 10);
    assert r7 + [Event(10, z, End)] == recs;
    RunUnfold(s3, evs);
    RunUnfold(s4, evs[1..]);
    RunUnfold(s5, evs[2..]);
    assert evs[2..][1..] == [];
  }

  lemma {:induction false} ZeroLengthInsideSweep(y: string, z: string, evs: seq<Event>, recs: seq<Event>)
    requires y != z
    requires evs == [Event(1, y, Start), Event(2, z, Start), Event(5, y, End),
                     Event(5, y, Start), Event(10, y, End), Event(10, z, End)]
    requires recs == [Event(1, y, Start), Event(2, y, End), Event(2, z, Start), Event(5, z, End),
                      Event(5, y, Start), Event(10, y, End), Event(10, z, Start), Event(10, z, End)]
    ensures Run(Init, evs) == Ok(Closed(recs))
  {
    var s3 := Sweep(Some(z), Some(Start), false, [],
      [Event(1, y, Start), Event(2, y, End), Event(2, z, Start)]);
    ZeroLengthInsideOpen(y, z, evs[..3], s3);
    ZeroLengthInsideClose(y, z, s3, evs[3..], recs);
    RunAppend(Init, evs[..3], evs[3..]);
    assert evs[..3] + evs[3..] == evs;
  }

  lemma {:induction false} ZeroLengthInsidePairs(y: string, z: string, recs: seq<Event>, out: seq<Stay>)
    requires recs == [Event(1, y, Start), Event(2, y, End), Event(2, z, Start), Event(5, z, End),
                      Event(5, y, Start), Event(10, y, End), Event(10, z, Start), Event(10, z, End)]
    requires out == [Stay(y, 1, 2), Stay(z, 2, 5), Stay(y, 5, 10), Stay(z, 10, 10)]
    ensures Unpair(recs) == Ok(out)
  {
    assert Unpaired(recs) == out;
  }

  lemma {:induction false} ZeroLengthInsideEvents(y: string, z: string, chunk: seq<Stay>, evs: seq<Event>)
    requires StrLess(y, z)
    requires chunk == [Stay(y, 1, 10), Stay(z, 2, 10), Stay(y, 5, 5)]
    requires evs == [Event(1, y, Start), Event(2, z, Start), Event(5, y, End),
                     Event(5, y, Start), Event(10, y, End), Event(10, z, End)]
    ensures Sorted(evs)
    ensures multiset(evs) == multiset(Project(chunk))
  {
    assert Sorted(evs) by {
      NeighboursSorted(evs);
    }
    assert multiset(evs) == multiset(Project(chunk)) by {
      ThreeStaysInnerReversed(Stay(y, 1, 10), Stay(z, 2, 10), Stay(y, 5, 5), evs);
    }
  }

  /**
   * A zero-length stay inside an overlap need not make the source raise: its end drops
   * the suspension of `y` and its start suspends `z`, and the sweep closes normally.
   */
  lemma {:induction false} ZeroLengthInsideOverlap(y: string, z: string)
    requires StrLess(y, z)
    ensures CleanResult([Stay(y, 1, 10), Stay(z, 2, 10), Stay(y, 5, 5)])
      == Ok([Stay(y, 1, 2), Stay(z, 2, 5), Stay(y, 5, 10), Stay(z, 10, 10)])
  {
    var chunk := [Stay(y, 1, 10), Stay(z, 2, 10), Stay(y, 5, 5)];
    var evs := [Event(1, y, Start), Event(2, z, Start), Event(5, y, End),
                Event(5, y, Start), Event(10, y, End), Event(10, z, End)];
    var recs := [Event(1, y, Start), Event(2, y, End), Event(2, z, Start), Event(5, z, End),
                 Event(5, y, Start), Event(10, y, End), Event(10, z, Start), Event(10, z, End)];
    var out := [Stay(y, 1, 2), Stay(z, 2, 5), Stay(y, 5, 10), Stay(z, 10, 10)];
    StrLessIrreflexive(y);
    ZeroLengthInsideEvents(y, z, chunk, evs);
    ZeroLengthInsideSweep(y, z, evs, recs);
    ZeroLengthInsidePairs(y, z, recs, out);
    CleanVia(chunk, evs, recs, out);
  }
}
