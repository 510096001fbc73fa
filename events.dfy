/**
 * Boundary events of the overlap fixer and the order Python's `sorted` puts them in.
 *
 * An event is the tuple `(time, id, kind)`; Python compares tuples field by field,
 * strings by code point with a proper prefix first, and the kind letters with
 * 'e' < 's', so an end sorts before a start of the same facility at the same time.
 */
module Events {

  /** Python's `<` on `str`: lexicographic by code point; a proper prefix sorts first. */
  predicate StrLess(a: string, b: string)
    decreases |a|
  {
    |b| > 0 && (|a| == 0 || a[0] < b[0] || (a[0] == b[0] && StrLess(a[1..], b[1..])))
  }

  lemma {:induction false} StrLessIrreflexive(a: string)
    ensures !StrLess(a, a)
    decreases |a|
  {
    if |a| > 0 {
      StrLessIrreflexive(a[1..]);
    }
  }

  lemma {:induction false} StrLessTransitive(a: string, b: string, c: string)
    requires StrLess(a, b) && StrLess(b, c)
    ensures StrLess(a, c)
    decreases |a|
  {
    if |a| > 0 && a[0] == b[0] && b[0] == c[0] {
      StrLessTransitive(a[1..], b[1..], c[1..]);
    }
  }

  lemma {:induction false} StrLessTrichotomy(a: string, b: string)
    ensures a == b || StrLess(a, b) || StrLess(b, a)
    decreases |a|
  {
    if |a| > 0 && |b| > 0 && a[0] == b[0] {
      StrLessTrichotomy(a[1..], b[1..]);
      if a[1..] == b[1..] {
        assert a == [a[0]] + a[1..] && b == [b[0]] + b[1..];
      }
    }
  }

  lemma {:induction false} StrLessAsymmetric(a: string, b: string)
    requires StrLess(a, b)
    ensures !StrLess(b, a)
    decreases |a|
  {
    if |a| > 0 && a[0] == b[0] {
      StrLessAsymmetric(a[1..], b[1..]);
    }
  }

  /** The event kind; declared so that `End` is the smaller one, as 'e' < 's'. */
  datatype Kind = End | Start

  predicate KindLess(a: Kind, b: Kind) {
    a.End? && b.Start?
  }

  /** The tuple `(time, id, kind)`. */
  datatype Event = Event(time: int, fid: string, kind: Kind)

  /** Python's `<` on `(time, id, kind)` tuples. */
  predicate EventLess(a: Event, b: Event) {
    || a.time < b.time
    || (a.time == b.time && StrLess(a.fid, b.fid))
    || (a.time == b.time && a.fid == b.fid && KindLess(a.kind, b.kind))
  }

  predicate EventLe(a: Event, b: Event) {
    a == b || EventLess(a, b)
  }

  lemma {:induction false} EventLeTotal(a: Event, b: Event)
    ensures EventLe(a, b) || EventLe(b, a)
  {
    StrLessTrichotomy(a.fid, b.fid);
  }

  lemma {:induction false} EventLeAntisymmetric(a: Event, b: Event)
    requires EventLe(a, b) && EventLe(b, a)
    ensures a == b
  {
    if a != b {
      StrLessIrreflexive(a.fid);
      if StrLess(a.fid, b.fid) {
        StrLessAsymmetric(a.fid, b.fid);
      }
    }
  }

  lemma {:induction false} EventLeTransitive(a: Event, b: Event, c: Event)
    requires EventLe(a, b) && EventLe(b, c)
    ensures EventLe(a, c)
  {
    if a != b && b != c && a.time == b.time == c.time {
      if StrLess(a.fid, b.fid) && StrLess(b.fid, c.fid) {
        StrLessTransitive(a.fid, b.fid, c.fid);
      }
    }
  }

  /** Ascending under the tuple order. */
  predicate Sorted(s: seq<Event>) {
    forall i, j :: 0 <= i < j < |s| ==> EventLe(s[i], s[j])
  }

  /** Times never decrease along `s`. */
  predicate TimesAscending(s: seq<Event>) {
    forall i, j :: 0 <= i < j < |s| ==> s[i].time <= s[j].time
  }

  lemma {:induction false} SortedTimesAscending(s: seq<Event>)
    requires Sorted(s)
    ensures TimesAscending(s)
  {
  }

  /** Strictly increasing times, checked between neighbours. */
  predicate TimesIncrease(s: seq<Event>) {
    forall i :: 0 < i < |s| ==> s[i - 1].time < s[i].time
  }

  /** Events whose times strictly increase are sorted, whatever their ids and kinds. */
  lemma {:induction false} TimesIncreaseSorted(s: seq<Event>)
    requires TimesIncrease(s)
    ensures forall i, j :: 0 <= i < j < |s| ==> s[i].time < s[j].time
    ensures Sorted(s)
  {
    if s != [] {
      TimesIncreaseSorted(s[1..]);
      forall j | 1 < j < |s|
        ensures s[0].time < s[j].time
      {
        assert s[1..][0].time < s[1..][j - 1].time;
      }
    }
  }

  /** Places `e` in front of the first element it does not exceed. */
  function Insert(e: Event, s: seq<Event>): (r: seq<Event>)
    ensures multiset(r) == multiset(s) + multiset{e}
    ensures |r| == |s| + 1
  {
    if s == [] then [e]
    else if EventLe(e, s[0]) then [e] + s
    else
      assert s == [s[0]] + s[1..];
      [s[0]] + Insert(e, s[1..])
  }

  lemma {:induction false} InsertSorted(e: Event, s: seq<Event>)
    requires Sorted(s)
    ensures Sorted(Insert(e, s))
  {
    if s == [] {
    } else if EventLe(e, s[0]) {
      forall j | 0 <= j < |s|
        ensures EventLe(e, s[j])
      {
        if j > 0 {
          EventLeTransitive(e, s[0], s[j]);
        }
      }
      assert Insert(e, s) == [e] + s;
    } else {
      var t := Insert(e, s[1..]);
      InsertSorted(e, s[1..]);
      EventLeTotal(e, s[0]);
      forall j | 0 <= j < |t|
        ensures EventLe(s[0], t[j])
      {
        assert t[j] in multiset(t);
        if t[j] != e {
          assert t[j] in multiset(s[1..]);
          var k :| 0 <= k < |s[1..]| && s[1..][k] == t[j];
          assert s[k + 1] == t[j];
        }
      }
      assert Insert(e, s) == [s[0]] + t;
    }
  }

  /** A sorted permutation of `s`: the value Python's `sorted(s)` returns. */
  function SortEvents(s: seq<Event>): (r: seq<Event>)
    ensures multiset(r) == multiset(s)
    ensures |r| == |s|
  {
    if s == [] then [] else
      assert s == [s[0]] + s[1..];
      Insert(s[0], SortEvents(s[1..]))
  }

  lemma {:induction false} SortEventsSorted(s: seq<Event>)
    ensures Sorted(SortEvents(s))
  {
    if s != [] {
      SortEventsSorted(s[1..]);
      InsertSorted(s[0], SortEvents(s[1..]));
    }
  }

  /** The head of a sorted list is below every element of it. */
  lemma {:induction false} HeadIsLeast(a: seq<Event>, x: Event)
    requires Sorted(a) && x in multiset(a)
    ensures EventLe(a[0], x)
  {
    var k :| 0 <= k < |a| && a[k] == x;
    assert k == 0 || EventLe(a[0], a[k]);
  }

  /** Two sorted permutations of one another start with the same element. */
  lemma {:induction false} SameHead(a: seq<Event>, b: seq<Event>)
    requires Sorted(a) && Sorted(b) && a != []
    requires multiset(a) == multiset(b)
    ensures b != [] && a[0] == b[0]
  {
    assert |b| == |multiset(b)| == |a| > 0;
    assert a[0] in multiset(b) && b[0] in multiset(a);
    HeadIsLeast(b, a[0]);
    HeadIsLeast(a, b[0]);
    EventLeAntisymmetric(a[0], b[0]);
  }

  /** The tail of a sorted list is sorted and holds all but its head. */
  lemma {:induction false} SortedTail(a: seq<Event>)
    requires Sorted(a) && a != []
    ensures Sorted(a[1..])
    ensures multiset(a[1..]) == multiset(a) - multiset{a[0]}
  {
    assert a == [a[0]] + a[1..];
  }

  /** An element no greater than the head of a sorted list extends it in front. */
  lemma {:induction false} SortedCons(a: Event, s: seq<Event>)
    requires Sorted(s) && (s != [] ==> EventLe(a, s[0]))
    ensures Sorted([a] + s)
  {
    forall j | 0 < j < |s| + 1
      ensures EventLe(a, ([a] + s)[j])
    {
      if j > 1 {
        EventLeTransitive(a, s[0], s[j - 1]);
      }
    }
  }

  /** A list whose neighbours are in order is sorted. */
  lemma {:induction false} NeighboursSorted(s: seq<Event>)
    requires forall i :: 0 < i < |s| ==> EventLe(s[i - 1], s[i])
    ensures Sorted(s)
    decreases |s|
  {
    if s != [] {
      var t := s[1..];
      assert forall i :: 0 < i < |t| ==> t[i - 1] == s[i] && t[i] == s[i + 1];
      NeighboursSorted(t);
      SortedCons(s[0], t);
      assert s == [s[0]] + t;
    }
  }

  /** Under a total order there is only one sorted arrangement of a multiset. */
  lemma {:induction false} SortedUnique(a: seq<Event>, b: seq<Event>)
    requires Sorted(a) && Sorted(b)
    requires multiset(a) == multiset(b)
    ensures a == b
    decreases |a|
  {
    if a == [] {
      assert |b| == |multiset(b)| == 0;
    } else {
      SameHead(a, b);
      SortedTail(a);
      SortedTail(b);
      SortedUnique(a[1..], b[1..]);
      assert a == [a[0]] + a[1..] && b == [b[0]] + b[1..];
    }
  }

  /** Any sorted permutation of `s` is `SortEvents(s)`, so the model agrees with `sorted`. */
  lemma {:induction false} SortEventsIsSorted(s: seq<Event>, r: seq<Event>)
    requires Sorted(r) && multiset(r) == multiset(s)
    ensures SortEvents(s) == r
  {
    SortEventsSorted(s);
    SortedUnique(SortEvents(s), r);
  }

  /** Sorting an already sorted list changes nothing (`slow_break` sorts again). */
  lemma {:induction false} SortEventsIdempotent(s: seq<Event>)
    requires Sorted(s)
    ensures SortEvents(s) == s
  {
    SortEventsIsSorted(s, s);
  }
}
