/**
 * The overlap resolution engine of transfer_linkage/overlap_fixer.py.
 *
 * `clean_overlaps` turns one subject's stays into boundary events (`transform`),
 * sweeps them with a stack of suspended facilities (`slow_break`) and pairs the
 * emitted boundary records back into stays (`inverse_transform`).
 */
module OverlapFixer {
  import opened Options
  import opened Events

  /** One stay `(facility, start, end)`. */
  datatype Stay = Stay(fid: string, start: int, end: int)

  /** The points at which the source stops with an exception. */
  datatype Failure =
    | EndWhileIdle     // the assertion that the event is a start, when nothing is active
    | EndNotSuspended  // `stack.remove` of a facility that is not on the stack (ValueError)
    | PairMismatch     // the assertion that both records of a pair name the same facility

  datatype Result<T> = Ok(value: T) | Fail(failure: Failure)

  // ---------------------------------------------------------------- transform

  /** The events of the stays, in input order: each stay gives its start, then its end. */
  function Project(stays: seq<Stay>): seq<Event>
  {
    if stays == [] then []
    else
      [Event(stays[0].start, stays[0].fid, Start), Event(stays[0].end, stays[0].fid, End)]
      + Project(stays[1..])
  }

  lemma {:induction false} ProjectAt(stays: seq<Stay>, i: int)
    requires 0 <= i < |stays|
    ensures |Project(stays)| == 2 * |stays|
    ensures Project(stays)[2 * i] == Event(stays[i].start, stays[i].fid, Start)
    ensures Project(stays)[2 * i + 1] == Event(stays[i].end, stays[i].fid, End)
  {
    if i > 0 {
      ProjectAt(stays[1..], i - 1);
    } else if |stays| > 1 {
      ProjectAt(stays[1..], 0);
    }
  }

  lemma {:induction false} ProjectAppend(x: seq<Stay>, y: seq<Stay>)
    ensures Project(x + y) == Project(x) + Project(y)
  {
    if x == [] {
      assert x + y == y;
    } else {
      assert (x + y)[1..] == x[1..] + y;
      ProjectAppend(x[1..], y);
    }
  }

  lemma {:induction false} ProjectLength(stays: seq<Stay>)
    ensures |Project(stays)| == 2 * |stays|
  {
    if stays != [] {
      ProjectAt(stays, 0);
    }
  }

  /** `transform`: both events of every stay, sorted as Python sorts the tuples. */
  function Transform(stays: seq<Stay>): (r: seq<Event>)
    ensures |r| == 2 * |stays|
    ensures Sorted(r)
    ensures multiset(r) == multiset(Project(stays))
  {
    ProjectLength(stays);
    SortEventsSorted(Project(stays));
    SortEvents(Project(stays))
  }

  /** Every stay contributes its start event and its end event to `transform`'s output. */
  lemma {:induction false} TransformHasBoth(stays: seq<Stay>, i: int)
    requires 0 <= i < |stays|
    ensures Event(stays[i].start, stays[i].fid, Start) in Transform(stays)
    ensures Event(stays[i].end, stays[i].fid, End) in Transform(stays)
  {
    ProjectAt(stays, i);
    var p := Project(stays);
    assert p[2 * i] in multiset(p) && p[2 * i + 1] in multiset(p);
    assert p[2 * i] in multiset(Transform(stays));
    assert p[2 * i + 1] in multiset(Transform(stays));
  }

  // -------------------------------------------------------- inverse_transform

  /** Both records of every pair name the same facility (a trailing odd record is ignored). */
  predicate PairsMatch(events: seq<Event>) {
    forall i :: 0 <= i < |events| / 2 ==> events[2 * i].fid == events[2 * i + 1].fid
  }

  /** The stays read off consecutive pairs of records. */
  function Unpaired(events: seq<Event>): seq<Stay> {
    seq(|events| / 2, i requires 0 <= i < |events| / 2 =>
      Stay(events[2 * i].fid, events[2 * i].time, events[2 * i + 1].time))
  }

  /** What `inverse_transform` returns or raises. */
  function Unpair(events: seq<Event>): Result<seq<Stay>> {
    if PairsMatch(events) then Ok(Unpaired(events)) else Fail(PairMismatch)
  }

  /** `inverse_transform`: the loop over `range(len(events) // 2)`. */
  method InverseTransform(events: seq<Event>) returns (r: Result<seq<Stay>>)
    ensures r == Unpair(events)
  {
    var intervals: seq<Stay> := [];
    for i := 0 to |events| / 2
      invariant |intervals| == i
      invariant forall k :: 0 <= k < i ==> events[2 * k].fid == events[2 * k + 1].fid
      invariant forall k :: 0 <= k < i ==>
        intervals[k] == Stay(events[2 * k].fid, events[2 * k].time, events[2 * k + 1].time)
    {
      var start := events[2 * i];
      var end := events[2 * i + 1];
      if start.fid != end.fid {
        return Fail(PairMismatch);
      }
      intervals := intervals + [Stay(start.fid, start.time, end.time)];
    }
    assert intervals == Unpaired(events);
    return Ok(intervals);
  }

  /** Pairing undoes the projection: the records of stays give back exactly those stays. */
  lemma {:induction false} UnpairProject(stays: seq<Stay>)
    ensures Unpair(Project(stays)) == Ok(stays)
  {
    var p := Project(stays);
    ProjectLength(stays);
    forall i | 0 <= i < |p| / 2
      ensures p[2 * i].fid == p[2 * i + 1].fid
      ensures Unpaired(p)[i] == stays[i]
    {
      ProjectAt(stays, i);
    }
    assert Unpaired(p) == stays;
  }

  // --------------------------------------------------------------- slow_break

  /**
   * The sweep's variables: the active facility `fid`, `state` (None or a start),
   * the `cont` flag, the stack of suspended facilities (top at the end) and the
   * records emitted so far.
   */
  datatype Sweep = Sweep(
    fid: Option<string>,
    state: Option<Kind>,
    cont: bool,
    stack: seq<string>,
    records: seq<Event>)

  const Init := Sweep(None, None, false, [], [])

  /** `fid` is None exactly when `state` is, and then nothing is suspended. */
  predicate Coherent(s: Sweep) {
    && (s.fid.None? <==> s.state.None?)
    && (s.state.None? ==> s.stack == [])
    && (s.state.Some? ==> s.state.value == Start)
  }

  /** `deque.remove(f)`: drops one occurrence of `f` (the first one, by `RemoveFirstAt`). */
  function RemoveFirst<T(==)>(stack: seq<T>, f: T): (r: seq<T>)
    requires f in stack
    ensures |r| == |stack| - 1
    ensures multiset(r) == multiset(stack) - multiset{f}
  {
    assert stack == [stack[0]] + stack[1..];
    if stack[0] == f then stack[1..] else [stack[0]] + RemoveFirst(stack[1..], f)
  }

  /** Dropping the element at `j + 1` keeps the head in front. */
  lemma {:induction false} DropAfterHead<T>(s: seq<T>, j: int)
    requires 0 <= j < |s| - 1
    ensures [s[0]] + (s[1..][..j] + s[1..][j + 1..]) == s[..j + 1] + s[j + 2..]
  {
    assert s[..j + 1] == [s[0]] + s[1..][..j];
    assert s[j + 2..] == s[1..][j + 1..];
  }

  /**
   * The occurrence `deque.remove` drops is the first (oldest) one, at `k`, and the
   * rest keep their order.
   */
  lemma {:induction false} RemoveFirstAt<T>(stack: seq<T>, f: T, k: int)
    requires 0 <= k < |stack| && stack[k] == f && f !in stack[..k]
    ensures RemoveFirst(stack, f) == stack[..k] + stack[k + 1..]
    decreases k
  {
    if k == 0 {
      assert stack[..0] + stack[1..] == stack[1..];
    } else {
      assert stack[0] in stack[..k];
      assert stack[1..][..k - 1] == stack[..k][1..];
      RemoveFirstAt(stack[1..], f, k - 1);
      DropAfterHead(stack, k - 1);
    }
  }

  /** `after` is `before` followed by records all stamped with time `t`. */
  predicate StampedAt(before: seq<Event>, after: seq<Event>, t: int) {
    && |before| <= |after|
    && after[..|before|] == before
    && forall i :: |before| <= i < |after| ==> after[i].time == t
  }

  /** One iteration of the `while times:` loop: the five cases in their order. */
  function Step(s: Sweep, e: Event): (r: Result<Sweep>)
    requires Coherent(s)
    ensures r.Ok? ==> Coherent(r.value)
    ensures r.Ok? ==> StampedAt(s.records, r.value.records, e.time)
  {
    if s.state.None? && s.stack == [] then
      // nothing active: only a start may come
      if e.kind != Start then Fail(EndWhileIdle)
      else Ok(s.(fid := Some(e.fid), state := Some(Start),
                 records := s.records + [Event(e.time, e.fid, Start)]))
    else if e.kind == Start && Some(e.fid) == s.fid then
      // restart of the active facility: split it here, skip its next end
      Ok(s.(records := s.records + [Event(e.time, e.fid, End), Event(e.time, e.fid, Start)],
            cont := true))
    else if e.kind == Start then
      // overlapping admission: suspend the active facility
      var f := s.fid.value;
      Ok(s.(stack := s.stack + [f], fid := Some(e.fid),
            records := s.records + [Event(e.time, f, End), Event(e.time, e.fid, Start)]))
    else if Some(e.fid) == s.fid then
      // end of the active facility
      if s.cont then Ok(s.(cont := false))
      else if s.stack == [] then
        Ok(s.(fid := None, state := None, records := s.records + [e]))
      else
        var top := s.stack[|s.stack| - 1];
        Ok(s.(fid := Some(top), state := Some(Start), stack := s.stack[..|s.stack| - 1],
              records := s.records + [e, Event(e.time, top, Start)]))
    else if e.fid in s.stack then
      // a suspended facility ends before it is resumed
      Ok(s.(stack := RemoveFirst(s.stack, e.fid)))
    else
      Fail(EndNotSuspended)
  }

  /** The sweep from state `s` over the remaining events `evs`. */
  function Run(s: Sweep, evs: seq<Event>): (r: Result<Sweep>)
    requires Coherent(s)
    ensures r.Ok? ==> Coherent(r.value)
    ensures r.Fail? ==> r.failure == EndWhileIdle || r.failure == EndNotSuspended
    decreases |evs|
  {
    if evs == [] then Ok(s)
    else match Step(s, evs[0])
      case Fail(f) => Fail(f)
      case Ok(next) => Run(next, evs[1..])
  }

  lemma {:induction false} RunUnfold(s: Sweep, evs: seq<Event>)
    requires Coherent(s) && evs != []
    ensures Step(s, evs[0]).Fail? ==> Run(s, evs) == Fail(Step(s, evs[0]).failure)
    ensures Step(s, evs[0]).Ok? ==> Run(s, evs) == Run(Step(s, evs[0]).value, evs[1..])
  {
  }

  /** Sweeping `x + y` is sweeping `x`, then sweeping `y` from where `x` left off. */
  lemma {:induction false} RunAppend(s: Sweep, x: seq<Event>, y: seq<Event>)
    requires Coherent(s)
    ensures Run(s, x + y) == match Run(s, x)
      case Fail(f) => Fail(f)
      case Ok(m) => Run(m, y)
    decreases |x|
  {
    if x == [] {
      assert x + y == y;
    } else {
      RunUnfold(s, x + y);
      RunUnfold(s, x);
      assert (x + y)[0] == x[0];
      if Step(s, x[0]).Ok? {
        assert (x + y)[1..] == x[1..] + y;
        RunAppend(Step(s, x[0]).value, x[1..], y);
      }
    }
  }

  /** What `slow_break` returns or raises. */
  function SweepResult(times: seq<Event>): Result<seq<Event>> {
    match Run(Init, SortEvents(times))
    case Fail(f) => Fail(f)
    case Ok(s) => Ok(s.records)
  }

  /** `slow_break`: sort, then pop events from the front until none is left. */
  method SlowBreak(times: seq<Event>) returns (r: Result<seq<Event>>)
    ensures r == SweepResult(times)
  {
    var queue := SortEvents(times);
    var fid: Option<string> := None;
    var state: Option<Kind> := None;
    var cont := false;
    var records: seq<Event> := [];
    var stack: seq<string> := [];
    while queue != []
      invariant Coherent(Sweep(fid, state, cont, stack, records))
      invariant Run(Init, SortEvents(times)) == Run(Sweep(fid, state, cont, stack, records), queue)
      decreases |queue|
    {
      var e := queue[0];
      ghost var before := Sweep(fid, state, cont, stack, records);
      RunUnfold(before, queue);
      queue := queue[1..];
      if state.None? && stack == [] {
        if e.kind != Start {
          return Fail(EndWhileIdle);
        }
        fid := Some(e.fid);
        state := Some(e.kind);
        records := records + [Event(e.time, fid.value, state.value)];
        assert Step(before, e) == Ok(Sweep(fid, state, cont, stack, records));
      } else if e.kind == Start && Some(e.fid) == fid {
        records := records + [Event(e.time, fid.value, End), Event(e.time, e.fid, Start)];
        cont := true;
        assert Step(before, e) == Ok(Sweep(fid, state, cont, stack, records));
      } else if e.kind == Start {
        stack := stack + [fid.value];
        records := records + [Event(e.time, fid.value, End), Event(e.time, e.fid, Start)];
        fid := Some(e.fid);
        assert Step(before, e) == Ok(Sweep(fid, state, cont, stack, records));
      } else if Some(e.fid) == fid {
        if cont {
          cont := false;
          assert Step(before, e) == Ok(Sweep(fid, state, cont, stack, records));
          continue;
        }
        fid, state := None, None;
        if stack == [] {
          records := records + [e];
        } else {
          state := Some(Start);
          fid := Some(stack[|stack| - 1]);
          stack := stack[..|stack| - 1];
          records := records + [e, Event(e.time, fid.value, state.value)];
        }
        assert Step(before, e) == Ok(Sweep(fid, state, cont, stack, records));
      } else {
        if e.fid !in stack {
          return Fail(EndNotSuspended);
        }
        stack := RemoveFirst(stack, e.fid);
        assert Step(before, e) == Ok(Sweep(fid, state, cont, stack, records));
      }
    }
    return Ok(records);
  }

  // ----------------------------------------------------------- clean_overlaps

  /** What `clean_overlaps` returns or raises. */
  function CleanResult(chunk: seq<Stay>): Result<seq<Stay>> {
    match SweepResult(Transform(chunk))
    case Fail(f) => Fail(f)
    case Ok(records) => Unpair(records)
  }

  /** `clean_overlaps`: transform, sweep, pair up. */
  method CleanOverlaps(chunk: seq<Stay>) returns (r: Result<seq<Stay>>)
    ensures r == CleanResult(chunk)
    ensures r.Ok? ==> NoOverlap(r.value)
    ensures r != Fail(PairMismatch)
    ensures r.Ok? && (forall i :: 0 <= i < |chunk| ==> chunk[i].start <= chunk[i].end) ==>
      forall t :: Covers(r.value, t) <==> Covers(chunk, t)
  {
    var breakable := Transform(chunk);
    var cleaned := SlowBreak(breakable);
    match cleaned
    case Fail(f) =>
      r := Fail(f);
    case Ok(records) =>
      r := InverseTransform(records);
    CleanNoOverlap(chunk);
    CleanNeverMismatches(chunk);
    if forall i :: 0 <= i < |chunk| ==> chunk[i].start <= chunk[i].end {
      CleanCoverage(chunk);
    }
  }

  // --------------------------------------------------- the cases, one at a time

  /** With nothing active, an end is refused and a start opens its facility. */
  lemma {:induction false} IdleCases(s: Sweep, e: Event)
    requires Coherent(s) && s.state.None?
    ensures e.kind == End ==> Step(s, e) == Fail(EndWhileIdle)
    ensures e.kind == Start ==>
      Step(s, e) == Ok(s.(fid := Some(e.fid), state := Some(Start), records := s.records + [e]))
  {
  }

  /**
   * A stay of `g` nested in the active stay of `f`: its start suspends `f` (pushes it,
   * ends it and starts `g`, all at `t1`); its end closes `g` and resumes `f` at `t2`,
   * leaving the stack as it was.
   */
  lemma {:induction false} SuspendThenResume(s: Sweep, g: string, t1: int, t2: int)
    requires Coherent(s) && s.fid.Some? && s.fid.value != g && !s.cont
    ensures var f := s.fid.value;
      var suspended := s.(fid := Some(g), stack := s.stack + [f],
                          records := s.records + [Event(t1, f, End), Event(t1, g, Start)]);
      && Step(s, Event(t1, g, Start)) == Ok(suspended)
      && Step(suspended, Event(t2, g, End)) == Ok(s.(records := suspended.records
           + [Event(t2, g, End), Event(t2, f, Start)]))
  {
    var f := s.fid.value;
    var suspended := s.(fid := Some(g), stack := s.stack + [f],
                        records := s.records + [Event(t1, f, End), Event(t1, g, Start)]);
    assert suspended.stack[..|suspended.stack| - 1] == s.stack;
  }

  /**
   * A second start of the active facility `f` splits its stay at `t1` and makes the
   * sweep skip the next end of the active facility.
   */
  lemma {:induction false} RestartSkipsNextEnd(s: Sweep, t1: int, t2: int)
    requires Coherent(s) && s.fid.Some?
    ensures var f := s.fid.value;
      var restarted := s.(cont := true,
                          records := s.records + [Event(t1, f, End), Event(t1, f, Start)]);
      && Step(s, Event(t1, f, Start)) == Ok(restarted)
      && Step(restarted, Event(t2, f, End)) == Ok(restarted.(cont := false))
  {
  }

  /**
   * The end of the active facility with no skip pending: it is recorded, and the most
   * recently suspended facility, if any, resumes at the same time.
   */
  lemma {:induction false} CloseActive(s: Sweep, t: int)
    requires Coherent(s) && s.fid.Some? && !s.cont
    ensures var f := s.fid.value;
      Step(s, Event(t, f, End)) == Ok(
        if s.stack == [] then s.(fid := None, state := None, records := s.records + [Event(t, f, End)])
        else
          var top := s.stack[|s.stack| - 1];
          s.(fid := Some(top), stack := s.stack[..|s.stack| - 1],
             records := s.records + [Event(t, f, End), Event(t, top, Start)]))
  {
  }

  /**
   * The end of a facility that is not active: it drops one suspension of that
   * facility, records nothing, and fails when the facility is not suspended.
   */
  lemma {:induction false} EndOfSuspended(s: Sweep, e: Event)
    requires Coherent(s) && s.state.Some? && e.kind == End && Some(e.fid) != s.fid
    ensures e.fid in s.stack ==> Step(s, e) == Ok(s.(stack := RemoveFirst(s.stack, e.fid)))
    ensures e.fid !in s.stack ==> Step(s, e) == Fail(EndNotSuspended)
  {
  }

  // ------------------------------------------------------------ pass-through

  /** Stays that each start before they end and end before the next one starts. */
  predicate Disjoint(stays: seq<Stay>) {
    && (forall i :: 0 <= i < |stays| ==> stays[i].start < stays[i].end)
    && (forall i :: 0 < i < |stays| ==> stays[i - 1].end < stays[i].start)
  }

  lemma {:induction false} ProjectTimesIncrease(stays: seq<Stay>)
    requires Disjoint(stays)
    ensures TimesIncrease(Project(stays))
  {
    var p := Project(stays);
    ProjectLength(stays);
    forall k | 0 < k < |p|
      ensures p[k - 1].time < p[k].time
    {
      ProjectAt(stays, k / 2);
      ProjectAt(stays, (k - 1) / 2);
    }
  }

  /** A closed sweep that meets a stay's start and then its end records the stay and closes again. */
  lemma {:induction false} OpenThenClose(recs: seq<Event>, x: Stay, rest: seq<Event>)
    ensures var a, b := Event(x.start, x.fid, Start), Event(x.end, x.fid, End);
      Run(Sweep(None, None, false, [], recs), [a, b] + rest)
        == Run(Sweep(None, None, false, [], recs + [a, b]), rest)
  {
    var a, b := Event(x.start, x.fid, Start), Event(x.end, x.fid, End);
    var s0 := Sweep(None, None, false, [], recs);
    IdleCases(s0, a);
    var s1 := Sweep(Some(x.fid), Some(Start), false, [], recs + [a]);
    CloseActive(s1, x.end);
    RunUnfold(s0, [a, b] + rest);
    assert ([a, b] + rest)[1..] == [b] + rest;
    RunUnfold(s1, [b] + rest);
    assert ([b] + rest)[1..] == rest;
    assert recs + [a] + [b] == recs + [a, b];
  }

  /** Stays met in their own order sweep as open-then-close, one stay at a time. */
  lemma {:induction false} RunProjected(recs: seq<Event>, stays: seq<Stay>)
    ensures Run(Sweep(None, None, false, [], recs), Project(stays))
      == Ok(Sweep(None, None, false, [], recs + Project(stays)))
    decreases |stays|
  {
    if stays != [] {
      var x := stays[0];
      var a, b := Event(x.start, x.fid, Start), Event(x.end, x.fid, End);
      assert Project(stays) == [a, b] + Project(stays[1..]);
      OpenThenClose(recs, x, Project(stays[1..]));
      RunProjected(recs + [a, b], stays[1..]);
      assert Run(Sweep(None, None, false, [], recs), Project(stays))
        == Run(Sweep(None, None, false, [], recs + [a, b]), Project(stays[1..]));
      assert recs + [a, b] + Project(stays[1..]) == recs + Project(stays);
    } else {
      assert recs + Project(stays) == recs;
    }
  }

  /**
   * Stays that each start before they end and end no later than the next one starts:
   * stays that do not overlap, touching ones included.
   */
  predicate Sequential(stays: seq<Stay>) {
    && (forall i :: 0 <= i < |stays| ==> stays[i].start < stays[i].end)
    && (forall i :: 0 < i < |stays| ==> stays[i - 1].end <= stays[i].start)
  }

  /**
   * The end of `x` and the start of the next stay `y`, in the order `sorted` gives them:
   * on a shared day the start comes first exactly when `y`'s id is the smaller.
   */
  function Handover(x: Stay, y: Stay): seq<Event> {
    if x.end == y.start && StrLess(y.fid, x.fid)
    then [Event(y.start, y.fid, Start), Event(x.end, x.fid, End)]
    else [Event(x.end, x.fid, End), Event(y.start, y.fid, Start)]
  }

  /** The events of sequential stays after the first start, in sorted order. */
  function AfterFirstStart(stays: seq<Stay>): seq<Event>
    requires stays != []
    decreases |stays|
  {
    if |stays| == 1 then [Event(stays[0].end, stays[0].fid, End)]
    else Handover(stays[0], stays[1]) + AfterFirstStart(stays[1..])
  }

  lemma {:induction false} HandoverSorted(x: Stay, y: Stay)
    requires x.end <= y.start
    ensures EventLess(Handover(x, y)[0], Handover(x, y)[1])
  {
    StrLessTrichotomy(x.fid, y.fid);
  }

  /** Sequential stays after the first stay are sequential. */
  lemma {:induction false} SequentialTail(stays: seq<Stay>)
    requires Sequential(stays) && stays != []
    ensures Sequential(stays[1..])
  {
    var t := stays[1..];
    forall i | 0 < i < |t|
      ensures t[i - 1].end <= t[i].start
    {
      assert t[i - 1] == stays[i] && t[i] == stays[i + 1];
    }
  }

  /** `AfterFirstStart` opens with an event on the first stay's end day. */
  lemma {:induction false} AfterFirstStartHead(stays: seq<Stay>)
    requires stays != []
    ensures AfterFirstStart(stays) != [] && AfterFirstStart(stays)[0].time == stays[0].end
  {
    if |stays| > 1 {
      assert AfterFirstStart(stays)[0] == Handover(stays[0], stays[1])[0];
    }
  }

  /** The events of sequential stays after the first start come in sorted order. */
  lemma {:induction false} AfterFirstStartSorted(stays: seq<Stay>)
    requires Sequential(stays) && stays != []
    ensures Sorted(AfterFirstStart(stays))
    decreases |stays|
  {
    if |stays| > 1 {
      var x, y := stays[0], stays[1];
      var h, rest := Handover(x, y), AfterFirstStart(stays[1..]);
      SequentialTail(stays);
      AfterFirstStartSorted(stays[1..]);
      AfterFirstStartHead(stays[1..]);
      HandoverSorted(x, y);
      assert EventLess(h[1], rest[0]) by {
        assert h[1].time == y.start < y.end == rest[0].time;
      }
      SortedCons(h[1], rest);
      SortedCons(h[0], [h[1]] + rest);
      assert AfterFirstStart(stays) == [h[0]] + ([h[1]] + rest);
    }
  }

  /** `AfterFirstStart` holds the first stay's end and the events of the other stays. */
  lemma {:induction false} AfterFirstStartPermutation(stays: seq<Stay>)
    requires stays != []
    ensures multiset(AfterFirstStart(stays))
      == multiset([Event(stays[0].end, stays[0].fid, End)] + Project(stays[1..]))
    decreases |stays|
  {
    if |stays| > 1 {
      var y := stays[1];
      AfterFirstStartPermutation(stays[1..]);
      assert Project(stays[1..]) == [Event(y.start, y.fid, Start), Event(y.end, y.fid, End)]
        + Project(stays[1..][1..]);
    } else {
      assert stays[1..] == [];
    }
  }

  /** Closing the active facility `f` and then opening `g` leaves `g` active and nothing suspended. */
  lemma {:induction false} CloseThenOpen(recs: seq<Event>, f: string, g: string, t1: int, t2: int, rest: seq<Event>)
    ensures Run(Sweep(Some(f), Some(Start), false, [], recs), [Event(t1, f, End), Event(t2, g, Start)] + rest)
      == Run(Sweep(Some(g), Some(Start), false, [], recs + [Event(t1, f, End), Event(t2, g, Start)]), rest)
  {
    var s0 := Sweep(Some(f), Some(Start), false, [], recs);
    var s1 := Sweep(None, None, false, [], recs + [Event(t1, f, End)]);
    var evs := [Event(t1, f, End), Event(t2, g, Start)] + rest;
    CloseActive(s0, t1);
    IdleCases(s1, evs[1]);
    RunUnfold(s0, evs);
    RunUnfold(s1, evs[1..]);
    assert evs[1..][1..] == rest;
    assert recs + [Event(t1, f, End)] + [Event(t2, g, Start)] == recs + [Event(t1, f, End), Event(t2, g, Start)];
  }

  /**
   * `g` starting while `f` is active suspends `f`; `f`'s end on the same day then drops
   * that suspension, which leaves `g` active and nothing suspended.
   */
  lemma {:induction false} SuspendThenDrop(recs: seq<Event>, f: string, g: string, t: int, rest: seq<Event>)
    requires f != g
    ensures Run(Sweep(Some(f), Some(Start), false, [], recs), [Event(t, g, Start), Event(t, f, End)] + rest)
      == Run(Sweep(Some(g), Some(Start), false, [], recs + [Event(t, f, End), Event(t, g, Start)]), rest)
  {
    var s0 := Sweep(Some(f), Some(Start), false, [], recs);
    var s1 := Sweep(Some(g), Some(Start), false, [f], recs + [Event(t, f, End), Event(t, g, Start)]);
    var evs := [Event(t, g, Start), Event(t, f, End)] + rest;
    assert s0.stack + [f] == [f];
    assert Step(s0, evs[0]) == Ok(s1);
    EndOfSuspended(s1, evs[1]);
    assert RemoveFirst([f], f) == [];
    RunUnfold(s0, evs);
    RunUnfold(s1, evs[1..]);
    assert evs[1..][1..] == rest;
  }

  /**
   * From the active stay `x`, the handover to the next stay `y` leaves `y` active with
   * nothing suspended, whichever order the two events come in.
   */
  lemma {:induction false} HandoverRun(recs: seq<Event>, x: Stay, y: Stay, rest: seq<Event>)
    ensures Run(Sweep(Some(x.fid), Some(Start), false, [], recs), Handover(x, y) + rest)
      == Run(Sweep(Some(y.fid), Some(Start), false, [],
                   recs + [Event(x.end, x.fid, End), Event(y.start, y.fid, Start)]), rest)
  {
    if x.end == y.start && StrLess(y.fid, x.fid) {
      StrLessIrreflexive(x.fid);
      SuspendThenDrop(recs, x.fid, y.fid, x.end, rest);
    } else {
      CloseThenOpen(recs, x.fid, y.fid, x.end, y.start, rest);
    }
  }

  /** From the first stay active, the sorted rest of sequential stays records them as they are. */
  lemma {:induction false} RunAfterFirstStart(recs: seq<Event>, stays: seq<Stay>)
    requires stays != []
    ensures Run(Sweep(Some(stays[0].fid), Some(Start), false, [], recs), AfterFirstStart(stays))
      == Ok(Sweep(None, None, false, [], recs + [Event(stays[0].end, stays[0].fid, End)] + Project(stays[1..])))
    decreases |stays|
  {
    var x := stays[0];
    var ex := Event(x.end, x.fid, End);
    var s0 := Sweep(Some(x.fid), Some(Start), false, [], recs);
    if |stays| == 1 {
      calc {
        Run(s0, AfterFirstStart(stays));
        Run(s0, [ex]);
        { CloseActive(s0, x.end); RunUnfold(s0, [ex]); }
        Ok(Sweep(None, None, false, [], recs + [ex]));
        { assert stays[1..] == [] && Project(stays[1..]) == [];
          assert recs + [ex] + [] == recs + [ex]; }
        Ok(Sweep(None, None, false, [], recs + [ex] + Project(stays[1..])));
      }
    } else {
      var y := stays[1];
      var sy, ey := Event(y.start, y.fid, Start), Event(y.end, y.fid, End);
      var rest := AfterFirstStart(stays[1..]);
      var s1 := Sweep(Some(y.fid), Some(Start), false, [], recs + [ex, sy]);
      calc {
        Run(s0, AfterFirstStart(stays));
        Run(s0, Handover(x, y) + rest);
        { HandoverRun(recs, x, y, rest); }
        Run(s1, rest);
        { RunAfterFirstStart(recs + [ex, sy], stays[1..]); }
        Ok(Sweep(None, None, false, [], recs + [ex, sy] + [ey] + Project(stays[1..][1..])));
        { assert Project(stays[1..]) == [sy, ey] + Project(stays[1..][1..]);
          assert recs + [ex, sy] + [ey] + Project(stays[1..][1..])
            == recs + [ex] + ([sy, ey] + Project(stays[1..][1..])); }
        Ok(Sweep(None, None, false, [], recs + [ex] + Project(stays[1..])));
      }
    }
  }

  /** The first start followed by `AfterFirstStart` is sorted. */
  lemma {:induction false} SequentialSorted(stays: seq<Stay>)
    requires Sequential(stays) && stays != []
    ensures Sorted([Event(stays[0].start, stays[0].fid, Start)] + AfterFirstStart(stays))
  {
    AfterFirstStartHead(stays);
    AfterFirstStartSorted(stays);
    SortedCons(Event(stays[0].start, stays[0].fid, Start), AfterFirstStart(stays));
  }

  /** The first start followed by `AfterFirstStart` is a permutation of the stays' events. */
  lemma {:induction false} SequentialPermutation(stays: seq<Stay>)
    requires stays != []
    ensures multiset([Event(stays[0].start, stays[0].fid, Start)] + AfterFirstStart(stays))
      == multiset(Project(stays))
  {
    var x := stays[0];
    var sx, ex := Event(x.start, x.fid, Start), Event(x.end, x.fid, End);
    var rest := Project(stays[1..]);
    calc {
      multiset([sx] + AfterFirstStart(stays));
      multiset([sx]) + multiset(AfterFirstStart(stays));
      { AfterFirstStartPermutation(stays); }
      multiset([sx]) + multiset([ex] + rest);
      multiset([sx] + ([ex] + rest));
      { assert Project(stays) == [sx, ex] + rest;
        assert [sx, ex] + rest == [sx] + ([ex] + rest); }
      multiset(Project(stays));
    }
  }

  /** `transform` puts sequential stays in order first start, then `AfterFirstStart`. */
  lemma {:induction false} TransformSequential(stays: seq<Stay>)
    requires Sequential(stays) && stays != []
    ensures Transform(stays) == [Event(stays[0].start, stays[0].fid, Start)] + AfterFirstStart(stays)
  {
    SequentialSorted(stays);
    SequentialPermutation(stays);
    SortEventsIsSorted(Project(stays), [Event(stays[0].start, stays[0].fid, Start)] + AfterFirstStart(stays));
  }

  /** The sweep over sequential stays in that order records their own events, in input order. */
  lemma {:induction false} RunSequential(stays: seq<Stay>)
    requires stays != []
    ensures Run(Init, [Event(stays[0].start, stays[0].fid, Start)] + AfterFirstStart(stays))
      == Ok(Sweep(None, None, false, [], Project(stays)))
  {
    var x := stays[0];
    var sx := Event(x.start, x.fid, Start);
    var q := [sx] + AfterFirstStart(stays);
    var s1 := Sweep(Some(x.fid), Some(Start), false, [], [sx]);
    calc {
      Run(Init, q);
      { IdleCases(Init, sx); RunUnfold(Init, q); assert q[1..] == AfterFirstStart(stays); }
      Run(s1, AfterFirstStart(stays));
      { RunAfterFirstStart([sx], stays); }
      Ok(Sweep(None, None, false, [], [sx] + [Event(x.end, x.fid, End)] + Project(stays[1..])));
      { assert Project(stays) == [sx] + [Event(x.end, x.fid, End)] + Project(stays[1..]); }
      Ok(Sweep(None, None, false, [], Project(stays)));
    }
  }

  /** `slow_break` on the `transform` of sequential stays records their own events, in input order. */
  lemma {:induction false} SweepSequential(stays: seq<Stay>)
    requires Sequential(stays)
    ensures SweepResult(Transform(stays)) == Ok(Project(stays))
  {
    var q := Transform(stays);
    SortEventsIdempotent(q);
    if stays == [] {
      assert q == [] && Project(stays) == [];
    } else {
      TransformSequential(stays);
      RunSequential(stays);
    }
  }

  /** Stays that do not overlap, touching ones included, come back unchanged from `clean_overlaps`. */
  lemma {:induction false} CleanPassThrough(stays: seq<Stay>)
    requires Sequential(stays)
    ensures CleanResult(stays) == Ok(stays)
  {
    SweepSequential(stays);
    UnpairProject(stays);
  }

  // ------------------------------------------------------ the sweep's shape

  /** Records come in (start f, end f) pairs. */
  predicate Paired(recs: seq<Event>) {
    && |recs| % 2 == 0
    && forall i :: 0 <= i < |recs| / 2 ==>
         && recs[2 * i].kind == Start
         && recs[2 * i + 1].kind == End
         && recs[2 * i].fid == recs[2 * i + 1].fid
  }

  lemma {:induction false} PairedAppend(recs: seq<Event>, a: Event, b: Event)
    requires Paired(recs)
    requires a.kind == Start && b.kind == End && a.fid == b.fid
    ensures Paired(recs + [a, b])
  {
    var r := recs + [a, b];
    forall i | 0 <= i < |r| / 2
      ensures r[2 * i].kind == Start && r[2 * i + 1].kind == End && r[2 * i].fid == r[2 * i + 1].fid
    {
      if i < |recs| / 2 {
        assert r[2 * i] == recs[2 * i] && r[2 * i + 1] == recs[2 * i + 1];
      } else {
        assert 2 * i == |recs|;
      }
    }
  }

  /** Closed pairs, then, while a facility is active, that facility's open start. */
  predicate Shaped(s: Sweep) {
    match s.fid
    case None => Paired(s.records)
    case Some(f) =>
      && |s.records| % 2 == 1
      && Paired(s.records[..|s.records| - 1])
      && s.records[|s.records| - 1].fid == f
      && s.records[|s.records| - 1].kind == Start
  }

  /** Closing the open start of a shaped record list completes its last pair. */
  lemma {:induction false} CloseOpen(recs: seq<Event>, closing: Event)
    requires |recs| % 2 == 1 && Paired(recs[..|recs| - 1])
    requires recs[|recs| - 1].kind == Start && recs[|recs| - 1].fid == closing.fid
    requires closing.kind == End
    ensures Paired(recs + [closing])
  {
    var p := recs[..|recs| - 1];
    assert recs == p + [recs[|recs| - 1]];
    PairedAppend(p, recs[|recs| - 1], closing);
    assert recs + [closing] == p + [recs[|recs| - 1], closing];
  }

  /** A start after complete pairs leaves the list shaped for that facility. */
  lemma {:induction false} OpenAfter(recs: seq<Event>, opening: Event, s: Sweep)
    requires Paired(recs) && opening.kind == Start
    requires s.fid == Some(opening.fid) && s.records == recs + [opening]
    ensures Shaped(s)
  {
    assert s.records[..|s.records| - 1] == recs;
  }

  /** Every case of the sweep keeps the records in that shape. */
  lemma {:induction false} StepShaped(s: Sweep, e: Event)
    requires Coherent(s) && Shaped(s) && Step(s, e).Ok?
    ensures Shaped(Step(s, e).value)
  {
    var r := Step(s, e).value;
    if s.state.None? && s.stack == [] {
      OpenAfter(s.records, e, r);
    } else if e.kind == Start {
      var closing := Event(e.time, s.fid.value, End);
      CloseOpen(s.records, closing);
      assert r.records == s.records + [closing] + [Event(e.time, e.fid, Start)];
      OpenAfter(s.records + [closing], Event(e.time, e.fid, Start), r);
    } else if Some(e.fid) == s.fid && !s.cont {
      CloseOpen(s.records, e);
      if s.stack != [] {
        var top := s.stack[|s.stack| - 1];
        assert r.records == s.records + [e] + [Event(e.time, top, Start)];
        OpenAfter(s.records + [e], Event(e.time, top, Start), r);
      }
    }
  }

  lemma {:induction false} RunShaped(s: Sweep, evs: seq<Event>)
    requires Coherent(s) && Shaped(s) && Run(s, evs).Ok?
    ensures Shaped(Run(s, evs).value)
    decreases |evs|
  {
    if evs != [] {
      StepShaped(s, evs[0]);
      RunShaped(Step(s, evs[0]).value, evs[1..]);
    }
  }

  // --------------------------------------------- the sweep closes what it opens

  /** Facilities currently open: the active one and the suspended ones. */
  function Open(s: Sweep): nat {
    (if s.fid.Some? then 1 else 0) + |s.stack|
  }

  /** An end the sweep has promised to skip. */
  function Pending(s: Sweep): nat {
    if s.cont then 1 else 0
  }

  /** Ends minus starts among `evs`. */
  function Net(evs: seq<Event>): int {
    if evs == [] then 0 else (if evs[0].kind == End then 1 else -1) + Net(evs[1..])
  }

  /** A start opens at most one facility or skip; an end closes one. */
  lemma {:induction false} StepBalance(s: Sweep, e: Event)
    requires Coherent(s) && Step(s, e).Ok?
    ensures var r := Step(s, e).value;
      Open(r) + Pending(r) <= Open(s) + Pending(s) + (if e.kind == Start then 1 else -1)
  {
  }

  /**
   * With no more open facilities and skips than the remaining events can close,
   * a sweep that does not fail ends with nothing active, nothing suspended and no skip pending.
   */
  lemma {:induction false} RunCloses(s: Sweep, evs: seq<Event>)
    requires Coherent(s) && Open(s) + Pending(s) <= Net(evs) && Run(s, evs).Ok?
    ensures var f := Run(s, evs).value; f.fid.None? && f.stack == [] && !f.cont
    decreases |evs|
  {
    if evs != [] {
      StepBalance(s, evs[0]);
      RunCloses(Step(s, evs[0]).value, evs[1..]);
    }
  }

  lemma {:induction false} NetInsert(e: Event, s: seq<Event>)
    ensures Net(Insert(e, s)) == Net([e]) + Net(s)
  {
    if s == [] {
    } else if EventLe(e, s[0]) {
      assert ([e] + s)[1..] == s;
    } else {
      NetInsert(e, s[1..]);
      assert ([s[0]] + Insert(e, s[1..]))[1..] == Insert(e, s[1..]);
    }
  }

  /** Sorting keeps the balance of ends and starts. */
  lemma {:induction false} NetSortEvents(s: seq<Event>)
    ensures Net(SortEvents(s)) == Net(s)
  {
    if s != [] {
      NetSortEvents(s[1..]);
      NetInsert(s[0], SortEvents(s[1..]));
    }
  }

  /** Every stay gives one start and one end. */
  lemma {:induction false} NetProject(stays: seq<Stay>)
    ensures Net(Project(stays)) == 0
  {
    if stays != [] {
      var p := Project(stays);
      NetProject(stays[1..]);
      assert p[1..][1..] == Project(stays[1..]);
    }
  }

  // ---------------------------------------------------- timestamps never go back

  predicate AllAtMost(recs: seq<Event>, t: int) {
    forall i :: 0 <= i < |recs| ==> recs[i].time <= t
  }

  lemma {:induction false} RunTimesAscending(s: Sweep, evs: seq<Event>)
    requires Coherent(s) && Run(s, evs).Ok?
    requires TimesAscending(evs) && TimesAscending(s.records)
    requires evs != [] ==> AllAtMost(s.records, evs[0].time)
    ensures TimesAscending(Run(s, evs).value.records)
    decreases |evs|
  {
    if evs != [] {
      var next := Step(s, evs[0]).value;
      var n := |s.records|;
      forall i | 0 <= i < n
        ensures next.records[i] == s.records[i]
      {
        assert next.records[..n][i] == next.records[i];
      }
      assert TimesAscending(next.records);
      if |evs| > 1 {
        assert evs[0].time <= evs[1].time;
      }
      RunTimesAscending(next, evs[1..]);
    }
  }

  /** Each stay ends no earlier than it starts and no later than the next one starts. */
  predicate NoOverlap(stays: seq<Stay>) {
    && (forall i :: 0 <= i < |stays| ==> stays[i].start <= stays[i].end)
    && (forall i :: 0 < i < |stays| ==> stays[i - 1].end <= stays[i].start)
  }

  lemma {:induction false} UnpairedNoOverlap(recs: seq<Event>)
    requires TimesAscending(recs)
    ensures NoOverlap(Unpaired(recs))
  {
    var u := Unpaired(recs);
    forall i | 0 < i < |u|
      ensures u[i - 1].end <= u[i].start
    {
      assert u[i - 1].end == recs[2 * i - 1].time && u[i].start == recs[2 * i].time;
    }
  }

  lemma {:induction false} PairedMatch(recs: seq<Event>)
    requires Paired(recs)
    ensures PairsMatch(recs)
  {
  }

  // ------------------------------------------------------------- the theorems

  /**
   * On the events of any stays, a sweep that does not fail ends with nothing
   * active, nothing suspended and no skip pending, and its records are
   * (start f, end f) pairs with non-decreasing times.
   */
  lemma {:induction false} SweepEndsClosed(chunk: seq<Stay>)
    ensures Run(Init, SortEvents(Transform(chunk))).Ok? ==>
      var f := Run(Init, SortEvents(Transform(chunk))).value;
      && f.fid.None? && f.state.None? && f.stack == [] && !f.cont
      && Paired(f.records) && TimesAscending(f.records)
  {
    var evs := SortEvents(Transform(chunk));
    if Run(Init, evs).Ok? {
      NetProject(chunk);
      NetSortEvents(Project(chunk));
      SortEventsIdempotent(Transform(chunk));
      assert multiset(Transform(chunk)) == multiset(SortEvents(Project(chunk)));
      SortEventsIsSorted(Project(chunk), Transform(chunk));
      RunCloses(Init, evs);
      RunShaped(Init, evs);
      SortedTimesAscending(evs);
      RunTimesAscending(Init, evs);
    }
  }

  /** The pairing assertion of `inverse_transform` never fires inside `clean_overlaps`. */
  lemma {:induction false} CleanNeverMismatches(chunk: seq<Stay>)
    ensures CleanResult(chunk) != Fail(PairMismatch)
    ensures CleanResult(chunk).Ok? <==> SweepResult(Transform(chunk)).Ok?
  {
    var swept := SweepResult(Transform(chunk));
    if swept.Ok? {
      SweepEndsClosed(chunk);
      PairedMatch(swept.value);
      assert Unpair(swept.value) == Ok(Unpaired(swept.value));
      assert CleanResult(chunk) == Unpair(swept.value);
    } else {
      assert CleanResult(chunk) == Fail(swept.failure);
      assert swept.failure != PairMismatch;
    }
  }

  /** What `clean_overlaps` returns is free of overlaps, one stay per pair of records. */
  lemma {:induction false} CleanNoOverlap(chunk: seq<Stay>)
    ensures CleanResult(chunk).Ok? ==> NoOverlap(CleanResult(chunk).value)
  {
    SweepEndsClosed(chunk);
    if CleanResult(chunk).Ok? {
      UnpairedNoOverlap(SweepResult(Transform(chunk)).value);
    }
  }

  // ------------------------------------------------- the same moments covered

  /** Some stay spans moment `t`: it has started by `t` and not yet ended. */
  predicate Covers(stays: seq<Stay>, t: int) {
    exists i :: 0 <= i < |stays| && stays[i].start <= t < stays[i].end
  }

  /** Ends minus starts among the events of `evs` later than `t`. */
  function NetAfter(evs: seq<Event>, t: int): int {
    if evs == [] then 0
    else (if evs[0].time <= t then 0 else if evs[0].kind == End then 1 else -1) + NetAfter(evs[1..], t)
  }

  lemma {:induction false} NetAppend(x: seq<Event>, y: seq<Event>)
    ensures Net(x + y) == Net(x) + Net(y)
  {
    if x == [] {
      assert x + y == y;
    } else {
      assert (x + y)[1..] == x[1..] + y;
      NetAppend(x[1..], y);
    }
  }

  lemma {:induction false} NetAfterAppend(x: seq<Event>, y: seq<Event>, t: int)
    ensures NetAfter(x + y, t) == NetAfter(x, t) + NetAfter(y, t)
  {
    if x == [] {
      assert x + y == y;
    } else {
      assert (x + y)[1..] == x[1..] + y;
      NetAfterAppend(x[1..], y, t);
    }
  }

  lemma {:induction false} NetAfterInsert(e: Event, s: seq<Event>, t: int)
    ensures NetAfter(Insert(e, s), t) == NetAfter([e], t) + NetAfter(s, t)
  {
    if s == [] {
    } else if EventLe(e, s[0]) {
      assert ([e] + s)[1..] == s;
    } else {
      NetAfterInsert(e, s[1..], t);
      assert ([s[0]] + Insert(e, s[1..]))[1..] == Insert(e, s[1..]);
    }
  }

  /** Sorting keeps the balance of the events after any moment. */
  lemma {:induction false} NetAfterSortEvents(s: seq<Event>, t: int)
    ensures NetAfter(SortEvents(s), t) == NetAfter(s, t)
  {
    if s != [] {
      NetAfterSortEvents(s[1..], t);
      NetAfterInsert(s[0], SortEvents(s[1..]), t);
    }
  }

  /**
   * For stays that end no earlier than they start, the events after `t` never
   * have more starts than ends, and have more ends exactly when some stay spans `t`.
   */
  lemma {:induction false} NetAfterProject(stays: seq<Stay>, t: int)
    requires forall i :: 0 <= i < |stays| ==> stays[i].start <= stays[i].end
    ensures NetAfter(Project(stays), t) >= 0
    ensures NetAfter(Project(stays), t) > 0 <==> Covers(stays, t)
  {
    if stays != [] {
      var p := Project(stays);
      var rest := stays[1..];
      NetAfterProject(rest, t);
      assert p[1..][1..] == Project(rest);
      assert NetAfter(p[1..], t) == (if stays[0].end <= t then 0 else 1) + NetAfter(Project(rest), t);
      if Covers(rest, t) {
        var i :| 0 <= i < |rest| && rest[i].start <= t < rest[i].end;
        assert stays[i + 1] == rest[i];
      }
      if Covers(stays, t) {
        var i :| 0 <= i < |stays| && stays[i].start <= t < stays[i].end;
        if i > 0 {
          assert rest[i - 1] == stays[i];
        }
      }
    }
  }

  lemma {:induction false} NetAfterAllAbove(evs: seq<Event>, t: int)
    requires forall i :: 0 <= i < |evs| ==> evs[i].time > t
    ensures NetAfter(evs, t) == Net(evs)
  {
    if evs != [] {
      assert forall i :: 0 <= i < |evs[1..]| ==> evs[1..][i] == evs[i + 1];
      NetAfterAllAbove(evs[1..], t);
    }
  }

  lemma {:induction false} NetAfterAllUpTo(evs: seq<Event>, t: int)
    requires forall i :: 0 <= i < |evs| ==> evs[i].time <= t
    ensures NetAfter(evs, t) == 0
  {
    if evs != [] {
      assert forall i :: 0 <= i < |evs[1..]| ==> evs[1..][i] == evs[i + 1];
      NetAfterAllUpTo(evs[1..], t);
    }
  }

  /** The sweep goes idle only with no skip pending. */
  predicate Calm(s: Sweep) {
    s.fid.None? ==> !s.cont
  }

  lemma {:induction false} StepCalm(s: Sweep, e: Event)
    requires Coherent(s) && Calm(s) && Step(s, e).Ok?
    ensures Calm(Step(s, e).value)
  {
  }

  lemma {:induction false} RunCalm(s: Sweep, evs: seq<Event>)
    requires Coherent(s) && Calm(s) && Run(s, evs).Ok?
    ensures Calm(Run(s, evs).value)
    decreases |evs|
  {
    if evs != [] {
      StepCalm(s, evs[0]);
      RunCalm(Step(s, evs[0]).value, evs[1..]);
    }
  }

  /**
   * Along a sweep that does not fail, open facilities and skips shrink at least
   * as fast as the events balance out: what is still open at the end, plus the
   * balance of the events swept, is at most what was open at the start.
   */
  lemma {:induction false} RunDrift(s: Sweep, evs: seq<Event>)
    requires Coherent(s) && Run(s, evs).Ok?
    ensures var f := Run(s, evs).value; Net(evs) + Open(f) + Pending(f) <= Open(s) + Pending(s)
    decreases |evs|
  {
    if evs != [] {
      StepBalance(s, evs[0]);
      RunDrift(Step(s, evs[0]).value, evs[1..]);
    }
  }

  /** Records emitted while sweeping events later than `t` are stamped later than `t`. */
  lemma {:induction false} RunRecordsAfter(s: Sweep, evs: seq<Event>, t: int)
    requires Coherent(s) && Run(s, evs).Ok?
    requires forall i :: 0 <= i < |evs| ==> evs[i].time > t
    ensures var f := Run(s, evs).value;
      && |s.records| <= |f.records| && f.records[..|s.records|] == s.records
      && forall i :: |s.records| <= i < |f.records| ==> f.records[i].time > t
    decreases |evs|
  {
    if evs != [] {
      var next := Step(s, evs[0]).value;
      assert forall i :: 0 <= i < |evs[1..]| ==> evs[1..][i] == evs[i + 1];
      RunRecordsAfter(next, evs[1..], t);
      var f := Run(next, evs[1..]).value;
      var n, m := |s.records|, |next.records|;
      forall i | n <= i < |f.records|
        ensures f.records[i].time > t
      {
        if i < m {
          assert f.records[i] == f.records[..m][i];
        }
      }
      assert f.records[..n] == f.records[..m][..n];
    }
  }

  /** Records emitted while sweeping events up to `t` are stamped no later than `t`. */
  lemma {:induction false} RunRecordsUpTo(s: Sweep, evs: seq<Event>, t: int)
    requires Coherent(s) && Run(s, evs).Ok?
    requires forall i :: 0 <= i < |evs| ==> evs[i].time <= t
    requires AllAtMost(s.records, t)
    ensures AllAtMost(Run(s, evs).value.records, t)
    decreases |evs|
  {
    if evs != [] {
      var next := Step(s, evs[0]).value;
      var n := |s.records|;
      forall i | 0 <= i < |next.records|
        ensures next.records[i].time <= t
      {
        if i < n {
          assert next.records[i] == next.records[..n][i];
        }
      }
      assert forall i :: 0 <= i < |evs[1..]| ==> evs[1..][i] == evs[i + 1];
      RunRecordsUpTo(next, evs[1..], t);
    }
  }

  /** How many leading events are no later than `t`. */
  function Cut(evs: seq<Event>, t: int): (k: nat)
    ensures k <= |evs|
    ensures forall i :: 0 <= i < k ==> evs[i].time <= t
    ensures k < |evs| ==> evs[k].time > t
  {
    if evs == [] || evs[0].time > t then 0
    else
      assert forall i :: 0 < i <= Cut(evs[1..], t) ==> evs[i] == evs[1..][i - 1];
      1 + Cut(evs[1..], t)
  }

  /**
   * Pairs of records where the first `m` are stamped no later than `t` and the
   * rest later: a pair spans `t` exactly when `m` is odd.
   */
  lemma {:induction false} PairsCover(recs: seq<Event>, m: int, t: int)
    requires |recs| % 2 == 0 && 0 <= m <= |recs|
    requires forall i :: 0 <= i < m ==> recs[i].time <= t
    requires forall i :: m <= i < |recs| ==> recs[i].time > t
    ensures Covers(Unpaired(recs), t) <==> m % 2 == 1
  {
    var u := Unpaired(recs);
    if m % 2 == 1 {
      var i := (m - 1) / 2;
      assert u[i].start == recs[m - 1].time && u[i].end == recs[m].time;
    }
    if Covers(u, t) {
      var i :| 0 <= i < |u| && u[i].start <= t < u[i].end;
      assert u[i].start == recs[2 * i].time && u[i].end == recs[2 * i + 1].time;
    }
  }

  /**
   * Where a successful `clean_overlaps` stands after the events up to `t`:
   * something is active exactly when some input stay spans `t`.
   */
  lemma {:induction false} ActiveAt(chunk: seq<Stay>, t: int, x: seq<Event>, y: seq<Event>)
    requires forall i :: 0 <= i < |chunk| ==> chunk[i].start <= chunk[i].end
    requires x + y == SortEvents(Transform(chunk)) && Run(Init, x + y).Ok?
    requires forall i :: 0 <= i < |x| ==> x[i].time <= t
    requires forall i :: 0 <= i < |y| ==> y[i].time > t
    ensures Run(Init, x).Ok?
    ensures Run(Init, x).value.fid.Some? <==> Covers(chunk, t)
  {
    RunAppend(Init, x, y);
    var mid := Run(Init, x).value;
    RunDrift(Init, x);
    RunDrift(mid, y);
    NetAppend(x, y);
    NetProject(chunk);
    NetSortEvents(Project(chunk));
    NetSortEvents(Transform(chunk));
    assert Open(mid) + Pending(mid) == Net(y);
    NetAfterAllUpTo(x, t);
    NetAfterAllAbove(y, t);
    NetAfterAppend(x, y, t);
    NetAfterSortEvents(Project(chunk), t);
    NetAfterSortEvents(Transform(chunk), t);
    NetAfterProject(chunk, t);
    RunCalm(Init, x);
  }

  /**
   * Sweeping `x` (events up to `t`) then `y` (events after `t`): the records
   * emitted by then are stamped no later than `t`, all later ones after `t`,
   * and there is an odd number of them exactly when something is active.
   */
  lemma {:induction false} RecordsSplitAt(x: seq<Event>, y: seq<Event>, t: int)
    requires Run(Init, x + y).Ok? && Run(Init, x).Ok?
    requires forall i :: 0 <= i < |x| ==> x[i].time <= t
    requires forall i :: 0 <= i < |y| ==> y[i].time > t
    ensures var recs, mid := Run(Init, x + y).value.records, Run(Init, x).value;
      && |mid.records| <= |recs|
      && (|mid.records| % 2 == 1 <==> mid.fid.Some?)
      && (forall i :: 0 <= i < |mid.records| ==> recs[i].time <= t)
      && (forall i :: |mid.records| <= i < |recs| ==> recs[i].time > t)
  {
    var mid := Run(Init, x).value;
    RunAppend(Init, x, y);
    RunShaped(Init, x);
    RunRecordsUpTo(Init, x, t);
    RunRecordsAfter(mid, y, t);
    var recs := Run(mid, y).value.records;
    var m := |mid.records|;
    forall i | 0 <= i < m
      ensures recs[i].time <= t
    {
      assert recs[i] == recs[..m][i];
    }
  }

  /** A successful `clean_overlaps` returns the pairs of a successful sweep's records. */
  lemma {:induction false} CleanIsUnpaired(chunk: seq<Stay>)
    requires CleanResult(chunk).Ok?
    ensures Run(Init, SortEvents(Transform(chunk))).Ok?
    ensures var recs := Run(Init, SortEvents(Transform(chunk))).value.records;
      |recs| % 2 == 0 && CleanResult(chunk).value == Unpaired(recs)
  {
    CleanNeverMismatches(chunk);
    SweepEndsClosed(chunk);
    PairedMatch(Run(Init, SortEvents(Transform(chunk))).value.records);
  }

  /** Events in time order split into those up to `t` and those after it. */
  lemma {:induction false} SplitAt(evs: seq<Event>, t: int)
    requires TimesAscending(evs)
    ensures var k := Cut(evs, t);
      && evs == evs[..k] + evs[k..]
      && (forall i :: 0 <= i < |evs[..k]| ==> evs[..k][i].time <= t)
      && (forall i :: 0 <= i < |evs[k..]| ==> evs[k..][i].time > t)
  {
    var k := Cut(evs, t);
    var x, y := evs[..k], evs[k..];
    assert evs == x + y;
    forall i | 0 <= i < |x|
      ensures x[i].time <= t
    {
      assert x[i] == evs[i];
    }
    forall i | 0 <= i < |y|
      ensures y[i].time > t
    {
      assert y[i] == evs[k + i];
      if i > 0 {
        assert evs[k].time <= evs[k + i].time;
      }
    }
  }

  /** At every moment, a successful `clean_overlaps` covers what its input covers. */
  lemma {:induction false} CoverageAt(chunk: seq<Stay>, t: int)
    requires forall i :: 0 <= i < |chunk| ==> chunk[i].start <= chunk[i].end
    ensures CleanResult(chunk).Ok? ==> (Covers(CleanResult(chunk).value, t) <==> Covers(chunk, t))
  {
    if CleanResult(chunk).Ok? {
      CleanIsUnpaired(chunk);
      var evs := SortEvents(Transform(chunk));
      SortEventsSorted(Transform(chunk));
      SortedTimesAscending(evs);
      SplitAt(evs, t);
      var k := Cut(evs, t);
      var x, y := evs[..k], evs[k..];
      ActiveAt(chunk, t, x, y);
      RecordsSplitAt(x, y, t);
      PairsCover(Run(Init, evs).value.records, |Run(Init, x).value.records|, t);
    }
  }

  /**
   * On stays that each end no earlier than they start, a successful
   * `clean_overlaps` covers exactly the same moments as its input.
   */
  lemma {:induction false} CleanCoverage(chunk: seq<Stay>)
    requires forall i :: 0 <= i < |chunk| ==> chunk[i].start <= chunk[i].end
    ensures CleanResult(chunk).Ok? ==>
      forall t :: Covers(CleanResult(chunk).value, t) <==> Covers(chunk, t)
  {
    forall t
      ensures CleanResult(chunk).Ok? ==> (Covers(CleanResult(chunk).value, t) <==> Covers(chunk, t))
    {
      CoverageAt(chunk, t);
    }
  }
}
