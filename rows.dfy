/**
 * The rows of the admissions table that transfer_linkage/parse_transitions.py and
 * transfer_linkage/network_maker.py iterate over, and the sequence helpers both use.
 * Dates are whole days.
 */
module Rows {

  /** One row `(sID, fID, Adate, Ddate)`: a subject's stay at a facility. */
  datatype Row = Row(sid: string, fid: string, adate: int, ddate: int)

  /** The rows of all subject partitions, partition after partition. */
  function Flatten(parts: seq<seq<Row>>): (r: seq<Row>)
    ensures forall p :: p in parts ==> forall x :: x in p ==> x in r
    ensures forall x :: x in r ==> exists p :: p in parts && x in p
  {
    if parts == [] then []
    else
      var rest := Flatten(parts[1..]);
      assert forall p :: p in parts ==> p == parts[0] || p in parts[1..];
      assert forall p :: p in parts[1..] ==> p in parts;
      parts[0] + rest
  }

  /** No value occurs twice. */
  predicate Distinct(xs: seq<string>) {
    forall i, j :: 0 <= i < j < |xs| ==> xs[i] != xs[j]
  }

  /** The distinct values of `xs`, each once, in the order of their first occurrence. */
  function Unique(xs: seq<string>): (r: seq<string>)
    ensures Distinct(r)
    ensures forall x :: x in r <==> x in xs
    decreases |xs|
  {
    if xs == [] then []
    else
      var u := Unique(xs[..|xs| - 1]);
      assert xs == xs[..|xs| - 1] + [xs[|xs| - 1]];
      if xs[|xs| - 1] in u then u else u + [xs[|xs| - 1]]
  }
}
