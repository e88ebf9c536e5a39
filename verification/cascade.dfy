/** The short-circuiting searches every extractor is built from: the first
    candidate that passes a test, the first element a chain of `find(...) or
    find(...)` returns, and the loop that assigns each parsed number and stops
    at the first positive one. */
module Cascade {
  import opened Wrappers

  /** Index of the first element of `xs` that passes `p`, if any does. */
  function FirstWhere<T>(xs: seq<T>, p: T -> bool): (r: Option<nat>)
    ensures r.Some? ==> r.value < |xs| && p(xs[r.value])
    ensures r.Some? ==> forall k :: 0 <= k < r.value ==> !p(xs[k])
    ensures r.None? <==> forall k :: 0 <= k < |xs| ==> !p(xs[k])
  {
    if |xs| == 0 then None
    else if p(xs[0]) then Some(0)
    else match FirstWhere(xs[1..], p)
      case None => None
      case Some(i) => Some(i + 1)
  }

  /** `f` applied to every element, in order. */
  function MapSeq<A, B>(xs: seq<A>, f: A -> B): (ys: seq<B>)
    ensures |ys| == |xs|
    ensures forall k :: 0 <= k < |xs| ==> ys[k] == f(xs[k])
  {
    seq(|xs|, k requires 0 <= k < |xs| => f(xs[k]))
  }

  /** `xs[k]` is the first element of `xs` that is present. */
  predicate FoundFirstAt<T>(xs: seq<Option<T>>, k: nat) {
    k < |xs| && xs[k].Some? && forall j :: 0 <= j < k ==> xs[j].None?
  }

  predicate IsFound<T>(o: Option<T>) {
    o.Some?
  }

  /** `find(a) or find(b) or ...`: the first query that found an element
      (an element is always truthy, whatever its content). */
  function FirstFound<T>(xs: seq<Option<T>>): (r: Option<T>)
    ensures r.None? <==> forall k :: 0 <= k < |xs| ==> xs[k].None?
    ensures r.Some? ==> exists k :: 0 <= k < |xs| && xs[k] == r && forall j :: 0 <= j < k ==> xs[j].None?
  {
    match FirstWhere(xs, IsFound)
    case None => None
    case Some(k) => xs[k]
  }

  /** The first element present is what the chain of `or`s returns. */
  lemma FirstFoundAt<T>(xs: seq<Option<T>>)
    ensures forall k: nat :: FoundFirstAt(xs, k) ==> FirstFound(xs) == xs[k]
  {
    forall k: nat | FoundFirstAt(xs, k)
      ensures FirstFound(xs) == xs[k]
    {
      var r := FirstFound(xs);
      var i :| 0 <= i < |xs| && xs[i] == r && forall j :: 0 <= j < i ==> xs[j].None?;
      assert !(i < k) && !(k < i);
    }
  }

  /** `a or b or c or d or e` over optional results: the first one present. */
  lemma FirstFoundOfFive<T>(a: Option<T>, b: Option<T>, c: Option<T>, d: Option<T>, e: Option<T>)
    ensures FirstFound([a, b, c, d, e])
      == if a.Some? then a else if b.Some? then b else if c.Some? then c else if d.Some? then d else e
  {
    var xs := [a, b, c, d, e];
    var r := FirstFound(xs);
    assert xs[0] == a && xs[1] == b && xs[2] == c && xs[3] == d && xs[4] == e;
    if r.Some? {
      var k :| 0 <= k < |xs| && xs[k] == r && forall j :: 0 <= j < k ==> xs[j].None?;
      if a.Some? { assert k == 0; }
      else if b.Some? { assert k == 1; }
      else if c.Some? { assert k == 2; }
      else if d.Some? { assert k == 3; }
    }
  }

  /** Python's truth value of a `str` or `None`: present and non-empty. */
  predicate Truthy(o: Option<string>) {
    o.Some? && o.value != ""
  }

  /** `value or 'Not found'`. */
  function OrNotFound(o: Option<string>): (r: string)
    ensures r != ""
    ensures Truthy(o) ==> r == o.value
    ensures !Truthy(o) ==> r == "Not found"
  {
    if Truthy(o) then o.value else "Not found"
  }

  predicate IsPositive(o: Option<nat>) {
    o.Some? && o.value > 0
  }

  /** The loop shape shared by the review-count loops and several sales-rank
      methods: each candidate either yields no number (`None`: no element, no
      match, or `int()` raised and the loop continued) or a parsed number,
      which is assigned to the running variable `current`; a positive number
      ends the loop, a zero does not. */
  function AssignLoop(vals: seq<Option<nat>>, current: Option<nat>): (r: Option<nat>)
    ensures r == current || exists k :: 0 <= k < |vals| && vals[k] == r
    ensures current.Some? ==> r.Some?
    decreases |vals|
  {
    if |vals| == 0 then current
    else match vals[0]
      case None => AssignLoop(vals[1..], current)
      case Some(n) => if n > 0 then Some(n) else AssignLoop(vals[1..], Some(n))
  }

  /** The loop returns the first positive number; failing that, 0 if any
      candidate parsed at all; failing that, the variable's value before the loop. */
  lemma {:induction false} AssignLoopResult(vals: seq<Option<nat>>, current: Option<nat>)
    ensures match FirstWhere(vals, IsPositive)
      case Some(i) => AssignLoop(vals, current) == vals[i]
      case None =>
        AssignLoop(vals, current)
          == if exists k :: 0 <= k < |vals| && vals[k].Some? then Some(0) else current
    decreases |vals|
  {
    if |vals| > 0 {
      var rest := vals[1..];
      match vals[0]
      case None =>
        AssignLoopResult(rest, current);
        assert forall k :: 0 < k < |vals| ==> vals[k] == rest[k - 1];
        if exists k :: 0 <= k < |rest| && rest[k].Some? {
          var k :| 0 <= k < |rest| && rest[k].Some?;
          assert vals[k + 1].Some?;
        }
      case Some(n) =>
        if n == 0 {
          AssignLoopResult(rest, Some(0));
          assert forall k :: 0 < k < |vals| ==> vals[k] == rest[k - 1];
          if FirstWhere(rest, IsPositive).None? {
            assert forall k :: 0 <= k < |vals| ==> !IsPositive(vals[k]);
          }
        }
    }
  }

  /** A positive value with none before it is the loop's result. */
  lemma AssignLoopFirstPositive(vals: seq<Option<nat>>, i: nat, current: Option<nat>)
    requires i < |vals| && IsPositive(vals[i])
    requires forall j :: 0 <= j < i ==> !IsPositive(vals[j])
    ensures AssignLoop(vals, current) == vals[i]
  {
    AssignLoopResult(vals, current);
    assert FirstWhere(vals, IsPositive) == Some(i);
  }

  /** The first candidate that passes `p` is the first whose value is positive. */
  lemma FirstWhereMapped<T>(xs: seq<T>, f: T -> Option<nat>, p: T -> bool)
    requires forall x :: p(x) <==> IsPositive(f(x))
    ensures FirstWhere(xs, p) == FirstWhere(MapSeq(xs, f), IsPositive)
  {
    var vals := MapSeq(xs, f);
    assert forall k :: 0 <= k < |xs| ==> (p(xs[k]) <==> IsPositive(vals[k]));
  }

  /** The same loop over the values `f` gives a sequence of candidates, with
      `p` the test "f gives a positive number". */
  lemma MappedAssignLoop<T>(xs: seq<T>, f: T -> Option<nat>, p: T -> bool, current: Option<nat>)
    requires forall x :: p(x) <==> IsPositive(f(x))
    ensures match FirstWhere(xs, p)
      case Some(i) => AssignLoop(MapSeq(xs, f), current) == f(xs[i])
      case None =>
        AssignLoop(MapSeq(xs, f), current)
          == if exists k :: 0 <= k < |xs| && f(xs[k]).Some? then Some(0) else current
  {
    var vals := MapSeq(xs, f);
    AssignLoopResult(vals, current);
    FirstWhereMapped(xs, f, p);
    if exists k :: 0 <= k < |xs| && f(xs[k]).Some? {
      var k :| 0 <= k < |xs| && f(xs[k]).Some?;
      assert vals[k].Some?;
    }
  }

  /** The loop ends with no value exactly when it started with none and no
      candidate yielded a number. */
  lemma {:induction false} AssignLoopNone(vals: seq<Option<nat>>, current: Option<nat>)
    ensures AssignLoop(vals, current).None? <==> current.None? && forall k :: 0 <= k < |vals| ==> vals[k].None?
    decreases |vals|
  {
    if |vals| > 0 {
      var rest := vals[1..];
      assert forall k :: 0 < k < |vals| ==> vals[k] == rest[k - 1];
      match vals[0]
      case None => AssignLoopNone(rest, current);
      case Some(n) => if n == 0 { AssignLoopNone(rest, Some(0)); }
    }
  }
}
