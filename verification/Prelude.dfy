/** Small generic vocabulary shared by every module: optional values, sequences
    without repetition, and removal of a set of elements from a sequence. */
module Prelude {

  datatype Option<+T> = None | Some(value: T)

  datatype Result<+T, +E> = Ok(value: T) | Err(error: E)

  function Listed<T>(x: Option<T>): seq<T> {
    if x.Some? then [x.value] else []
  }

  ghost predicate NoDups<T>(q: seq<T>) {
    forall i, j :: 0 <= i < j < |q| ==> q[i] != q[j]
  }

  lemma {:induction false} SubsetSize<T>(a: set<T>, b: set<T>)
    requires a <= b
    ensures |a| <= |b|
  {
    if a != {} {
      var e :| e in a;
      SubsetSize(a - {e}, b - {e});
    }
  }

  /** `q` with every element of `gone` taken out, the rest in the same order. */
  function Without<T(==,!new)>(q: seq<T>, gone: set<T>): (r: seq<T>)
    ensures |r| <= |q|
    ensures forall x :: x in r <==> x in q && x !in gone
  {
    if q == [] then []
    else if q[0] in gone then Without(q[1..], gone)
    else [q[0]] + Without(q[1..], gone)
  }

  lemma {:induction false} WithoutAbsent<T(!new)>(q: seq<T>, gone: set<T>)
    requires forall x :: x in q ==> x !in gone
    ensures Without(q, gone) == q
  {
    if q != [] {
      WithoutAbsent(q[1..], gone);
    }
  }

  lemma {:induction false} WithoutTwice<T(!new)>(q: seq<T>, a: set<T>, b: set<T>)
    ensures Without(Without(q, a), b) == Without(q, a + b)
  {
    if q != [] {
      WithoutTwice(q[1..], a, b);
      var t := Without(q[1..], a);
      assert q[0] !in a ==> ([q[0]] + t)[1..] == t;
    }
  }

  lemma {:induction false} WithoutNoDups<T(!new)>(q: seq<T>, gone: set<T>)
    requires NoDups(q)
    ensures NoDups(Without(q, gone))
  {
    if q != [] {
      WithoutNoDups(q[1..], gone);
      assert q[0] !in q[1..];
    }
  }

  lemma {:induction false} WithoutConcat<T(!new)>(p: seq<T>, q: seq<T>, gone: set<T>)
    ensures Without(p + q, gone) == Without(p, gone) + Without(q, gone)
  {
    if p == [] {
      assert p + q == q;
    } else {
      assert (p + q)[1..] == p[1..] + q;
      WithoutConcat(p[1..], q, gone);
    }
  }

  /** A repetition-free sequence is no longer than any finite set holding its elements. */
  lemma {:induction false} NoDupsFits<T(!new)>(q: seq<T>, s: set<T>)
    requires NoDups(q)
    requires forall x :: x in q ==> x in s
    ensures |q| <= |s|
  {
    if q != [] {
      assert q[0] !in q[1..];
      NoDupsFits(q[1..], s - {q[0]});
    }
  }

  /** `q` without its element at `i`. */
  function RemoveAt<T>(q: seq<T>, i: nat): seq<T>
    requires i < |q|
  {
    q[..i] + q[i + 1..]
  }

  lemma RemovedAt<T>(q: seq<T>, i: nat, k: nat)
    requires i < |q| && k < |q| - 1
    ensures RemoveAt(q, i)[k] == q[if k < i then k else k + 1]
  {
  }

  lemma NotInFront<T>(a: seq<T>, b: seq<T>, k: nat)
    requires NoDups(a + b) && k < |b|
    ensures b[k] !in a
  {
    forall j | 0 <= j < |a|
      ensures a[j] != b[k]
    {
      assert (a + b)[j] != (a + b)[|a| + k];
    }
  }

  /** One more element leaves a log whose remaining elements are `front + back`. */
  lemma DropOne<T(!new)>(log: seq<T>, gone: set<T>, front: seq<T>, back: seq<T>, x: T)
    requires NoDups(log) && Without(log, gone) == front + back && x in back
    ensures Without(log, gone + {x}) == front + Without(back, {x}) && x in log && x !in front
  {
    var k :| 0 <= k < |back| && back[k] == x;
    WithoutNoDups(log, gone);
    NotInFront(front, back, k);
    assert (front + back)[|front| + k] == x;
    assert x in Without(log, gone);
    WithoutTwice(log, gone, {x});
    WithoutConcat(front, back, {x});
    WithoutAbsent(front, {x});
  }

  /** The same for an element in front. */
  lemma DropFirst<T(!new)>(log: seq<T>, gone: set<T>, front: seq<T>, back: seq<T>, x: T)
    requires NoDups(log) && Without(log, gone) == front + back && x in front
    ensures Without(log, gone + {x}) == Without(front, {x}) + back && x in log && x !in back
  {
    WithoutNoDups(log, gone);
    forall k | 0 <= k < |back|
      ensures back[k] != x
    {
      NotInFront(front, back, k);
    }
    assert x in Without(log, gone);
    WithoutTwice(log, gone, {x});
    WithoutConcat(front, back, {x});
    WithoutAbsent(back, {x});
  }

  lemma SplitAt<T>(q: seq<T>, i: nat)
    requires i < |q|
    ensures q == q[..i] + [q[i]] + q[i + 1..]
  {
  }

  /** Taking one element out of a repetition-free sequence by value or by position agrees. */
  lemma {:induction false} DropAt<T(!new)>(q: seq<T>, i: nat)
    requires NoDups(q) && i < |q|
    ensures Without(q, {q[i]}) == RemoveAt(q, i)
    decreases i
  {
    NowhereElse(q, i);
    if i == 0 {
      WithoutAbsent(q[1..], {q[0]});
      assert RemoveAt(q, 0) == q[1..];
    } else {
      DropAt(q[1..], i - 1);
      assert q[0] in q[..i];
      assert RemoveAt(q, i) == [q[0]] + RemoveAt(q[1..], i - 1);
    }
  }

  lemma NowhereElse<T>(q: seq<T>, i: nat)
    requires NoDups(q) && i < |q|
    ensures q[i] !in q[..i] && q[i] !in q[i + 1..]
  {
    forall k | 0 <= k < |q| && k != i
      ensures q[k] != q[i]
    {
    }
  }
}
