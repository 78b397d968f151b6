/** Ring buffers indexed by free-running unsigned counters: counters run modulo `m`, the
    buffer length divides `m`, and masking a counter is its remainder by the length. */
module Rings {

  /** Unsigned subtraction of counters. */
  function Diff(a: nat, b: nat, m: nat): (d: nat)
    requires m > 0
    ensures d < m
  {
    (a - b) % m
  }

  /** The counter after `a`. */
  function Succ(a: nat, m: nat): (r: nat)
    requires m > 0
    ensures r < m
  {
    (a + 1) % m
  }

  /** The `n` items stored from counter value `first` on. */
  function Window<T>(buf: seq<T>, first: nat, n: nat): (w: seq<T>)
    requires |buf| > 0
    ensures |w| == n && forall i :: 0 <= i < n ==> w[i] == buf[(first + i) % |buf|]
  {
    seq(n, i requires 0 <= i => buf[(first + i) % |buf|])
  }

  lemma MulMono(a: int, b: int, d: nat)
    requires a <= b
    ensures a * d <= b * d
  {
  }

  lemma DivUnique(x: int, d: int, q: int, r: int)
    requires d > 0 && x == q * d + r && 0 <= r < d
    ensures x % d == r && x / d == q
  {
    var q', r' := x / d, x % d;
    assert x == q' * d + r';
    if q' > q {
      MulMono(q + 1, q', d);
    } else if q' < q {
      MulMono(q' + 1, q, d);
    }
  }

  /** Masking after wrapping is masking. */
  lemma ModMod(x: int, m: nat, c: nat)
    requires c > 0 && m > 0 && m % c == 0
    ensures (x % m) % c == x % c
  {
    var k := m / c;
    assert m == k * c;
    var q := x / m;
    var y := x % m;
    assert x == q * m + y;
    assert y == (y / c) * c + y % c;
    assert q * m == (q * k) * c;
    assert (q * k) * c + (y / c) * c == (q * k + y / c) * c;
    DivUnique(x, c, q * k + y / c, y % c);
  }

  /** Fewer than `c` consecutive counters use different slots. */
  lemma ModApart(a: nat, i: nat, j: nat, c: nat)
    requires c > 0 && i < j < i + c
    ensures (a + i) % c != (a + j) % c
  {
    var p, r, e := (a + i) / c, (a + i) % c, j - i;
    assert a + i == p * c + r;
    if r + e < c {
      DivUnique(a + j, c, p, r + e);
    } else {
      assert (p + 1) * c == p * c + c;
      DivUnique(a + j, c, p + 1, r + e - c);
    }
  }

  /** Storing behind the window extends it. */
  lemma WindowStore<T>(buf: seq<T>, first: nat, n: nat, at: nat, x: T)
    requires n < |buf| && at == (first + n) % |buf|
    ensures Window(buf[at := x], first, n + 1) == Window(buf, first, n) + [x]
  {
    var w := Window(buf[at := x], first, n + 1);
    forall i | 0 <= i < n
      ensures w[i] == Window(buf, first, n)[i]
    {
      ModApart(first, i, n, |buf|);
    }
  }

  /** Advancing the first counter, with wrap-around, drops the first item. */
  lemma WindowDrop<T>(buf: seq<T>, first: nat, n: nat, m: nat)
    requires |buf| > 0 && 0 < n && m > 0 && m % |buf| == 0
    ensures Window(buf, Succ(first, m), n - 1) == Window(buf, first, n)[1..]
  {
    var l, r := Window(buf, Succ(first, m), n - 1), Window(buf, first, n)[1..];
    forall i | 0 <= i < n - 1
      ensures l[i] == r[i]
    {
      SuccSlot(first, i, m, |buf|);
      assert r[i] == Window(buf, first, n)[i + 1];
    }
  }

  lemma SuccSlot(first: nat, i: nat, m: nat, c: nat)
    requires c > 0 && m > 0 && m % c == 0
    ensures (Succ(first, m) + i) % c == (first + (i + 1)) % c
  {
    ModMod(first + 1, m, c);
    AddMod((first + 1) % m, first + 1, i, c);
    assert first + (i + 1) == first + 1 + i;
  }

  lemma AddMod(a: nat, b: nat, i: nat, c: nat)
    requires c > 0 && a % c == b % c
    ensures (a + i) % c == (b + i) % c
  {
    var r := (a % c + i) % c;
    var k := (a % c + i) / c;
    assert a + i == (a / c + k) * c + r by {
      assert a == (a / c) * c + a % c;
      assert (a / c) * c + k * c == (a / c + k) * c;
    }
    assert b + i == (b / c + k) * c + r by {
      assert b == (b / c) * c + b % c;
      assert (b / c) * c + k * c == (b / c + k) * c;
    }
    DivUnique(a + i, c, a / c + k, r);
    DivUnique(b + i, c, b / c + k, r);
  }

  /** How the distance between two counters changes when one of them advances. */
  lemma DiffSucc(a: nat, b: nat, m: nat)
    requires a < m && b < m
    ensures Diff(a, b, m) < m - 1 ==> Diff(Succ(a, m), b, m) == Diff(a, b, m) + 1
    ensures Diff(a, b, m) > 0 ==> Diff(a, Succ(b, m), m) == Diff(a, b, m) - 1
    ensures Diff(a, b, m) == 0 <==> a == b
  {
    var d := if a >= b then a - b else a - b + m;
    DivUnique(a - b, m, if a >= b then 0 else -1, d);
    var a' := if a + 1 < m then a + 1 else 0;
    DivUnique(a + 1, m, if a + 1 < m then 0 else 1, a');
    var b' := if b + 1 < m then b + 1 else 0;
    DivUnique(b + 1, m, if b + 1 < m then 0 else 1, b');
    if d < m - 1 {
      DivUnique(a' - b, m, if a' >= b then 0 else -1, d + 1);
    }
    if d > 0 {
      DivUnique(a - b', m, if a >= b' then 0 else -1, d - 1);
    }
  }

  /** The slot of a counter at distance `d` above `b`. */
  lemma DiffSlot(a: nat, b: nat, m: nat, c: nat)
    requires a < m && b < m && c > 0 && m % c == 0
    ensures a % c == (b + Diff(a, b, m)) % c
  {
    var d := if a >= b then a - b else a - b + m;
    DivUnique(a - b, m, if a >= b then 0 else -1, d);
    if a < b {
      DivUnique(a + m, m, 1, a);
      ModMod(a + m, m, c);
    }
  }
}
