/** The deadlines of the runtime status report: a period after the deadline met, or, when that was
    met a whole period late or more, a period after the time it was met at. */
module StatusSchedule {
  import opened Rings

  /** The next deadline when one is due at `now`. */
  function NextDue(due: nat, now: nat, period: nat): nat {
    if due != 0 && now - due < period then due + period else now + period
  }

  class StatusService {
    const period: nat
    var due: nat

    constructor (period: nat)
      ensures this.period == period && due == 0
    {
      this.period := period;
      due := 0;
    }

    /** `status_service_at`: whether a report is due, and the deadline afterwards. */
    method ServiceAt(now: nat) returns (fires: bool)
      modifies this`due
      ensures fires == (period != 0 && now >= old(due))
      ensures due == if fires then NextDue(old(due), now, period) else old(due)
    {
      if period == 0 || now < due {
        return false;
      }
      due := if due != 0 && now - due < period then due + period else now + period;
      return true;
    }
  }

  /** A report: the deadline it was due at, when it happened, the deadline it left. */
  datatype Firing = Firing(due: nat, at: nat, next: nat)

  /** The reports of a run of service calls at these clock readings, the first deadline being `due`. */
  function Firings(due: nat, clock: seq<nat>, period: nat): seq<Firing>
    decreases |clock|
  {
    if clock == [] then []
    else if period == 0 || clock[0] < due then Firings(due, clock[1..], period)
    else
      var next := NextDue(due, clock[0], period);
      [Firing(due, clock[0], next)] + Firings(next, clock[1..], period)
  }

  /** The `i`-th reading is the first that has come to the deadline. */
  predicate FirstAt(clock: seq<nat>, due: nat, i: nat) {
    i < |clock| && clock[i] >= due && forall k :: 0 <= k < i ==> clock[k] < due
  }

  /** The first report is made at the first reading that has come to the deadline, if there is one.
      Without a deadline yet (zero) that is the first reading, and the next report is then due a
      period after it. */
  lemma {:induction false} FirstReport(due: nat, clock: seq<nat>, period: nat)
    requires period > 0
    ensures var f := Firings(due, clock, period);
      && (f == [] <==> forall i :: 0 <= i < |clock| ==> clock[i] < due)
      && (f != [] ==> exists i: nat :: FirstAt(clock, due, i) && f[0].at == clock[i])
      && (due == 0 && clock != [] ==> f != [] && f[0].at == clock[0] && f[0].next == clock[0] + period)
    decreases |clock|
  {
    if clock != [] {
      if clock[0] < due {
        var f := Firings(due, clock[1..], period);
        FirstReport(due, clock[1..], period);
        assert forall i :: 0 <= i < |clock[1..]| ==> clock[1..][i] == clock[i + 1];
        assert (forall i :: 0 <= i < |clock[1..]| ==> clock[1..][i] < due) ==> forall i :: 1 <= i < |clock| ==>
            clock[i] == clock[1..][i - 1];
        if f != [] {
          var i: nat :| FirstAt(clock[1..], due, i) && f[0].at == clock[1..][i];
          assert forall k :: 1 <= k < i + 1 ==> clock[k] == clock[1..][k - 1];
          assert FirstAt(clock, due, i + 1);
        }
      } else {
        assert FirstAt(clock, due, 0);
      }
    }
  }

  /** Each report leaves a deadline after its own time and at most a period after it, and at least a
      period after the deadline met; the next report is due at exactly that deadline. */
  lemma {:induction false} DeadlinesAdvance(due: nat, clock: seq<nat>, period: nat)
    requires period > 0
    ensures var f := Firings(due, clock, period);
      && (f != [] ==> f[0].due == due)
      && (forall i :: 0 <= i < |f| ==>
            && f[i].due <= f[i].at < f[i].next <= f[i].at + period && f[i].next >= f[i].due + period
            && (f[i].next == f[i].due + period || f[i].next == f[i].at + period))
      && (forall i :: 0 <= i < |f| - 1 ==> f[i + 1].due == f[i].next)
    decreases |clock|
  {
    if clock != [] {
      if clock[0] < due {
        DeadlinesAdvance(due, clock[1..], period);
      } else {
        DeadlinesAdvance(NextDue(due, clock[0], period), clock[1..], period);
      }
    }
  }

  lemma {:induction false} DeadlinesApart(due: nat, clock: seq<nat>, period: nat, i: nat, j: nat)
    requires period > 0 && i < j < |Firings(due, clock, period)|
    ensures var f := Firings(due, clock, period);
      f[j].due >= f[i].next + (j - i - 1) * period
    decreases j - i
  {
    DeadlinesAdvance(due, clock, period);
    if i < j - 1 {
      DeadlinesApart(due, clock, period, i, j - 1);
      assert (j - i - 1) * period == (j - i - 2) * period + period;
    }
  }

  /** Successive deadlines are at least one period apart, and k reports never fall into a time
      window [a, b] unless (k - 2) periods are shorter than it: fewer than (b - a)/period + 2. */
  lemma FewInWindow(due: nat, clock: seq<nat>, period: nat, i: nat, j: nat, a: nat, b: nat)
    requires period > 0 && i < j < |Firings(due, clock, period)|
    requires a <= Firings(due, clock, period)[i].at && Firings(due, clock, period)[j].at <= b
    ensures var f, k := Firings(due, clock, period), j - i + 1;
      && f[j].due - f[i].due >= (j - i) * period
      && (k - 2) * period < b - a
  {
    DeadlinesAdvance(due, clock, period);
    DeadlinesApart(due, clock, period, i, j);
    assert (j - i) * period == (j - i - 1) * period + period;
  }

  /** No drift: once a deadline is set and no service call comes a whole period late, the i-th
      deadline is exactly i periods after the first. */
  lemma {:induction false} NoDrift(due: nat, clock: seq<nat>, period: nat, i: nat)
    requires period > 0 && due != 0 && i < |Firings(due, clock, period)|
    requires forall k :: 0 <= k < i ==>
      Firings(due, clock, period)[k].at - Firings(due, clock, period)[k].due < period
    ensures Firings(due, clock, period)[i].due == due + i * period
    decreases |clock|
  {
    if clock[0] < due {
      NoDrift(due, clock[1..], period, i);
    } else if i > 0 {
      var f, next := Firings(due, clock, period), NextDue(due, clock[0], period);
      var g := Firings(next, clock[1..], period);
      assert f == [Firing(due, clock[0], next)] + g;
      assert f[0].at - f[0].due < period;
      forall k | 0 <= k < i - 1
        ensures g[k].at - g[k].due < period
      {
        assert f[k + 1] == g[k];
      }
      NoDrift(next, clock[1..], period, i - 1);
      assert i * period == (i - 1) * period + period;
    }
  }

  // ---------------------------------------------------------------------------
  // On the grid or off it
  // ---------------------------------------------------------------------------

  /** The report came less than a period late, or a whole number of periods late. */
  predicate Punctual(f: Firing, period: nat)
    requires period > 0 && f.due <= f.at
  {
    f.at - f.due < period || (f.at - f.due) % period == 0
  }

  /** Two times lie on one grid exactly when they are a whole number of periods apart. */
  lemma SameGrid(a: nat, b: nat, period: nat)
    requires period > 0 && a <= b
    ensures b % period == a % period <==> (b - a) % period == 0
  {
    var q, r, k, e := a / period, a % period, (b - a) / period, (b - a) % period;
    assert a == q * period + r && b - a == k * period + e;
    assert b == (q + k) * period + (r + e) by {
      assert (q + k) * period == q * period + k * period;
    }
    if r + e < period {
      DivUnique(b, period, q + k, r + e);
    } else {
      assert (q + k + 1) * period == (q + k) * period + period;
      DivUnique(b, period, q + k + 1, r + e - period);
    }
  }

  /** The next deadline is on the grid of the one met if, and only if, the report was punctual. */
  lemma StallKeepsGrid(due: nat, now: nat, period: nat)
    requires period > 0 && due != 0 && due <= now
    ensures NextDue(due, now, period) % period == due % period <==>
      Punctual(Firing(due, now, NextDue(due, now, period)), period)
  {
    SameGrid(due, NextDue(due, now, period), period);
    if now - due < period {
      DivUnique(period, period, 1, 0);
    } else {
      var k, e := (now - due) / period, (now - due) % period;
      assert now - due + period == (k + 1) * period + e by {
        assert (k + 1) * period == k * period + period;
      }
      DivUnique(now - due + period, period, k + 1, e);
    }
  }

  /** In every run of service calls: all deadlines stay on the grid of the first if, and only if,
      every report was less than a period late or a whole number of periods late. */
  lemma {:induction false} OnGridExactly(due: nat, clock: seq<nat>, period: nat)
    requires period > 0 && due != 0
    ensures var f := Firings(due, clock, period);
      && (forall i :: 0 <= i < |f| ==> f[i].due <= f[i].at)
      && ((forall i :: 0 <= i < |f| ==> f[i].next % period == due % period)
          <==> (forall i :: 0 <= i < |f| ==> Punctual(f[i], period)))
    decreases |clock|
  {
    DeadlinesAdvance(due, clock, period);
    if clock != [] {
      if clock[0] < due {
        OnGridExactly(due, clock[1..], period);
      } else {
        var next := NextDue(due, clock[0], period);
        StallKeepsGrid(due, clock[0], period);
        OnGridExactly(next, clock[1..], period);
        FirstAndRest(due, Firing(due, clock[0], next), Firings(next, clock[1..], period), period);
      }
    }
  }

  lemma FirstAndRest(due: nat, first: Firing, rest: seq<Firing>, period: nat)
    requires period > 0 && first.due <= first.at && forall i :: 0 <= i < |rest| ==> rest[i].due <= rest[i].at
    requires first.next % period == due % period <==> Punctual(first, period)
    requires (forall i :: 0 <= i < |rest| ==> rest[i].next % period == first.next % period)
        <==> (forall i :: 0 <= i < |rest| ==> Punctual(rest[i], period))
    ensures var f := [first] + rest;
      (forall i :: 0 <= i < |f| ==> f[i].next % period == due % period)
      <==> (forall i :: 0 <= i < |f| ==> Punctual(f[i], period))
  {
    var f := [first] + rest;
    assert f[0] == first && forall i :: 0 <= i < |rest| ==> f[i + 1] == rest[i];
    assert forall i :: 0 < i < |f| ==> f[i] == rest[i - 1];
  }

  /** One report half a period late on top of a whole one: the next deadline is 3500, not 3000, and
      later punctual reports stay off the grid. */
  lemma StallLeavesGrid()
    ensures Firings(1000, [2500, 3500], 1000) == [Firing(1000, 2500, 3500), Firing(3500, 3500, 4500)]
    ensures 3500 % 1000 != 1000 % 1000 && 4500 % 1000 != 1000 % 1000
  {
    assert Firings(4500, [], 1000) == [];
    assert [2500, 3500][1..] == [3500] && [3500][1..] == [];
    assert Firings(3500, [3500], 1000) == [Firing(3500, 3500, 4500)] + [];
  }
}
