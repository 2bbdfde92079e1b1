/** `DashboardConnectors.execute_actions`: passes over the connectors, the
    owning connector first and then the accessors, flushing each one that
    has work, until a whole pass finds none with work. What a flush does to
    the outstanding work (its completion callbacks may queue new commands on
    any connector) is the caller-supplied `flush`. */
module Dispatch {

  /** The work outstanding at each connector, by position in the connector
      list; a position past the end has none. */
  type Work = seq<nat>

  /** `action_manager.has_work()` for connector `i`. */
  predicate HasWork(w: Work, i: nat) {
    i < |w| && w[i] > 0
  }

  /** Whether some connector among the first `n` has work. */
  predicate AnyWork(w: Work, n: nat) {
    exists i :: 0 <= i < n && HasWork(w, i)
  }

  /** The rest of one pass, from connector `i` on: the work it leaves and
      whether it flushed anything. */
  function PassFrom(flush: (Work, nat) -> Work, n: nat, w: Work, i: nat): (r: (Work, bool))
    decreases n - i
  {
    if i >= n then (w, false)
    else if HasWork(w, i) then (PassFrom(flush, n, flush(w, i), i + 1).0, true)
    else PassFrom(flush, n, w, i + 1)
  }

  /** One pass over the `n` connectors: `had_work` and what is left. */
  function Pass(flush: (Work, nat) -> Work, n: nat, w: Work): (Work, bool) {
    PassFrom(flush, n, w, 0)
  }

  /** The rest of a pass flushes something exactly when some connector from
      `i` on has work when the pass reaches it, which, as nothing is flushed
      before that, is the work it had when the rest of the pass began; a rest
      of a pass that flushes nothing leaves the work as it was. */
  lemma {:induction false} PassFromHadWork(flush: (Work, nat) -> Work, n: nat, w: Work, i: nat)
    ensures PassFrom(flush, n, w, i).1 <==> exists j :: i <= j < n && HasWork(w, j)
    ensures !PassFrom(flush, n, w, i).1 ==> PassFrom(flush, n, w, i).0 == w
    decreases n - i
  {
    if i < n && !HasWork(w, i) {
      PassFromHadWork(flush, n, w, i + 1);
      assert forall j :: i <= j < n && HasWork(w, j) ==> i + 1 <= j;
    }
  }

  /** A pass flushes something exactly when some connector has work at its
      start; a pass that flushes nothing changes nothing. */
  lemma PassHadWork(flush: (Work, nat) -> Work, n: nat, w: Work)
    ensures Pass(flush, n, w).1 <==> AnyWork(w, n)
    ensures !Pass(flush, n, w).1 ==> Pass(flush, n, w).0 == w
  {
    PassFromHadWork(flush, n, w, 0);
  }

  /** The loop with at most `fuel` passes: the work left, and whether the
      loop ended because a pass flushed nothing. */
  function Drain(flush: (Work, nat) -> Work, n: nat, w: Work, fuel: nat): (Work, bool)
    decreases fuel
  {
    if fuel == 0 then (w, false)
    else
      var p := Pass(flush, n, w);
      if !p.1 then (p.0, true) else Drain(flush, n, p.0, fuel - 1)
  }

  /** When the loop ends by itself, no connector has work left. */
  lemma {:induction false} DrainQuiescent(flush: (Work, nat) -> Work, n: nat, w: Work, fuel: nat)
    requires Drain(flush, n, w, fuel).1
    ensures !AnyWork(Drain(flush, n, w, fuel).0, n)
    decreases fuel
  {
    var p := Pass(flush, n, w);
    PassHadWork(flush, n, w);
    if p.1 {
      DrainQuiescent(flush, n, p.0, fuel - 1);
    }
  }

  /** Work that is already drained stays drained: the loop stops after one
      pass that changes nothing. */
  lemma DrainIdle(flush: (Work, nat) -> Work, n: nat, w: Work, fuel: nat)
    requires fuel > 0 && !AnyWork(w, n)
    ensures Drain(flush, n, w, fuel) == (w, true)
  {
    PassHadWork(flush, n, w);
  }

  /** `DashboardConnectors`: the connector list and the work outstanding at each. */
  class DashboardConnectors {
    /** The number of connectors: the owning one and the accessors. */
    const count: nat
    const flush: (Work, nat) -> Work
    var work: Work

    constructor (count: nat, flush: (Work, nat) -> Work, work: Work)
      ensures this.count == count && this.flush == flush && this.work == work
    {
      this.count, this.flush, this.work := count, flush, work;
    }

    /** The body of the `while True` loop: every connector in turn is
        flushed when it has work. */
    method FlushPass() returns (hadWork: bool)
      modifies this`work
      ensures (work, hadWork) == Pass(flush, count, old(work))
    {
      hadWork := false;
      var i := 0;
      while i < count
        invariant 0 <= i <= count
        invariant (PassFrom(flush, count, work, i).0, hadWork || PassFrom(flush, count, work, i).1)
                  == Pass(flush, count, old(work))
        decreases count - i
      {
        if HasWork(work, i) {
          work := flush(work, i);
          hadWork := true;
        }
        i := i + 1;
      }
    }

    /** `execute_actions`, with at most `fuel` passes: `drained` is true when
        the loop ended because a pass found no connector with work, and then
        no connector has work left. */
    method ExecuteActions(fuel: nat) returns (drained: bool)
      modifies this`work
      ensures (work, drained) == Drain(flush, count, old(work), fuel)
      ensures drained ==> !AnyWork(work, count)
    {
      var passes := 0;
      drained := false;
      while passes < fuel
        invariant 0 <= passes <= fuel
        invariant Drain(flush, count, work, fuel - passes) == Drain(flush, count, old(work), fuel)
        decreases fuel - passes
      {
        var hadWork := FlushPass();
        passes := passes + 1;
        if !hadWork {
          drained := true;
          break;
        }
      }
      if drained {
        assert (work, true) == Drain(flush, count, old(work), fuel);
        DrainQuiescent(flush, count, old(work), fuel);
      }
    }
  }
}
