// kernel/proc/scheduler.c: the search for the next process to run.
module Scheduler {
  import opened Spaces
  import opened Sched

  /** The search after `i` steps from `start`: it is at `rr`, with `left` slots to go, and leads to `next`. */
  predicate Searching(state: seq<State>, start: nat, i: nat, rr: nat, left: nat, next: int) {
    && |state| == 10 && rr < 10 && rr == (if start + i < 10 then start + i else start + i - 10)
    && i + left == 10 && next == Pick(state, rr, left)
  }

  lemma SearchStep(state: seq<State>, start: nat, i: nat, rr: nat, left: nat, next: int)
    requires start < 10 && i < 10 && Searching(state, start, i, rr, left, next)
    ensures left > 0 && if state[Next(rr)] == READY then next == Next(rr)
                        else Searching(state, start, i + 1, Next(rr), left - 1, next)
  {
    PickStep(state, rr, left);
  }

  lemma SearchOver(state: seq<State>, start: nat, rr: nat, left: nat, next: int)
    requires start < 10 && Searching(state, start, 10, rr, left, next)
    ensures next == -1 && rr == start
  {
  }

  /** Advances the round-robin index to the next ready slot; after a full turn it is back where it was. */
  method FindReady(procs: seq<Process>, start: nat, ghost state: seq<State>) returns (found: bool, rr: nat)
    requires |procs| == |state| == 10 && start < 10
    requires forall t: nat {:trigger procs[t]} :: t < 10 ==> procs[t].state == state[t]
    ensures var next := Pick(state, start, |state|); found == (next >= 0) && rr == if found then next else start
  {
    rr := start;
    ghost var next, left: nat := Pick(state, start, |state|), |state|;
    var i := 0;
    while i < 10
      invariant 0 <= i <= 10 && Searching(state, start, i, rr, left, next)
    {
      SearchStep(state, start, i, rr, left, next);
      left := left - 1;
      rr := rr + 1;
      if rr == 10 {
        rr := 0;
      }
      if procs[rr].state == READY {
        return true, rr;
      }
      i := i + 1;
    }
    SearchOver(state, start, rr, left, next);
    found := false;
  }
}
