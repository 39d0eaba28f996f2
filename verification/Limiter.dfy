/** The concurrency limiter, by its two synchronous steps. */
module Limiter {
  class ConcurrencyLimiter {
    const limit: int
    var running: nat
    var waiting: seq<nat>
    // tasks are numbered as they are handed in
    var submitted: nat
    // those given a slot so far, by their order; of those, the ones not yet done
    ghost var started: nat
    ghost var active: set<nat>

    /** Slots went to the first tasks handed in, the others wait in their order; never more
        than the limit are out, and nobody waits while one is free. */
    ghost predicate Valid()
      reads this
    {
      && started <= submitted
      && |waiting| == submitted - started
      && (forall i :: 0 <= i < |waiting| ==> waiting[i] == started + i)
      && (forall t :: t in active ==> t < started)
      && running == |active|
      && (running > 0 ==> running <= limit)
      && (waiting != [] ==> running >= limit)
    }

    constructor (limit: int)
      ensures Valid() && this.limit == limit && submitted == 0
    {
      this.limit, running, waiting := limit, 0, [];
      submitted, started, active := 0, 0, {};
    }

    /** A task is handed in: it takes a slot now, or waits behind those already waiting. */
    method Acquire() returns (task: nat, runs: bool)
      requires Valid()
      modifies this
      ensures Valid() && task == old(submitted) && submitted == task + 1
      ensures runs <==> old(running) < limit
      ensures runs ==> old(waiting) == waiting == [] && active == old(active) + {task}
      ensures !runs ==> waiting == old(waiting) + [task] && active == old(active)
    {
      task := submitted;
      submitted := submitted + 1;
      if running < limit {
        running := running + 1;
        started := started + 1;
        active := active + {task};
        return task, true;
      }
      waiting := waiting + [task];
      runs := false;
    }

    /** A running task settled: its slot goes straight to the first one waiting. */
    method Release(ghost task: nat)
      requires Valid() && task in active
      modifies this
      ensures Valid() && submitted == old(submitted)
      ensures old(waiting) == [] ==> waiting == [] && active == old(active) - {task} && running == old(running) - 1
      ensures old(waiting) != [] ==>
        && waiting == old(waiting)[1..] && running == old(running)
        && active == old(active) - {task} + {old(waiting)[0]}
        && forall t :: t in waiting || t == submitted ==> old(waiting)[0] < t
    {
      active := active - {task};
      running := running - 1;
      if waiting != [] {
        active := active + {waiting[0]};
        started := started + 1;
        waiting := waiting[1..];
        running := running + 1;
      }
    }
  }
}
