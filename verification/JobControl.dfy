/**
 * `spatial-worker/job_control.py` as it runs: one dictionary of active jobs, one
 * directory of markers, and a lock. Each method is one section under the lock.
 * Its contract is the answer the caller gets and the step of `JobSystem` it takes.
 */
module JobControl {
  import opened JobSystem
  import opened Wrappers

  datatype Admission = Admitted | AlreadyCancelled | AlreadyRunning

  /** The processes among `processes` that work for one job. */
  function ProcessesOf(processes: set<(JobId, Process)>, id: JobId): set<Process> {
    set p | p in processes && p.0 == id :: p.1
  }

  class Control {
    const instance: Instance
    var active: map<JobId, Item>
    var markers: set<JobId>
    var waiting: set<(JobId, Option<nat>)>   // cancel calls that have left their lock section
    var processes: set<(JobId, Process)>     // live children
    var counter: nat

    /**
     * A start of the worker over what the last one left: its markers, and any child
     * process that outlived it. On each job it is `WorkerRestart` of what was there.
     */
    constructor (instance: Instance, markers: set<JobId>, orphans: set<(JobId, Process)>, counter: nat)
      ensures this.instance == instance
      ensures forall id, k: Worker ::
        k.tombstone == (id in markers) && k.alive == ProcessesOf(orphans, id) && k.next == counter ==>
          View(id) == WorkerRestart(k)
    {
      this.instance, this.counter := instance, counter;
      this.markers, processes := markers, orphans;
      active, waiting := map[], {};
      new;
      assert forall id :: View(id).alive == ProcessesOf(orphans, id);
      assert forall id :: View(id).waits == {};
    }

    /** What the protocol sees of one job. */
    ghost function View(id: JobId): Worker
      reads this
    {
      Worker(id in markers,
             if id in active then Some(active[id]) else None,
             set w | w in waiting && w.0 == id :: w.1,
             ProcessesOf(processes, id),
             counter)
    }

    /** Every other job keeps its view, up to the shared counter. */
    twostate predicate OthersKept(id: JobId)
      reads this
    {
      forall other :: other != id ==> View(other) == old(View(other)).(next := counter)
    }

    method EnterJob(id: JobId) returns (r: Admission)
      modifies this
      ensures r == Admitted <==> WorkerEnabled(old(View(id)), Enter)
      ensures r == AlreadyCancelled <==> id in old(markers)
      ensures r == Admitted ==> View(id) == WorkerApply(instance, old(View(id)), Enter) && OthersKept(id)
      ensures r != Admitted ==> View(id) == old(View(id)) && OthersKept(id)
    {
      if id in markers { return AlreadyCancelled; }
      if id in active { return AlreadyRunning; }
      active := active[id := Item(counter, None)];
      counter := counter + 1;
      return Admitted;
    }

    /** The first section of `run`; the caller is inside `job`, so its entry is present and idle. */
    method StartProcess(id: JobId) returns (ok: bool)
      requires id in active && active[id].process.None?
      modifies this
      ensures ok <==> WorkerEnabled(old(View(id)), Spawn)
      ensures ok ==> View(id) == WorkerApply(instance, old(View(id)), Spawn) && OthersKept(id)
      ensures !ok ==> View(id) == old(View(id)) && OthersKept(id)
    {
      if id in markers { return false; }
      var p := Process(instance, counter);
      active := active[id := active[id].(process := Some(p))];
      processes := processes + {(id, p)};
      counter := counter + 1;
      assert View(id).alive == old(View(id).alive) + {p};
      return true;
    }

    /** The `finally` section of `run`, reached once the process has been waited for. */
    method FinishProcess(id: JobId)
      requires id in active && active[id].process.Some? && (id, active[id].process.value) !in processes
      modifies this
      ensures old(WorkerEnabled(View(id), Reap))
      ensures View(id) == WorkerApply(instance, old(View(id)), Reap) && OthersKept(id)
    {
      active := active[id := active[id].(process := None)];
    }

    /** The `finally` section of `job`. */
    method LeaveJob(id: JobId)
      requires id in active && active[id].process.None?
      modifies this
      ensures View(id) == WorkerApply(instance, old(View(id)), Leave) && OthersKept(id)
    {
      active := active - {id};
    }

    /** The locked section of `cancel`: the marker is durable before the item is read. */
    method BeginCancel(id: JobId) returns (item: Option<nat>)
      modifies this
      ensures View(id) == WorkerApply(instance, old(View(id)), Bury) && OthersKept(id)
      ensures item in View(id).waits && id in markers
    {
      markers := markers + {id};
      item := if id in active then Some(active[id].serial) else None;
      waiting := waiting + {(id, item)};
      assert View(id).waits == old(View(id).waits) + {item};
    }

    /** The end of `cancel`: a receipt exactly when the item it saw is done, otherwise the timeout error. */
    method EndCancel(id: JobId, item: Option<nat>) returns (quiescent: bool)
      requires (id, item) in waiting
      modifies this
      ensures quiescent <==> WorkerEnabled(old(View(id)), Acknowledge(item))
      ensures View(id) == WorkerApply(instance, old(View(id)), if quiescent then Acknowledge(item) else GiveUp(item))
      ensures OthersKept(id)
    {
      quiescent := item.None? || id !in active || active[id].serial != item.value;
      waiting := waiting - {(id, item)};
      assert item in old(View(id).waits);
      assert View(id).waits == old(View(id).waits) - {item};
    }
  }
}
