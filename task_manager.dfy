/**
 * The registry of task_manager.py: background tasks by name and semaphores by name, and the
 * SIGINT handler that removes, and so cancels, every registered task.
 *
 * Tasks are modelled as objects with a `done` flag and a cancellation request; the registry
 * holds them by strong reference (no garbage collection) and acts sequentially.
 */
module TaskManager {
  import opened Wrappers
  import opened Collections

  /** An `asyncio.Task`: whether it has finished, and whether `cancel()` was called on it while running. */
  class Task {
    var done: bool
    var cancelRequested: bool

    constructor(done: bool)
      ensures this.done == done && !cancelRequested
    {
      this.done := done;
      cancelRequested := false;
    }

    /** `task.cancel()` on a task that has not finished. */
    method Cancel()
      requires !done
      modifies this
      ensures cancelRequested && !done
    {
      cancelRequested := true;
    }
  }

  /** An `asyncio.Semaphore(limit)`. */
  class Semaphore {
    const limit: nat

    constructor(limit: nat)
      ensures this.limit == limit
    {
      this.limit := limit;
    }
  }

  /** `[n for n in names if n != name]`: the key order once `name` is deleted. */
  function Without(names: seq<string>, name: string): seq<string> {
    Filter(names, n => n != name)
  }

  /** Deleting a key from a duplicate-free key order removes exactly that key and keeps the others in order. */
  lemma WithoutSpec(names: seq<string>, name: string)
    requires Distinct(names)
    ensures Distinct(Without(names, name))
    ensures Elements(Without(names, name)) == Elements(names) - {name}
    ensures name !in names ==> Without(names, name) == names
  {
    FilterSpec(names, n => n != name);
    FilterDistinct(names, n => n != name);
    if name !in names {
      FilterAll(names, n => n != name);
    }
  }

  /** A filter that every element passes changes nothing. */
  lemma {:induction false} FilterAll(s: seq<string>, keep: string -> bool)
    requires forall x :: x in s ==> keep(x)
    ensures Filter(s, keep) == s
  {
    if |s| > 0 {
      FilterAll(s[..|s| - 1], keep);
      assert s[..|s| - 1] + [s[|s| - 1]] == s;
    }
  }

  /** `TaskManager`: `_tasks` with its key order (a dict keeps insertion order) and `_semaphores`. */
  class Registry {
    var tasks: map<string, Task>
    var order: seq<string>
    var semaphores: map<string, Semaphore>

    ghost predicate Valid()
      reads this
    {
      Distinct(order) && Elements(order) == tasks.Keys
    }

    constructor()
      ensures Valid() && tasks == map[] && order == [] && semaphores == map[]
    {
      tasks := map[];
      order := [];
      semaphores := map[];
    }

    /** `add_task`: registers or replaces a task under `name`; a new name goes last in the order. */
    method AddTask(name: string, task: Task)
      requires Valid()
      modifies this
      ensures Valid()
      ensures tasks == old(tasks)[name := task]
      ensures order == if name in old(tasks) then old(order) else old(order) + [name]
      ensures semaphores == old(semaphores)
    {
      if name !in tasks {
        order := order + [name];
      }
      tasks := tasks[name := task];
    }

    /** `get_task`: the registered task object for `name`, or `None`. */
    method GetTask(name: string) returns (r: Option<Task>)
      ensures name in tasks <==> r.Some?
      ensures name in tasks ==> r.value == tasks[name]
    {
      r := if name in tasks then Some(tasks[name]) else None;
    }

    /**
     * `remove_task`: a registered task still running is cancelled and the entry deleted; an
     * unknown name changes nothing. No other entry and no other task changes.
     */
    method RemoveTask(name: string)
      requires Valid()
      modifies this, if name in tasks then {tasks[name]} else {}
      ensures Valid()
      ensures tasks == old(tasks) - {name}
      ensures order == Without(old(order), name)
      ensures name !in old(tasks) ==> order == old(order)
      ensures semaphores == old(semaphores)
      ensures name in old(tasks) ==>
        var t := old(tasks)[name];
        t.done == old(t.done) && t.cancelRequested == (old(t.cancelRequested) || !old(t.done))
    {
      WithoutSpec(order, name);
      if name in tasks {
        var task := tasks[name];
        if !task.done {
          task.Cancel();
        }
        tasks := tasks - {name};
        order := Without(order, name);
      }
    }

    /**
     * `get_semaphore`: the semaphore registered under `name`, created with `limit` on the
     * first request only; later limits are ignored. A negative limit for a new name raises
     * `ValueError` in `asyncio.Semaphore` and registers nothing.
     */
    method GetSemaphore(name: string, limit: int) returns (r: Option<Semaphore>)
      modifies this
      ensures tasks == old(tasks) && order == old(order)
      ensures name in old(semaphores) ==> r == Some(old(semaphores)[name]) && semaphores == old(semaphores)
      ensures name !in old(semaphores) && limit < 0 ==> r == None && semaphores == old(semaphores)
      ensures name !in old(semaphores) && limit >= 0 ==>
        r.Some? && fresh(r.value) && r.value.limit == limit && semaphores == old(semaphores)[name := r.value]
    {
      if name !in semaphores {
        if limit < 0 {
          return None;
        }
        var s := new Semaphore(limit);
        semaphores := semaphores[name := s];
      }
      r := Some(semaphores[name]);
    }
  }

  const SIGINT := 2
  const SIGTERM := 15

  /**
   * The signal handler registered for SIGINT and SIGTERM: on SIGINT every task is removed in
   * key order (a running one is cancelled) before the process exits; on SIGTERM it does nothing.
   * A task that had already finished keeps its cancellation flag.
   */
  method HandleSignal(registry: Registry, sig: int)
    requires registry.Valid()
    modifies registry, registry.tasks.Values
    ensures registry.Valid()
    ensures registry.semaphores == old(registry.semaphores)
    ensures sig != SIGINT ==> registry.tasks == old(registry.tasks) && registry.order == old(registry.order)
    ensures sig == SIGINT ==> registry.tasks == map[] && registry.order == []
    ensures sig == SIGINT ==> forall name :: name in old(registry.tasks) ==>
      var t := old(registry.tasks)[name];
      t.done == old(t.done) && t.cancelRequested == (old(t.cancelRequested) || !old(t.done))
  {
    if sig == SIGINT {
      var names := registry.order;
      ghost var tasks0 := registry.tasks;
      var i := 0;
      while i < |names|
        invariant 0 <= i <= |names|
        invariant registry.Valid()
        invariant registry.semaphores == old(registry.semaphores)
        invariant registry.tasks == tasks0 - Elements(names[..i])
        invariant registry.order == names[i..]
        invariant forall t :: t in tasks0.Values ==> t.done == old(t.done)
        invariant forall t :: t in tasks0.Values ==>
          t.cancelRequested == (old(t.cancelRequested) || (!old(t.done) && t in Removed(tasks0, names, i)))
      {
        RemoveStep(registry, names, i, tasks0);
        RemovedSnoc(tasks0, names, i);
        i := i + 1;
      }
      assert Elements(names[..i]) == tasks0.Keys;
      RemovedAll(tasks0, names);
    }
  }

  /**
   * One turn of the cleanup loop: removes `names[i]`, the first name still in the order. Only
   * that name's task can change, and it is cancelled exactly when it is still running.
   */
  method RemoveStep(registry: Registry, names: seq<string>, i: nat, ghost tasks0: map<string, Task>)
    requires i < |names| && Distinct(names) && Elements(names) == tasks0.Keys
    requires registry.Valid() && registry.order == names[i..]
    requires registry.tasks == tasks0 - Elements(names[..i])
    modifies registry, registry.tasks.Values
    ensures registry.Valid() && registry.order == names[i + 1..]
    ensures registry.tasks == tasks0 - Elements(names[..i + 1])
    ensures registry.semaphores == old(registry.semaphores)
    ensures forall t :: t in tasks0.Values ==>
      t.done == old(t.done) &&
      t.cancelRequested == (old(t.cancelRequested) || (t == tasks0[names[i]] && !old(t.done)))
  {
    var name := names[i];
    WithoutHead(names, i);
    RemovedPrefix(names, i, tasks0);
    assert name in registry.tasks by {
      assert names[i] in names[i..];
    }
    registry.RemoveTask(name);
  }

  /** The task objects registered under the first `i` names: those the cleanup has removed so far. */
  ghost function Removed(tasks0: map<string, Task>, names: seq<string>, i: nat): set<Task>
    requires i <= |names| && Elements(names) == tasks0.Keys
  {
    set j | 0 <= j < i :: tasks0[names[j]]
  }

  /** One more name removed adds its task to the removed ones. */
  lemma RemovedSnoc(tasks0: map<string, Task>, names: seq<string>, i: nat)
    requires i < |names| && Elements(names) == tasks0.Keys
    ensures Removed(tasks0, names, i + 1) == Removed(tasks0, names, i) + {tasks0[names[i]]}
  {
    assert names[i] in names;
  }

  /** Once every name is removed, every registered task has been. */
  lemma RemovedAll(tasks0: map<string, Task>, names: seq<string>)
    requires Elements(names) == tasks0.Keys
    ensures Removed(tasks0, names, |names|) == tasks0.Values
  {
    forall t | t in tasks0.Values
      ensures t in Removed(tasks0, names, |names|)
    {
      var k :| k in tasks0 && tasks0[k] == t;
      assert k in Elements(names);
      var j :| 0 <= j < |names| && names[j] == k;
    }
  }

  /** Deleting the first name of a duplicate-free suffix leaves the rest of it. */
  lemma WithoutHead(names: seq<string>, i: nat)
    requires i < |names| && Distinct(names)
    ensures Without(names[i..], names[i]) == names[i + 1..]
  {
    var name := names[i];
    assert names[i..] == [name] + names[i + 1..];
    FilterAll(names[i + 1..], n => n != name);
    FilterAppend([name], names[i + 1..], n => n != name);
    assert Filter([name], n => n != name) == [];
  }

  /** The tasks left after the first `i + 1` names are those left after `i`, less the next. */
  lemma RemovedPrefix(names: seq<string>, i: nat, tasks0: map<string, Task>)
    requires i < |names|
    ensures tasks0 - Elements(names[..i + 1]) == (tasks0 - Elements(names[..i])) - {names[i]}
  {
    assert Elements(names[..i + 1]) == Elements(names[..i]) + {names[i]} by {
      assert names[..i + 1] == names[..i] + [names[i]];
    }
  }
}
