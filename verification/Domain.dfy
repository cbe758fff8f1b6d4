/** A scheduling domain: one collection of queues for every priority level, created when first needed. */
module Domain {
  import opened Options
  import opened Scheduler

  const LEVELS: nat := 33  // Priority::max_index() + 1

  /** Queues exist for exactly the threads of `ids`. */
  predicate QueuesFor(queues: Queues, ids: seq<nat>) {
    forall j :: 0 <= j < |queues| ==> (queues[j].Some? <==> j in ids)
  }

  /** The queues of `to` are those of `from` and one for thread `idx`. */
  predicate Widened(from: Tasks, to: Tasks, idx: nat) {
    && |to.queues| == |from.queues|
    && forall j :: 0 <= j < |to.queues| ==> (to.queues[j].Some? <==> j == idx || from.queues[j].Some?)
  }

  predicate Narrowed(from: Tasks, to: Tasks, idx: nat) {
    && |to.queues| == |from.queues|
    && forall j :: 0 <= j < |to.queues| ==> (to.queues[j].Some? <==> j != idx && from.queues[j].Some?)
  }

  /** Every task is where it was. */
  predicate Kept(from: Tasks, to: Tasks) {
    to.global_ == from.global_ && |to.queues| == |from.queues|
    && forall j :: 0 <= j < |to.queues| ==> QueueAt(to.queues, j) == QueueAt(from.queues, j)
  }

  /** The tasks of thread `idx` went to the end of the global queue, in order. */
  predicate Gathered(from: Tasks, to: Tasks, idx: nat) {
    && to.global_ == from.global_ + QueueAt(from.queues, idx) && |to.queues| == |from.queues|
    && forall j :: 0 <= j < |to.queues| ==> QueueAt(to.queues, j) == if j == idx then [] else QueueAt(from.queues, j)
  }

  /** The level has a queue for thread `idx`, and every task where it was. */
  ghost predicate Equipped(from: Tasks, to: Tasks, idx: nat) {
    Same(from, to) && Widened(from, to, idx) && Kept(from, to)
  }

  lemma QueueAdded(from: Tasks, idx: nat)
    requires idx < |from.queues|
    ensures var to := if from.queues[idx].Some? then from else Tasks(from.global_, from.queues[idx := Some([])]);
            Equipped(from, to, idx)
  {
    if from.queues[idx].None? { QueueCreated(from, idx); }
  }

  /** The level lost the queue of thread `idx`, but none of its tasks. */
  ghost predicate Unqueued(from: Tasks, to: Tasks, idx: nat) {
    Same(from, to) && Narrowed(from, to, idx) && Gathered(from, to, idx)
  }

  lemma QueueGone(from: Tasks, idx: nat)
    requires idx < |from.queues| && from.queues[idx].Some?
    ensures Unqueued(from, Tasks(from.global_ + from.queues[idx].value, from.queues[idx := None]), idx)
  {
    QueueMoved(from, idx);
  }

  lemma NothingGone(from: Tasks, idx: nat)
    requires from == Tasks([], [])
    ensures Unqueued(from, from, idx)
  {
  }

  class SchedulingDomain {
    const cpus: nat
    var ids: seq<nat>
    var top: nat
    var tasks: seq<TaskCollection?>
    var counts: seq<nat>

    ghost function Objects(): set<TaskCollection?>
      reads this
    {
      set c | c in tasks
    }

    /** The tasks of a level. */
    ghost function At(i: nat): Tasks
      reads this, Objects()
    {
      if i < |tasks| && tasks[i] != null then tasks[i].State() else Tasks([], [])
    }

    ghost predicate LevelOk(i: nat)
      reads this, Objects()
    {
      i < |tasks| == |counts| ==>
        && counts[i] == At(i).Size()
        && (counts[i] > 0 ==> i <= top)
        && (tasks[i] != null ==> |At(i).queues| == cpus && QueuesFor(At(i).queues, ids))
    }

    ghost predicate Apart(i: nat, j: nat)
      reads this
    {
      i < j < |tasks| && tasks[i] != null ==> tasks[i] != tasks[j]
    }

    ghost predicate Valid()
      reads this, Objects()
    {
      && |tasks| == |counts| == LEVELS && top < LEVELS
      && (forall k :: 0 <= k < |ids| ==> ids[k] < cpus)
      && (forall i, j {:trigger Apart(i, j)} :: Apart(i, j))
      && (forall i {:trigger LevelOk(i)} :: LevelOk(i))
    }

    /** Level `i` has queues for the threads of `who` but not for `idx`. */
    ghost predicate Thinned(i: nat, idx: nat, who: seq<nat>)
      reads this, Objects()
    {
      i < |tasks| == |counts| ==>
        && counts[i] == At(i).Size()
        && (counts[i] > 0 ==> i <= top)
        && (tasks[i] != null ==>
              && |At(i).queues| == cpus
              && forall j :: 0 <= j < cpus ==> (At(i).queues[j].Some? <==> j in who && j != idx))
    }

    /** No level was created yet. */
    ghost predicate NoLevels()
      reads this
    {
      forall i :: 0 <= i < |tasks| ==> tasks[i] == null
    }

    constructor (cpus: nat)
      ensures Valid() && this.cpus == cpus && ids == [] && NoLevels()
      ensures forall i :: 0 <= i < LEVELS ==> At(i).Size() == 0
    {
      this.cpus := cpus;
      ids := [];
      top := 0;
      tasks := seq(LEVELS, _ => null);
      counts := seq(LEVELS, _ => 0);
    }

    /** Takes a task of the highest level that has any; each level has its own random start. */
    method TryGetTask(thid: nat, random: seq<nat>) returns (task: Option<nat>, ghost level: nat)
      requires Valid() && |random| == LEVELS
      modifies this, Objects()
      ensures Valid() && tasks == old(tasks) && ids == old(ids) && top == old(top)
      ensures task == None ==> forall i :: 0 <= i < LEVELS ==> old(At(i)).Size() == 0 && At(i) == old(At(i))
      ensures task.Some? ==>
                && level < LEVELS && (forall i :: level < i < LEVELS ==> old(At(i)).Size() == 0)
                && Less(old(At(level)), At(level), task.value)
                && Taken(old(At(level)), At(level), thid, if cpus > 0 then random[level] % cpus else 0, task.value)
                && forall i :: 0 <= i < LEVELS && i != level ==> At(i) == old(At(i))
    {
      var idx: int := top;
      task, level := None, 0;
      forall i | top < i < LEVELS ensures At(i).Size() == 0 { assert LevelOk(i); }
      while idx >= 0
        invariant -1 <= idx < LEVELS && Valid()
        invariant tasks == old(tasks) && counts == old(counts) && ids == old(ids) && top == old(top)
        invariant forall i :: 0 <= i < LEVELS ==> At(i) == old(At(i))
        invariant forall i :: idx < i < LEVELS ==> old(At(i)).Size() == 0
        invariant task == None
      {
        assert LevelOk(idx);
        if counts[idx] > 0 {
          task := TakeAt(idx, thid, if cpus > 0 then random[idx] % cpus else 0);
          level := idx;
          return;
        }
        idx := idx - 1;
      }
    }

    /** `try_get` at a level with tasks, and the count. */
    method TakeAt(idx: nat, thid: nat, start: nat) returns (task: Option<nat>)
      requires Valid() && idx < LEVELS && counts[idx] > 0 && (cpus > 0 ==> start < cpus)
      modifies this, Objects()
      ensures Valid() && tasks == old(tasks) && ids == old(ids) && top == old(top)
      ensures task.Some? && Less(old(At(idx)), At(idx), task.value)
      ensures Taken(old(At(idx)), At(idx), thid, start, task.value)
      ensures forall i :: 0 <= i < LEVELS && i != idx ==> At(i) == old(At(i))
    {
      assert LevelOk(idx);
      task := tasks[idx].TryGet(thid, start);
      counts := counts[idx := counts[idx] - 1];
      forall i: nat
        ensures LevelOk(i) && (i < LEVELS && i != idx ==> At(i) == old(At(i)))
      {
        assert old(LevelOk(i)) && old(Apart(i, idx)) && old(Apart(idx, i));
      }
      forall i: nat, j: nat ensures Apart(i, j) { assert old(Apart(i, j)); }
    }

    /** Inserts a task of level `idx`, bound to the thread if it has a queue. */
    method PutTask(t: nat, idx: nat, thid: nat)
      requires Valid() && idx < LEVELS
      modifies this, Objects()
      ensures Valid() && ids == old(ids) && top == if idx > old(top) then idx else old(top)
      ensures Less(At(idx), old(At(idx)), t)
      ensures forall i :: 0 <= i < LEVELS && i != idx ==> At(i) == old(At(i))
      ensures if thid in ids
              then At(idx).global_ == old(At(idx)).global_
                   && QueueAt(At(idx).queues, thid) == QueueAt(old(At(idx)).queues, thid) + [t]
              else At(idx).global_ == old(At(idx)).global_ + [t]
      ensures forall j :: j != thid || thid !in ids ==> QueueAt(At(idx).queues, j) == QueueAt(old(At(idx)).queues, j)
      ensures tasks[idx] != null
      ensures tasks == old(tasks) || (fresh(tasks[idx]) && tasks == old(tasks)[idx := tasks[idx]])
    {
      if tasks[idx] == null { CreateLevel(idx); }
      Push(t, idx, thid);
    }

    /** The lazy creation of a collection, with queues for the active threads. */
    method CreateLevel(idx: nat)
      requires Valid() && idx < LEVELS && tasks[idx] == null
      modifies this`tasks, this`counts
      ensures Valid() && tasks[idx] != null && fresh(tasks[idx]) && tasks == old(tasks)[idx := tasks[idx]]
      ensures Same(old(At(idx)), At(idx)) && forall i :: 0 <= i < LEVELS && i != idx ==> At(i) == old(At(i))
      ensures At(idx).global_ == [] && forall j :: QueueAt(At(idx).queues, j) == []
    {
      assert LevelOk(idx);
      var tc := new TaskCollection(cpus);
      var k := 0;
      while k < |ids|
        invariant 0 <= k <= |ids| && tc.State().Size() == 0 && |tc.threadTasks| == cpus
        invariant QueuesFor(tc.threadTasks, ids[..k]) && tasks == old(tasks) && counts == old(counts)
        invariant tc.globalTasks == [] && forall j :: QueueAt(tc.threadTasks, j) == []
      {
        assert ids[..k + 1] == ids[..k] + [ids[k]];
        tc.RegisterThread(ids[k]);
        k := k + 1;
      }
      assert ids[..k] == ids;
      EmptyCount(tc.State());
      EmptyCount(Tasks([], []));
      counts := counts[idx := 0];
      tasks := tasks[idx := tc];
      forall i: nat ensures LevelOk(i) { assert old(LevelOk(i)); }
      forall i: nat, j: nat ensures Apart(i, j) { assert old(Apart(i, j)); }
    }

    method Push(t: nat, idx: nat, thid: nat)
      requires Valid() && idx < LEVELS && tasks[idx] != null
      modifies this`counts, this`top, tasks[idx]
      ensures Valid() && top == if idx > old(top) then idx else old(top)
      ensures Less(At(idx), old(At(idx)), t)
      ensures forall i :: 0 <= i < LEVELS && i != idx ==> At(i) == old(At(i))
      ensures if thid in ids
              then At(idx).global_ == old(At(idx)).global_
                   && QueueAt(At(idx).queues, thid) == QueueAt(old(At(idx)).queues, thid) + [t]
              else At(idx).global_ == old(At(idx)).global_ + [t]
      ensures forall j :: j != thid || thid !in ids ==> QueueAt(At(idx).queues, j) == QueueAt(old(At(idx)).queues, j)
    {
      assert LevelOk(idx);
      tasks[idx].Put(t, thid);
      counts := counts[idx := counts[idx] + 1];
      if idx > top { top := idx; }
      forall i: nat
        ensures LevelOk(i) && (i < LEVELS && i != idx ==> At(i) == old(At(i)))
      {
        assert old(LevelOk(i)) && old(Apart(i, idx)) && old(Apart(idx, i));
      }
      forall i: nat, j: nat ensures Apart(i, j) { assert old(Apart(i, j)); }
    }

    /** Adds a queue for the thread to every level that has none for it. */
    method AddThread(idx: nat)
      requires Valid() && idx < cpus
      modifies this, Objects()
      ensures Valid() && ids == old(ids) + [idx] && tasks == old(tasks)
      ensures forall i :: 0 <= i < LEVELS ==> Same(old(At(i)), At(i)) && Kept(old(At(i)), At(i))
    {
      var k := 0;
      while k < LEVELS
        invariant 0 <= k <= LEVELS && ids == old(ids) && top == old(top) && tasks == old(tasks) && counts == old(counts)
        invariant forall i :: 0 <= i < k && tasks[i] != null ==> Equipped(old(At(i)), At(i), idx)
        invariant forall i :: 0 <= i < k && tasks[i] == null ==> At(i) == old(At(i))
        invariant forall i :: k <= i < LEVELS ==> At(i) == old(At(i))
      {
        if tasks[k] != null {
          assert old(LevelOk(k)) && |At(k).queues| == cpus;
          forall i: nat
            ensures i != k && i < LEVELS && tasks[i] != null ==> tasks[i] != tasks[k]
          {
            assert old(Apart(i, k)) && old(Apart(k, i));
          }
          QueueAdded(At(k), idx);
          tasks[k].RegisterThread(idx);
        }
        k := k + 1;
      }
      ids := ids + [idx];
      forall i: nat ensures LevelOk(i) { assert old(LevelOk(i)); }
      forall i: nat, j: nat ensures Apart(i, j) { assert old(Apart(i, j)); }
    }

    /**
     Removes the queue of the thread from every level; its tasks stay. An id that is listed twice stays
     in the list, although the last assertion of the code says otherwise, and then it has no queues.
     */
    method RemoveThread(idx: nat)
      requires Valid() && idx in ids
      modifies this, Objects()
      ensures multiset(ids) == multiset(old(ids)) - multiset{idx} && tasks == old(tasks)
      ensures idx !in ids <==> multiset(old(ids))[idx] == 1
      ensures Valid() <==> multiset(old(ids))[idx] == 1 || NoLevels()
      ensures forall i :: 0 <= i < LEVELS ==> Unqueued(old(At(i)), At(i), idx)
    {
      DropQueues(idx);
      label dropped:
      RemoveId(idx);
      forall i: nat, j: nat ensures Apart(i, j) { assert old(Apart(i, j)); }
      forall i: nat ensures At(i) == old@dropped(At(i)) {}
      if idx !in ids || NoLevels() {
        forall i: nat ensures LevelOk(i) { assert old@dropped(Thinned(i, idx, ids)); }
      } else {
        var i :| 0 <= i < |tasks| && tasks[i] != null;
        assert old@dropped(Thinned(i, idx, ids)) && !LevelOk(i);
      }
    }

    method DropQueues(idx: nat)
      requires Valid() && idx in ids
      modifies Objects()
      ensures forall i :: 0 <= i < LEVELS ==> Unqueued(old(At(i)), At(i), idx)
      ensures idx < cpus && forall i {:trigger Thinned(i, idx, ids)} :: Thinned(i, idx, ids)
    {
      var k := 0;
      assert forall j :: j in ids ==> j < cpus;
      while k < LEVELS
        invariant 0 <= k <= LEVELS
        invariant forall i :: 0 <= i < k ==> Unqueued(old(At(i)), At(i), idx)
        invariant forall i :: k <= i < LEVELS ==> At(i) == old(At(i))
      {
        if tasks[k] != null {
          assert old(LevelOk(k)) && QueuesFor(At(k).queues, ids);
          forall i: nat
            ensures i != k && i < LEVELS && tasks[i] != null ==> tasks[i] != tasks[k]
          {
            assert old(Apart(i, k)) && old(Apart(k, i));
          }
          QueueGone(At(k), idx);
          tasks[k].DeregisterThread(idx);
        } else {
          NothingGone(At(k), idx);
        }
        k := k + 1;
      }
      forall i: nat
        ensures Thinned(i, idx, ids)
      {
        assert old(LevelOk(i)) && (i < LEVELS ==> Unqueued(old(At(i)), At(i), idx));
      }
    }

    method RemoveId(idx: nat)
      requires idx in ids
      modifies this`ids
      ensures multiset(ids) == multiset(old(ids)) - multiset{idx}
      ensures idx !in ids <==> multiset(old(ids))[idx] == 1
      ensures forall j :: j != idx ==> (j in ids <==> j in old(ids))
      ensures forall m :: 0 <= m < |ids| ==> ids[m] in old(ids)
    {
      var k := 0;
      while ids[k] != idx
        invariant 0 <= k < |ids| && idx in ids[k..] && ids == old(ids)
        decreases |ids| - k
      {
        k := k + 1;
      }
      ids := ids[..k] + ids[k + 1..];
      assert old(ids) == old(ids)[..k] + [idx] + old(ids)[k + 1..];
      assert idx in ids <==> idx in multiset(ids);
      assert forall m :: 0 <= m < |ids| ==> ids[m] in ids;
    }
  }

  /** An id that is added twice and removed once stays listed, but its queues are gone. */
  method AddedTwice(cpus: nat, idx: nat, t: nat) returns (d: SchedulingDomain)
    requires idx < cpus
    ensures idx in d.ids && !d.Valid()
  {
    d := new SchedulingDomain(cpus);
    d.PutTask(t, 0, idx);
    d.AddThread(idx);
    d.AddThread(idx);
    assert multiset(d.ids)[idx] == 2;
    assert d.LevelOk(0);
    d.RemoveThread(idx);
  }
}
