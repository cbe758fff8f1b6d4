/** The task queues of one priority level: one for each thread and a global one, with operations taken as atomic. */
module Scheduler {
  import opened Options

  type Queues = seq<Option<seq<nat>>>

  // ----- counting tasks -----

  function Times(q: seq<nat>, t: nat): nat { multiset(q)[t] }

  /** The queue `idx`, or nothing if there is none. */
  function QueueAt(queues: Queues, idx: nat): seq<nat> {
    if idx < |queues| && queues[idx].Some? then queues[idx].value else []
  }

  /** How often task `t` is in the queues below `k`. */
  function TimesBelow(queues: Queues, k: nat, t: nat): nat {
    if k == 0 then 0 else TimesBelow(queues, k - 1, t) + Times(QueueAt(queues, k - 1), t)
  }

  /** How many tasks are in the queues below `k`. */
  function SizeBelow(queues: Queues, k: nat): nat {
    if k == 0 then 0 else SizeBelow(queues, k - 1) + |QueueAt(queues, k - 1)|
  }

  lemma {:induction false} Exchange(queues: Queues, queues': Queues, k: nat, idx: nat, t: nat)
    requires forall j :: j != idx ==> QueueAt(queues', j) == QueueAt(queues, j)
    ensures TimesBelow(queues', k, t) == TimesBelow(queues, k, t) +
              if idx < k then Times(QueueAt(queues', idx), t) - Times(QueueAt(queues, idx), t) else 0
    ensures SizeBelow(queues', k) == SizeBelow(queues, k) +
              if idx < k then |QueueAt(queues', idx)| - |QueueAt(queues, idx)| else 0
  {
    if k > 0 { Exchange(queues, queues', k - 1, idx, t); }
  }

  lemma {:induction false} AllEmpty(queues: Queues, k: nat, t: nat)
    ensures SizeBelow(queues, k) == 0 <==> forall j :: 0 <= j < k ==> QueueAt(queues, j) == []
    ensures SizeBelow(queues, k) == 0 ==> TimesBelow(queues, k, t) == 0
  {
    if k > 0 { AllEmpty(queues, k - 1, t); }
  }

  lemma Popped(q: seq<nat>, t: nat)
    requires q != []
    ensures Times(q, t) == Times(q[1..], t) + (if t == q[0] then 1 else 0)
  {
    assert q == [q[0]] + q[1..];
  }

  /** The tasks of one priority: those of the global queue and of the thread queues. */
  datatype Tasks = Tasks(global_: seq<nat>, queues: Queues) {

    function Count(t: nat): nat { Times(global_, t) + TimesBelow(queues, |queues|, t) }

    function Size(): nat { |global_| + SizeBelow(queues, |queues|) }
  }

  lemma EmptyCount(s: Tasks)
    requires s.Size() == 0
    ensures forall t :: s.Count(t) == 0
  {
    forall t: nat ensures s.Count(t) == 0 { AllEmpty(s.queues, |s.queues|, t); }
  }

  /** `to` has the tasks of `from`. */
  ghost predicate Same(from: Tasks, to: Tasks) {
    to.Size() == from.Size() && forall t :: to.Count(t) == from.Count(t)
  }

  /** `to` lacks one `task`. */
  ghost predicate Less(from: Tasks, to: Tasks, task: nat) {
    from.Size() == to.Size() + 1 && forall t :: from.Count(t) == to.Count(t) + (if t == task then 1 else 0)
  }

  /** Queues exist for the same threads. */
  predicate SameThreads(queues: Queues, queues': Queues) {
    |queues'| == |queues| && forall j :: 0 <= j < |queues| ==> (queues'[j].Some? <==> queues[j].Some?)
  }

  lemma QueuePopped(s: Tasks, idx: nat)
    requires idx < |s.queues| && s.queues[idx].Some? && s.queues[idx].value != []
    ensures Less(s, s.(queues := s.queues[idx := Some(s.queues[idx].value[1..])]), s.queues[idx].value[0])
  {
    var q, s' := s.queues[idx].value, s.(queues := s.queues[idx := Some(s.queues[idx].value[1..])]);
    Exchange(s.queues, s'.queues, |s.queues|, idx, 0);
    forall t: nat
      ensures s.Count(t) == s'.Count(t) + (if t == q[0] then 1 else 0)
    {
      Exchange(s.queues, s'.queues, |s.queues|, idx, t);
      Popped(q, t);
    }
  }

  lemma QueuePushed(s: Tasks, idx: nat, task: nat)
    requires idx < |s.queues| && s.queues[idx].Some?
    ensures Less(s.(queues := s.queues[idx := Some(s.queues[idx].value + [task])]), s, task)
  {
    var s' := s.(queues := s.queues[idx := Some(s.queues[idx].value + [task])]);
    Exchange(s.queues, s'.queues, |s.queues|, idx, 0);
    forall t: nat
      ensures s'.Count(t) == s.Count(t) + (if t == task then 1 else 0)
    {
      Exchange(s.queues, s'.queues, |s.queues|, idx, t);
    }
  }

  lemma GlobalPopped(s: Tasks)
    requires s.global_ != []
    ensures Less(s, s.(global_ := s.global_[1..]), s.global_[0])
  {
    forall t: nat ensures Times(s.global_, t) == Times(s.global_[1..], t) + (if t == s.global_[0] then 1 else 0) {
      Popped(s.global_, t);
    }
  }

  lemma QueueMoved(s: Tasks, idx: nat)
    requires idx < |s.queues| && s.queues[idx].Some?
    ensures Same(s, Tasks(s.global_ + s.queues[idx].value, s.queues[idx := None]))
  {
    var s' := Tasks(s.global_ + s.queues[idx].value, s.queues[idx := None]);
    Exchange(s.queues, s'.queues, |s.queues|, idx, 0);
    forall t: nat
      ensures s'.Count(t) == s.Count(t)
    {
      Exchange(s.queues, s'.queues, |s.queues|, idx, t);
    }
  }

  lemma QueueCreated(s: Tasks, idx: nat)
    requires idx < |s.queues| && s.queues[idx].None?
    ensures Same(s, s.(queues := s.queues[idx := Some([])]))
  {
    var s' := s.(queues := s.queues[idx := Some([])]);
    Exchange(s.queues, s'.queues, |s.queues|, idx, 0);
    forall t: nat
      ensures s'.Count(t) == s.Count(t)
    {
      Exchange(s.queues, s'.queues, |s.queues|, idx, t);
    }
  }

  // ----- the order of a search -----

  /** Position `i` of a scan that begins at `start`, one full turn. */
  function Turn(start: nat, i: nat, cnt: nat): nat
    requires start < cnt && i < cnt
  {
    if start + i >= cnt then start + i - cnt else start + i
  }

  /** The first `i` queues of the scan are empty. */
  predicate Scanned(queues: Queues, start: nat, i: nat)
    requires start < |queues| && i <= |queues|
  {
    forall j :: 0 <= j < i ==> QueueAt(queues, Turn(start, j, |queues|)) == []
  }

  /** Queue `k` lost its first task. */
  predicate PoppedAt(s: Tasks, s': Tasks, k: nat, task: nat) {
    && k < |s.queues| && QueueAt(s.queues, k) != [] && task == QueueAt(s.queues, k)[0]
    && s' == Tasks(s.global_, s.queues[k := Some(QueueAt(s.queues, k)[1..])])
  }

  /**
   Which task thread `thid` gets: the own queue goes first, then the global one, then the first
   filled one of the scan.
   */
  predicate Taken(s: Tasks, s': Tasks, thid: nat, start: nat, task: nat) {
    if QueueAt(s.queues, thid) != [] then PoppedAt(s, s', thid, task)
    else if s.global_ != [] then task == s.global_[0] && s' == Tasks(s.global_[1..], s.queues)
    else
      && start < |s.queues|
      && exists i {:trigger Scanned(s.queues, start, i)} :: 0 <= i < |s.queues| && Scanned(s.queues, start, i)
           && PoppedAt(s, s', Turn(start, i, |s.queues|), task)
  }

  /** A thread with tasks of its own gets the first of them, and nothing else changes. */
  lemma OwnFirst(s: Tasks, s': Tasks, thid: nat, start: nat, task: nat)
    requires Taken(s, s', thid, start, task) && thid < |s.queues| && s.queues[thid].Some? && s.queues[thid].value != []
    ensures task == s.queues[thid].value[0]
    ensures s' == Tasks(s.global_, s.queues[thid := Some(s.queues[thid].value[1..])])
  {
  }

  /** A thread without gets the first of the global tasks, and nothing else changes. */
  lemma GlobalSecond(s: Tasks, s': Tasks, thid: nat, start: nat, task: nat)
    requires Taken(s, s', thid, start, task) && s.global_ != []
    requires thid < |s.queues| && s.queues[thid].Some? ==> s.queues[thid].value == []
    ensures task == s.global_[0] && s' == Tasks(s.global_[1..], s.queues)
  {
  }

  /** How far queue `k` is behind `start` on a turn. */
  function Behind(start: nat, k: nat, cnt: nat): nat
    requires start < cnt && k < cnt
  {
    if k >= start then k - start else k + cnt - start
  }

  /** Without global tasks either, it gets the first of the filled queue that comes first behind `start`. */
  lemma NearestThird(s: Tasks, s': Tasks, thid: nat, start: nat, task: nat) returns (k: nat)
    requires Taken(s, s', thid, start, task) && s.global_ == []
    requires thid < |s.queues| && s.queues[thid].Some? ==> s.queues[thid].value == []
    ensures k < |s.queues| && s.queues[k].Some? && s.queues[k].value != [] && start < |s.queues|
    ensures task == s.queues[k].value[0]
    ensures s' == Tasks(s.global_, s.queues[k := Some(s.queues[k].value[1..])])
    ensures forall j :: 0 <= j < |s.queues| && s.queues[j].Some? && s.queues[j].value != [] ==>
              Behind(start, k, |s.queues|) <= Behind(start, j, |s.queues|)
  {
    var cnt := |s.queues|;
    var i :| 0 <= i < cnt && Scanned(s.queues, start, i) && PoppedAt(s, s', Turn(start, i, cnt), task);
    k := Turn(start, i, cnt);
    forall j | 0 <= j < cnt && s.queues[j].Some? && s.queues[j].value != []
      ensures Behind(start, k, cnt) <= Behind(start, j, cnt)
    {
      var b := Behind(start, j, cnt);
      assert Turn(start, b, cnt) == j;
    }
  }

  /** A scan of one turn looks at every queue. */
  lemma FullTurn(s: Tasks, start: nat)
    requires s.global_ == [] && (s.queues != [] ==> start < |s.queues| && Scanned(s.queues, start, |s.queues|))
    ensures s.Size() == 0
  {
    forall k | 0 <= k < |s.queues|
      ensures QueueAt(s.queues, k) == []
    {
      var j := if k >= start then k - start else k + |s.queues| - start;
      assert Turn(start, j, |s.queues|) == k;
    }
    AllEmpty(s.queues, |s.queues|, 0);
  }

  class TaskCollection {
    var globalTasks: seq<nat>
    var threadTasks: Queues

    ghost function State(): Tasks
      reads this
    {
      Tasks(globalTasks, threadTasks)
    }

    constructor (maxThreads: nat)
      ensures State().Size() == 0 && |threadTasks| == maxThreads
      ensures forall j :: 0 <= j < maxThreads ==> threadTasks[j] == None
    {
      globalTasks := [];
      threadTasks := seq(maxThreads, _ => None);
      new;
      AllEmpty(threadTasks, |threadTasks|, 0);
    }

    /** Makes sure that a queue exists for the thread. */
    method RegisterThread(idx: nat)
      requires idx < |threadTasks|
      modifies this
      ensures Same(old(State()), State()) && |threadTasks| == |old(threadTasks)|
      ensures globalTasks == old(globalTasks)
      ensures threadTasks == if old(threadTasks)[idx].Some? then old(threadTasks) else old(threadTasks)[idx := Some([])]
      ensures forall j :: QueueAt(threadTasks, j) == QueueAt(old(threadTasks), j)
    {
      if threadTasks[idx] == None {
        QueueCreated(State(), idx);
        threadTasks := threadTasks[idx := Some([])];
      }
    }

    /** Gives up the queue of the thread; its tasks move to the global queue, in order. */
    method DeregisterThread(idx: nat)
      requires idx < |threadTasks| && threadTasks[idx].Some?
      modifies this
      ensures Same(old(State()), State())
      ensures globalTasks == old(globalTasks) + old(threadTasks)[idx].value
      ensures threadTasks == old(threadTasks)[idx := None]
    {
      QueueMoved(State(), idx);
      var tq := threadTasks[idx].value;
      threadTasks := threadTasks[idx := None];
      while tq != []
        invariant globalTasks + tq == old(globalTasks) + old(threadTasks)[idx].value
        invariant threadTasks == old(threadTasks)[idx := None]
        decreases |tq|
      {
        var task := tq[0];
        tq := tq[1..];
        globalTasks := globalTasks + [task];
      }
      assert globalTasks == old(globalTasks) + old(threadTasks)[idx].value;
    }

    method TryGetThreadTask(idx: nat) returns (task: Option<nat>)
      modifies this`threadTasks
      ensures SameThreads(old(threadTasks), threadTasks)
      ensures var q := QueueAt(old(threadTasks), idx);
              if q == [] then task == None && threadTasks == old(threadTasks)
              else task == Some(q[0]) && Less(old(State()), State(), q[0]) && PoppedAt(old(State()), State(), idx, q[0])
    {
      task := None;
      if idx < |threadTasks| && threadTasks[idx].Some? && threadTasks[idx].value != [] {
        QueuePopped(State(), idx);
        var q := threadTasks[idx].value;
        task := Some(q[0]);
        threadTasks := threadTasks[idx := Some(q[1..])];
      }
    }

    /** Takes a task for the thread, if there is any; `start` is the random place where stealing begins. */
    method TryGet(thid: nat, start: nat) returns (task: Option<nat>)
      requires threadTasks != [] ==> start < |threadTasks|
      modifies this
      ensures SameThreads(old(threadTasks), threadTasks)
      ensures task == None <==> old(State()).Size() == 0
      ensures task == None ==> State() == old(State())
      ensures task.Some? ==>
                Less(old(State()), State(), task.value) && Taken(old(State()), State(), thid, start, task.value)
    {
      task := TryGetThreadTask(thid);
      if task == None && globalTasks != [] {
        GlobalPopped(State());
        task := Some(globalTasks[0]);
        globalTasks := globalTasks[1..];
      }
      if task == None {
        task := Steal(start);
      }
    }

    method Steal(start: nat) returns (task: Option<nat>)
      requires globalTasks == [] && (threadTasks != [] ==> start < |threadTasks|)
      modifies this`threadTasks
      ensures SameThreads(old(threadTasks), threadTasks)
      ensures task == None ==> State() == old(State()) && State().Size() == 0
      ensures task.Some? ==> Less(old(State()), State(), task.value) && start < |old(threadTasks)|
      ensures task.Some? ==>
                exists i {:trigger Scanned(old(threadTasks), start, i)} ::
                  && 0 <= i < |old(threadTasks)| && Scanned(old(threadTasks), start, i)
                  && PoppedAt(old(State()), State(), Turn(start, i, |old(threadTasks)|), task.value)
    {
      var cnt := |threadTasks|;
      var i := 0;
      task := None;
      while i < cnt
        invariant 0 <= i <= cnt == |threadTasks| && threadTasks == old(threadTasks)
        invariant task == None && (cnt > 0 ==> Scanned(threadTasks, start, i))
      {
        task := TryGetThreadTask(Turn(start, i, cnt));
        if task.Some? { return; }
        i := i + 1;
      }
      FullTurn(State(), start);
    }

    /** Appends the task to the queue of the thread, or to the global one. */
    method Put(t: nat, thid: nat)
      modifies this
      ensures Less(State(), old(State()), t) && SameThreads(old(threadTasks), threadTasks)
      ensures if thid < |old(threadTasks)| && old(threadTasks)[thid].Some?
              then globalTasks == old(globalTasks)
                   && threadTasks == old(threadTasks)[thid := Some(old(threadTasks)[thid].value + [t])]
              else globalTasks == old(globalTasks) + [t] && threadTasks == old(threadTasks)
    {
      if thid < |threadTasks| && threadTasks[thid].Some? {
        QueuePushed(State(), thid, t);
        threadTasks := threadTasks[thid := Some(threadTasks[thid].value + [t])];
      } else {
        globalTasks := globalTasks + [t];
      }
    }
  }
}
