/** How worker threads run tasks on stack contexts, which migrate with the tasks. */
module Workers {
  // A wait or a wakeup is one step here; WaitProtocol has the steps within. `Place` and `Owner` are
  // ghosts: where a task is, and who may use a context.

  /**
   Where the code of a worker is. Dropped: in the scheduler loop, with a task that was interrupted;
   Clearing: that task was given away, but `task` still points to it; Fetching: about to get a new
   task; Resuming: about to continue a started task; Starting: about to run a new one; Body: running it.
   */
  datatype Pc = Dropped | Clearing | Fetching | Resuming | Starting | Body

  /**
   What a suspended context does when control is transferred to it: run the scheduler loop, or return
   to the task that dropped it.
   */
  datatype Continuation = Loop | InTask(t: nat)

  datatype Worker = Worker(pc: Pc, task: nat, ctx: nat, ready: seq<nat>, waits: bool)

  datatype Place = Queued | Held(w: nat) | Blocked | Done

  datatype Owner = Running(w: nat) | Ready(w: nat) | Cached | Parked(t: nat)

  datatype Task = Task(started: bool, ctx: nat, home: nat, place: Place)

  datatype Context = Context(owner: Owner, saved: Continuation)

  datatype State = State(
    workers: map<nat, Worker>, tasks: map<nat, Task>, contexts: map<nat, Context>,
    queued: set<nat>, blocked: set<nat>, cache: seq<nat>)

  datatype Step =
    | Spawn(t: nat)
    | Fetch(w: nat, t: nat)
    | Start(w: nat)
    | Finish(w: nat)
    | Drop(w: nat, waits: bool, spare: nat)
    | GiveBack(w: nat)
    | Block(w: nat)
    | KeepOn(w: nat)
    | Clear(w: nat)
    | Resume(w: nat)
    | Wake(t: nat)

  predicate Enabled(s: State, a: Step) {
    match a
    case Spawn(t) => t !in s.tasks
    case Fetch(w, t) => w in s.workers && s.workers[w].pc == Fetching && t in s.queued && t in s.tasks
    case Start(w) => w in s.workers && s.workers[w].pc == Starting && s.workers[w].task in s.tasks
    case Finish(w) => w in s.workers && s.workers[w].pc == Body && s.workers[w].task in s.tasks
    case Drop(w, waits, spare) =>
      && w in s.workers && s.workers[w].pc == Body && s.workers[w].task in s.tasks
      && s.tasks[s.workers[w].task].ctx in s.contexts
      && (s.workers[w].ready == [] && s.cache == [] ==> spare !in s.contexts)
      && (s.workers[w].ready != [] || s.cache != [] ==> Neutral(s, w, spare) in s.contexts)
    case GiveBack(w) =>
      w in s.workers && s.workers[w].pc == Dropped && !s.workers[w].waits && s.workers[w].task in s.tasks
    case Block(w) =>
      w in s.workers && s.workers[w].pc == Dropped && s.workers[w].waits && s.workers[w].task in s.tasks
    case KeepOn(w) => w in s.workers && s.workers[w].pc == Dropped && s.workers[w].waits
    case Clear(w) => w in s.workers && s.workers[w].pc == Clearing
    case Resume(w) =>
      && w in s.workers && s.workers[w].pc == Resuming && s.workers[w].task in s.tasks
      && s.workers[w].ctx in s.contexts && s.tasks[s.workers[w].task].ctx in s.contexts
    case Wake(t) => t in s.blocked && t in s.tasks
  }

  /** get_neutral_context: the last ready context, else the last cached one, else a new one. */
  function Neutral(s: State, w: nat, spare: nat): nat
    requires w in s.workers
  {
    var r := s.workers[w].ready;
    if r != [] then r[|r| - 1] else if s.cache != [] then s.cache[|s.cache| - 1] else spare
  }

  function PutWorker(s: State, w: nat, x: Worker): State { s.(workers := s.workers[w := x]) }

  function PutTask(s: State, t: nat, x: Task): State { s.(tasks := s.tasks[t := x]) }

  function PutContext(s: State, c: nat, x: Context): State { s.(contexts := s.contexts[c := x]) }

  function Front(r: seq<nat>): seq<nat> { if r == [] then [] else r[..|r| - 1] }

  function Do(s: State, a: Step): State
    requires Enabled(s, a)
  {
    match a
    case Spawn(t) =>
      PutTask(s, t, Task(false, 0, 0, Queued)).(queued := s.queued + {t})
    case Fetch(w, t) =>
      var x := s.tasks[t];
      PutWorker(PutTask(s, t, x.(place := Held(w))), w,
                s.workers[w].(pc := if x.started then Resuming else Starting, task := t)).(queued := s.queued - {t})
    case Start(w) =>
      var x := s.workers[w];
      PutWorker(PutTask(s, x.task, s.tasks[x.task].(started := true, ctx := x.ctx, home := w)), w, x.(pc := Body))
    case Finish(w) =>
      var x := s.workers[w];
      PutWorker(PutTask(s, x.task, s.tasks[x.task].(place := Done)), w, x.(pc := Clearing))
    case Drop(w, waits, spare) =>
      var x := s.workers[w];
      var n, c := Neutral(s, w, spare), s.tasks[x.task].ctx;
      var s1 := PutContext(s, c, Context(Parked(x.task), InTask(x.task)));
      var s2 := PutContext(s1, n, Context(Running(w), if n in s.contexts then s.contexts[n].saved else Loop));
      PutWorker(s2, w, x.(pc := Dropped, ctx := n, waits := waits, ready := Front(x.ready)))
        .(cache := if x.ready == [] then Front(s.cache) else s.cache)
    case GiveBack(w) =>
      var x := s.workers[w];
      PutWorker(PutTask(s, x.task, s.tasks[x.task].(place := Queued)), w, x.(pc := Clearing))
        .(queued := s.queued + {x.task})
    case Block(w) =>
      var x := s.workers[w];
      PutWorker(PutTask(s, x.task, s.tasks[x.task].(place := Blocked)), w, x.(pc := Clearing, waits := false))
        .(blocked := s.blocked + {x.task})
    case KeepOn(w) =>
      PutWorker(s, w, s.workers[w].(pc := Resuming, waits := false))
    case Clear(w) =>
      PutWorker(s, w, s.workers[w].(pc := Fetching, task := 0))
    case Resume(w) =>
      var x := s.workers[w];
      var c := s.tasks[x.task].ctx;
      var s1 := PutContext(s, x.ctx, Context(Ready(w), Loop));
      var s2 := PutContext(s1, c, s.contexts[c].(owner := Running(w)));
      PutWorker(PutTask(s2, x.task, s.tasks[x.task].(home := w)), w,
                x.(pc := Body, ctx := c, ready := x.ready + [x.ctx]))
    case Wake(t) =>
      PutTask(s, t, s.tasks[t].(place := Queued)).(queued := s.queued + {t}, blocked := s.blocked - {t})
  }

  // ----- the invariant -----

  /** Whether the task that `w` points to is in its hands. */
  predicate Holds(x: Worker) { x.pc != Clearing && x.pc != Fetching }

  predicate WorkerOk(s: State, w: nat) {
    w in s.workers ==>
      var x := s.workers[w];
      && x.ctx in s.contexts && s.contexts[x.ctx].owner == Running(w)
      && (forall i :: 0 <= i < |x.ready| ==>
            x.ready[i] in s.contexts && s.contexts[x.ready[i]] == Context(Ready(w), Loop))
      && (forall i, j :: 0 <= i < j < |x.ready| ==> x.ready[i] != x.ready[j])
      && (Holds(x) ==> x.task in s.tasks && s.tasks[x.task].place == Held(w))
      && (x.pc == Starting ==> !s.tasks[x.task].started)
      && (x.pc == Dropped || x.pc == Resuming || x.pc == Body ==> s.tasks[x.task].started)
      && (x.pc == Body ==> s.tasks[x.task].ctx == x.ctx && s.tasks[x.task].home == w)
  }

  /** The task is executing on its context. */
  predicate Executing(s: State, t: nat)
    requires t in s.tasks
  {
    var p := s.tasks[t].place;
    p.Held? && p.w in s.workers && s.workers[p.w].pc == Body
  }

  predicate TaskOk(s: State, t: nat) {
    && (t in s.queued || t in s.blocked ==> t in s.tasks)
    && (t in s.tasks ==>
          var x := s.tasks[t];
          && (t in s.queued <==> x.place == Queued)
          && (t in s.blocked <==> x.place == Blocked)
          && (x.place.Held? ==> x.place.w in s.workers && Holds(s.workers[x.place.w]) && s.workers[x.place.w].task == t)
          && (x.place == Blocked || x.place == Done ==> x.started)
          && (x.started && x.place != Done && !Executing(s, t) ==>
                x.ctx in s.contexts && s.contexts[x.ctx] == Context(Parked(t), InTask(t))))
  }

  predicate ContextOk(s: State, c: nat) {
    c in s.contexts ==>
      match s.contexts[c].owner
      case Running(w) => w in s.workers && s.workers[w].ctx == c
      case Ready(w) => w in s.workers && c in s.workers[w].ready
      case Cached => c in s.cache
      case Parked(t) => t in s.tasks && s.tasks[t].started && s.tasks[t].ctx == c && s.tasks[t].place != Done
  }

  predicate CacheOk(s: State) {
    && (forall i :: 0 <= i < |s.cache| ==> s.cache[i] in s.contexts && s.contexts[s.cache[i]] == Context(Cached, Loop))
    && (forall i, j :: 0 <= i < j < |s.cache| ==> s.cache[i] != s.cache[j])
  }

  ghost predicate Inv(s: State) {
    && (forall w {:trigger WorkerOk(s, w)} :: WorkerOk(s, w))
    && (forall t {:trigger TaskOk(s, t)} :: TaskOk(s, t))
    && (forall c {:trigger ContextOk(s, c)} :: ContextOk(s, c))
    && CacheOk(s)
  }

  // ----- every step keeps the invariant -----

  lemma SpawnInv(s: State, t: nat)
    requires Inv(s) && Enabled(s, Spawn(t))
    ensures Inv(Do(s, Spawn(t)))
  {
    var s' := Do(s, Spawn(t));
    forall v: nat ensures WorkerOk(s', v) { assert WorkerOk(s, v); }
    forall u: nat ensures TaskOk(s', u) { assert TaskOk(s, u); }
    forall c: nat ensures ContextOk(s', c) { assert ContextOk(s, c); }
  }

  lemma FetchInv(s: State, w: nat, t: nat)
    requires Inv(s) && Enabled(s, Fetch(w, t))
    ensures Inv(Do(s, Fetch(w, t)))
  {
    var s' := Do(s, Fetch(w, t));
    assert WorkerOk(s, w) && TaskOk(s, t);
    forall v: nat ensures WorkerOk(s', v) { assert WorkerOk(s, v); }
    forall u: nat ensures TaskOk(s', u) { assert TaskOk(s, u); }
    forall c: nat ensures ContextOk(s', c) { assert ContextOk(s, c); }
  }

  lemma StartInv(s: State, w: nat)
    requires Inv(s) && Enabled(s, Start(w))
    ensures Inv(Do(s, Start(w)))
  {
    var s' := Do(s, Start(w));
    assert WorkerOk(s, w) && TaskOk(s, s.workers[w].task);
    forall v: nat ensures WorkerOk(s', v) { assert WorkerOk(s, v); }
    forall u: nat ensures TaskOk(s', u) { assert TaskOk(s, u); }
    forall c: nat ensures ContextOk(s', c) { assert ContextOk(s, c); }
  }

  lemma FinishInv(s: State, w: nat)
    requires Inv(s) && Enabled(s, Finish(w))
    ensures Inv(Do(s, Finish(w)))
  {
    var s' := Do(s, Finish(w));
    assert WorkerOk(s, w) && TaskOk(s, s.workers[w].task);
    forall v: nat ensures WorkerOk(s', v) { assert WorkerOk(s, v); }
    forall u: nat ensures TaskOk(s', u) { assert TaskOk(s, u); }
    forall c: nat ensures ContextOk(s', c) { assert ContextOk(s, c); }
  }

  lemma GiveInv(s: State, a: Step)
    requires Inv(s) && Enabled(s, a) && (a.GiveBack? || a.Block?)
    ensures Inv(Do(s, a))
  {
    var s' := Do(s, a);
    assert WorkerOk(s, a.w) && TaskOk(s, s.workers[a.w].task);
    forall v: nat ensures WorkerOk(s', v) { assert WorkerOk(s, v); }
    forall u: nat ensures TaskOk(s', u) { assert TaskOk(s, u); }
    forall c: nat ensures ContextOk(s', c) { assert ContextOk(s, c); }
  }

  lemma PcInv(s: State, a: Step)
    requires Inv(s) && Enabled(s, a) && (a.KeepOn? || a.Clear?)
    ensures Inv(Do(s, a))
  {
    var s' := Do(s, a);
    assert WorkerOk(s, a.w);
    forall v: nat ensures WorkerOk(s', v) { assert WorkerOk(s, v); }
    forall u: nat ensures TaskOk(s', u) { assert TaskOk(s, u); }
    forall c: nat ensures ContextOk(s', c) { assert ContextOk(s, c); }
  }

  lemma WakeInv(s: State, t: nat)
    requires Inv(s) && Enabled(s, Wake(t))
    ensures Inv(Do(s, Wake(t)))
  {
    var s' := Do(s, Wake(t));
    assert TaskOk(s, t);
    forall v: nat ensures WorkerOk(s', v) { assert WorkerOk(s, v); }
    forall u: nat ensures TaskOk(s', u) { assert TaskOk(s, u); }
    forall c: nat ensures ContextOk(s', c) { assert ContextOk(s, c); }
  }

  lemma ResumeInv(s: State, w: nat)
    requires Inv(s) && Enabled(s, Resume(w))
    ensures s.workers[w].ctx != s.tasks[s.workers[w].task].ctx
    ensures s.contexts[s.tasks[s.workers[w].task].ctx].saved == InTask(s.workers[w].task)
    ensures Inv(Do(s, Resume(w)))
  {
    var s' := Do(s, Resume(w));
    assert WorkerOk(s, w) && TaskOk(s, s.workers[w].task);
    forall v: nat ensures WorkerOk(s', v) { ResumeWorker(s, w, v); }
    forall u: nat ensures TaskOk(s', u) { assert TaskOk(s, u); }
    forall c: nat ensures ContextOk(s', c) { ResumeContext(s, w, c); }
  }

  lemma ResumeWorker(s: State, w: nat, v: nat)
    requires Enabled(s, Resume(w)) && WorkerOk(s, w) && WorkerOk(s, v) && TaskOk(s, s.workers[w].task)
    ensures WorkerOk(Do(s, Resume(w)), v)
  {
  }

  lemma ResumeContext(s: State, w: nat, c: nat)
    requires Enabled(s, Resume(w)) && WorkerOk(s, w) && ContextOk(s, c) && TaskOk(s, s.workers[w].task)
    ensures ContextOk(Do(s, Resume(w)), c)
  {
    var x := s.workers[w];
    assert x.ctx in x.ready + [x.ctx] && forall d :: d in x.ready ==> d in x.ready + [x.ctx];
  }

  lemma DropInv(s: State, w: nat, waits: bool, spare: nat)
    requires Inv(s) && Enabled(s, Drop(w, waits, spare))
    ensures Inv(Do(s, Drop(w, waits, spare)))
  {
    var a := Drop(w, waits, spare);
    var s' := Do(s, a);
    assert WorkerOk(s, w) && TaskOk(s, s.workers[w].task);
    forall v: nat ensures WorkerOk(s', v) { DropWorker(s, w, waits, spare, v); }
    forall u: nat ensures TaskOk(s', u) { assert TaskOk(s, u); }
    forall c: nat ensures ContextOk(s', c) { DropContext(s, w, waits, spare, c); }
  }

  lemma DropWorker(s: State, w: nat, waits: bool, spare: nat, v: nat)
    requires Inv(s) && Enabled(s, Drop(w, waits, spare))
    ensures WorkerOk(Do(s, Drop(w, waits, spare)), v)
  {
    assert WorkerOk(s, w) && WorkerOk(s, v) && TaskOk(s, s.workers[w].task);
  }

  lemma DropContext(s: State, w: nat, waits: bool, spare: nat, c: nat)
    requires Enabled(s, Drop(w, waits, spare)) && WorkerOk(s, w) && ContextOk(s, c) && CacheOk(s)
    requires s.tasks[s.workers[w].task].started && s.tasks[s.workers[w].task].place == Held(w)
    ensures ContextOk(Do(s, Drop(w, waits, spare)), c)
  {
    FrontHas(s.workers[w].ready);
    FrontHas(s.cache);
  }

  lemma FrontHas(r: seq<nat>)
    ensures r != [] ==> forall x :: x in r && x != r[|r| - 1] ==> x in Front(r)
  {
    if r != [] { assert r == Front(r) + [r[|r| - 1]]; }
  }

  lemma StepInv(s: State, a: Step)
    requires Inv(s) && Enabled(s, a)
    ensures Inv(Do(s, a))
  {
    match a
    case Spawn(t) => SpawnInv(s, t);
    case Fetch(w, t) => FetchInv(s, w, t);
    case Start(w) => StartInv(s, w);
    case Finish(w) => FinishInv(s, w);
    case Drop(w, waits, spare) => DropInv(s, w, waits, spare);
    case GiveBack(w) => GiveInv(s, a);
    case Block(w) => GiveInv(s, a);
    case KeepOn(w) => PcInv(s, a);
    case Clear(w) => PcInv(s, a);
    case Resume(w) => ResumeInv(s, w);
    case Wake(t) => WakeInv(s, t);
  }

  // ----- runs -----

  /** Every worker is about to fetch its first task, on a context of its own. */
  ghost predicate Init(s: State) {
    && s.tasks == map[] && s.queued == {} && s.blocked == {} && s.cache == []
    && (forall w :: w in s.workers ==>
          && s.workers[w].pc == Fetching && s.workers[w].ready == []
          && s.workers[w].ctx in s.contexts && s.contexts[s.workers[w].ctx].owner == Running(w))
    && (forall c :: c in s.contexts ==>
          && s.contexts[c].owner.Running? && s.contexts[c].owner.w in s.workers
          && s.workers[s.contexts[c].owner.w].ctx == c)
  }

  lemma InitInv(s: State)
    requires Init(s)
    ensures Inv(s)
  {
    forall w: nat ensures WorkerOk(s, w) {}
    forall t: nat ensures TaskOk(s, t) {}
    forall c: nat ensures ContextOk(s, c) {}
  }

  predicate Run(s: State, steps: seq<Step>)
    decreases |steps|
  {
    steps != [] ==> Enabled(s, steps[0]) && Run(Do(s, steps[0]), steps[1..])
  }

  function After(s: State, steps: seq<Step>): State
    requires Run(s, steps)
    decreases |steps|
  {
    if steps == [] then s else After(Do(s, steps[0]), steps[1..])
  }

  lemma {:induction false} RunInv(s: State, steps: seq<Step>)
    requires Inv(s) && Run(s, steps)
    ensures Inv(After(s, steps))
    decreases |steps|
  {
    if steps != [] {
      StepInv(s, steps[0]);
      RunInv(Do(s, steps[0]), steps[1..]);
    }
  }

  // ----- the life of a task -----

  /** Who gets a task and who gives it away: the place of a task changes by these steps and by no others. */
  lemma PlaceStep(s: State, a: Step, t: nat)
    requires Inv(s) && Enabled(s, a) && t in s.tasks
    ensures var p, p' := s.tasks[t].place, (assert t in Do(s, a).tasks; Do(s, a).tasks[t].place);
            && (a.Fetch? && a.t == t ==> p == Queued && p' == Held(a.w))
            && (a.GiveBack? && s.workers[a.w].task == t ==> p == Held(a.w) && p' == Queued)
            && (a.Block? && s.workers[a.w].task == t ==> p == Held(a.w) && p' == Blocked)
            && (a.Finish? && s.workers[a.w].task == t ==> p == Held(a.w) && p' == Done)
            && (a == Wake(t) ==> p == Blocked && p' == Queued)
            && (p' != p ==>
                  || a == Wake(t) || (a.Fetch? && a.t == t)
                  || ((a.GiveBack? || a.Block? || a.Finish?) && s.workers[a.w].task == t))
  {
    assert TaskOk(s, t);
    if a.GiveBack? || a.Block? || a.Finish? { assert WorkerOk(s, a.w); }
  }

  /** The step is one of worker `w`. */
  predicate StepOf(a: Step, w: nat) { !a.Spawn? && !a.Wake? && a.w == w }

  lemma {:induction false} OthersLeave(s: State, steps: seq<Step>, w: nat)
    requires Run(s, steps) && w in s.workers && forall i :: 0 <= i < |steps| ==> !StepOf(steps[i], w)
    ensures w in After(s, steps).workers && After(s, steps).workers[w] == s.workers[w]
    decreases |steps|
  {
    if steps != [] { OthersLeave(Do(s, steps[0]), steps[1..], w); }
  }

  /**
   What a worker does next after it dropped its task: it gives the task back if and only if the task
   yields, and blocks it or finds it woken already if and only if it waits.
   */
  lemma AfterDrop(s: State, w: nat, waits: bool, spare: nat, steps: seq<Step>, b: Step)
    requires Inv(s) && Enabled(s, Drop(w, waits, spare)) && Run(Do(s, Drop(w, waits, spare)), steps)
    requires forall i :: 0 <= i < |steps| ==> !StepOf(steps[i], w)
    ensures var f := After(Do(s, Drop(w, waits, spare)), steps);
            && (Enabled(f, GiveBack(w)) <==> !waits)
            && (Enabled(f, Block(w)) <==> waits) && (Enabled(f, KeepOn(w)) <==> waits)
            && (StepOf(b, w) && Enabled(f, b) ==> if waits then b == Block(w) || b == KeepOn(w) else b == GiveBack(w))
  {
    var s1 := Do(s, Drop(w, waits, spare));
    StepInv(s, Drop(w, waits, spare));
    OthersLeave(s1, steps, w);
    RunInv(s1, steps);
    DroppedNext(After(s1, steps), w, b);
  }

  lemma DroppedNext(f: State, w: nat, b: Step)
    requires Inv(f) && w in f.workers && f.workers[w].pc == Dropped
    ensures var waits := f.workers[w].waits;
            && (Enabled(f, GiveBack(w)) <==> !waits)
            && (Enabled(f, Block(w)) <==> waits) && (Enabled(f, KeepOn(w)) <==> waits)
            && (StepOf(b, w) && Enabled(f, b) ==> if waits then b == Block(w) || b == KeepOn(w) else b == GiveBack(w))
  {
    assert WorkerOk(f, w);
  }

  /** A blocked task stays blocked, and is on no queue, until it is woken. */
  lemma {:induction false} BlockedUntilWake(s: State, steps: seq<Step>, t: nat)
    requires Inv(s) && Run(s, steps) && t in s.blocked
    requires forall i :: 0 <= i < |steps| ==> steps[i] != Wake(t)
    ensures t in After(s, steps).blocked && t !in After(s, steps).queued
    decreases |steps|
  {
    assert TaskOk(s, t);
    if steps != [] {
      StepInv(s, steps[0]);
      PlaceStep(s, steps[0], t);
      assert TaskOk(Do(s, steps[0]), t);
      if steps[0].GiveBack? || steps[0].Block? || steps[0].Finish? { assert WorkerOk(s, steps[0].w); }
      BlockedUntilWake(Do(s, steps[0]), steps[1..], t);
    }
  }

  /** A finished task stays finished. */
  lemma {:induction false} DoneForGood(s: State, steps: seq<Step>, t: nat)
    requires Inv(s) && Run(s, steps) && t in s.tasks && s.tasks[t].place == Done
    ensures t in After(s, steps).tasks && After(s, steps).tasks[t].place == Done
    decreases |steps|
  {
    if steps != [] {
      StepInv(s, steps[0]);
      PlaceStep(s, steps[0], t);
      DoneForGood(Do(s, steps[0]), steps[1..], t);
    }
  }

  /** A worker that dropped a waiting task and blocks it puts it where only a Wake gets it from. */
  lemma WaitsBlocked(s: State, w: nat, spare: nat, steps: seq<Step>, more: seq<Step>, t: nat)
    requires Inv(s) && Enabled(s, Drop(w, true, spare)) && Run(Do(s, Drop(w, true, spare)), steps)
    requires t == s.workers[w].task && forall i :: 0 <= i < |steps| ==> !StepOf(steps[i], w)
    requires var f := After(Do(s, Drop(w, true, spare)), steps); Enabled(f, Block(w)) && Run(Do(f, Block(w)), more)
    requires forall i :: 0 <= i < |more| ==> more[i] != Wake(t)
    ensures var f := After(Do(s, Drop(w, true, spare)), steps);
            && t in Do(f, Block(w)).blocked
            && t in After(Do(f, Block(w)), more).blocked && t !in After(Do(f, Block(w)), more).queued
  {
    var s1 := Do(s, Drop(w, true, spare));
    StepInv(s, Drop(w, true, spare));
    OthersLeave(s1, steps, w);
    RunInv(s1, steps);
    var f := After(s1, steps);
    StepInv(f, Block(w));
    assert WorkerOk(f, w);
    BlockedUntilWake(Do(f, Block(w)), more, t);
  }

  /** An unfinished task is queued, or blocked, or in the hands of exactly one worker. */
  lemma OnePlace(s: State, t: nat)
    requires Inv(s) && t in s.tasks && s.tasks[t].place != Done
    ensures t in s.queued ==>
              t !in s.blocked && forall w :: w in s.workers ==> !(Holds(s.workers[w]) && s.workers[w].task == t)
    ensures t in s.blocked ==> forall w :: w in s.workers ==> !(Holds(s.workers[w]) && s.workers[w].task == t)
    ensures t !in s.queued && t !in s.blocked ==>
              && s.tasks[t].place.Held? && s.tasks[t].place.w in s.workers
              && forall w :: w in s.workers ==>
                   (Holds(s.workers[w]) && s.workers[w].task == t <==> w == s.tasks[t].place.w)
  {
    assert TaskOk(s, t);
    forall w | w in s.workers && Holds(s.workers[w]) && s.workers[w].task == t
      ensures s.tasks[t].place == Held(w)
    {
      assert WorkerOk(s, w);
    }
  }

  /**
   Whether the code can get at the context in this way: as the current one of a worker, from its
   ready list, from the cache, or through a suspended task.
   */
  predicate Reaches(s: State, c: nat, o: Owner) {
    match o
    case Running(w) => w in s.workers && s.workers[w].ctx == c
    case Ready(w) => w in s.workers && c in s.workers[w].ready
    case Cached => c in s.cache
    case Parked(t) =>
      t in s.tasks && s.tasks[t].started && s.tasks[t].place != Done && !Executing(s, t) && s.tasks[t].ctx == c
  }

  /** Every context is reached in exactly one way, and nothing else is reached. */
  lemma OneOwner(s: State, c: nat)
    requires Inv(s)
    ensures forall o {:trigger Reaches(s, c, o)} :: Reaches(s, c, o) <==> c in s.contexts && s.contexts[c].owner == o
  {
    forall o: Owner
      ensures Reaches(s, c, o) <==> c in s.contexts && s.contexts[c].owner == o
    {
      assert ContextOk(s, c);
      match o
      case Running(w) => assert WorkerOk(s, w);
      case Ready(w) => assert WorkerOk(s, w);
      case Cached =>
      case Parked(t) =>
        assert TaskOk(s, t);
        if t in s.tasks && Executing(s, t) { assert WorkerOk(s, s.tasks[t].place.w); }
    }
  }

  /** Two suspended tasks never share a context. */
  lemma OwnStack(s: State, t: nat, u: nat)
    requires Inv(s) && t in s.tasks && u in s.tasks && s.tasks[t].ctx == s.tasks[u].ctx
    requires s.tasks[t].started && s.tasks[t].place != Done && s.tasks[u].started && s.tasks[u].place != Done
    ensures t == u
  {
    assert TaskOk(s, t) && TaskOk(s, u);
    if Executing(s, t) { assert WorkerOk(s, s.tasks[t].place.w); }
    if Executing(s, u) { assert WorkerOk(s, s.tasks[u].place.w); }
  }

  /** drop_task transfers control to a context that continues in the scheduler loop. */
  lemma DropsIntoLoop(s: State, w: nat, waits: bool, spare: nat)
    requires Inv(s) && Enabled(s, Drop(w, waits, spare))
    ensures var n := Neutral(s, w, spare); n in s.contexts ==> s.contexts[n].saved == Loop && n != s.workers[w].ctx
  {
    assert WorkerOk(s, w);
  }

  /**
   The context that takes over is the last one made ready on this worker, or else the last one cached, or
   else a new one; a context that gives way to a resumed task is made ready last.
   */
  lemma ReadyOrder(s: State, w: nat, waits: bool, spare: nat)
    requires w in s.workers
    ensures Enabled(s, Drop(w, waits, spare)) ==>
              var x, x' := s.workers[w], Do(s, Drop(w, waits, spare)).workers[w];
              if x.ready != [] then x.ready == x'.ready + [x'.ctx] && Do(s, Drop(w, waits, spare)).cache == s.cache
              else if s.cache != [] then x'.ready == [] && s.cache == Do(s, Drop(w, waits, spare)).cache + [x'.ctx]
              else x'.ready == [] && x'.ctx == spare && spare !in s.contexts
    ensures Enabled(s, Resume(w)) ==>
              var x, x' := s.workers[w], Do(s, Resume(w)).workers[w];
              x'.ready == x.ready + [x.ctx] && x'.ctx == s.tasks[x.task].ctx
  {
  }

  /** Task::run returns the worker that really finished the task. */
  lemma FinishesAtHome(s: State, w: nat)
    requires Inv(s) && Enabled(s, Finish(w))
    ensures s.tasks[s.workers[w].task].home == w && s.tasks[s.workers[w].task].ctx == s.workers[w].ctx
  {
    assert WorkerOk(s, w);
  }
}
