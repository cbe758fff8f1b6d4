/** How tasks wait for triggerables, with every lock-protected step on its own. */
module WaitProtocol {
  // The thread that waits on behalf of task `c` is identified by `c`, since it holds the task's
  // lock, and the thread that triggers `t` by `t`; so any number of threads take part. A triggerable
  // is either two-phase (fires once, for all its clients) or the wait object of a mutex (hands over
  // to one client).

  import opened Options

  datatype Mode = Running | Waiting | Suspended

  /**
   Where Task::wait is. It holds the task's lock except when Outside, and the synchronizer's lock
   while Registering or Adding.
   */
  datatype Phase =
    | Outside
    | Entering(todo: seq<nat>)
    | Registering(todo: seq<nat>)
    | Adding(t: nat, todo: seq<nat>)
    | Returning

  /** Who holds the lock of a synchronizer. */
  datatype Holder = Nobody | Waiter | Signaller(t: nat)

  /** `wanted` is what the latest wait was for, less the mutexes released since. */
  datatype Task = Task(mode: Mode, phase: Phase, deps: set<nat>, sync: Holder, wanted: set<nat>)

  /**
   Where the triggering is. It holds the triggerable's lock except when Quiet, and the lock of the
   client `rest[0]` from Removing to Leaving.
   */
  datatype Round =
    | Quiet
    | Signalling(rest: seq<nat>)
    | Removing(rest: seq<nat>)
    | Notifying(rest: seq<nat>)
    | Leaving(rest: seq<nat>)

  /**
   `open` means that nobody has to wait. For a mutex, `inside` are the tasks that were let in, by
   must_wait or by a signal, and have not released since, and `owner` is who got or will get it;
   the code has neither.
   */
  datatype Trig = Trig(
    mutex: bool, open: bool, clients: seq<nat>, round: Round, owner: Option<nat>, inside: set<nat>)

  datatype State = State(tasks: map<nat, Task>, trigs: map<nat, Trig>)

  datatype Step =
    | Enter(c: nat, todo: seq<nat>)
    | LockSync(c: nat)
    | Register(c: nat)
    | Add(c: nat)
    | UnlockSync(c: nat)
    | SetWaiting(c: nat)
    | Fire(t: nat)
    | Release(c: nat, t: nat)
    | LockClient(t: nat)
    | Remove(t: nat)
    | Notify(t: nat)
    | Leave(t: nat)
    | End(t: nat)
    | Schedule(c: nat)
    | Yield(c: nat)

  predicate Unique(s: seq<nat>) {
    forall i, j :: 0 <= i < j < |s| ==> s[i] != s[j]
  }

  /** The steps that a thread may take next. */
  predicate Enabled(s: State, a: Step) {
    match a
    case Enter(c, todo) =>
      && c in s.tasks && s.tasks[c].mode == Running && s.tasks[c].phase == Outside
      && Unique(todo) && forall i :: 0 <= i < |todo| ==> todo[i] in s.trigs
    case LockSync(c) =>
      c in s.tasks && s.tasks[c].phase.Entering? && s.tasks[c].sync == Nobody
    case Register(c) =>
      && c in s.tasks && s.tasks[c].phase.Registering? && s.tasks[c].phase.todo != []
      && var t := s.tasks[c].phase.todo[0]; t in s.trigs && s.trigs[t].round == Quiet
    case Add(c) =>
      c in s.tasks && s.tasks[c].phase.Adding?
    case UnlockSync(c) =>
      c in s.tasks && s.tasks[c].phase == Registering([])
    case SetWaiting(c) =>
      c in s.tasks && s.tasks[c].phase == Returning
    case Fire(t) =>
      t in s.trigs && !s.trigs[t].mutex && !s.trigs[t].open && s.trigs[t].round == Quiet
    case Release(c, t) =>
      && t in s.trigs && s.trigs[t].mutex && s.trigs[t].round == Quiet && c in s.trigs[t].inside
      && c in s.tasks && s.tasks[c].mode == Running && s.tasks[c].phase == Outside
    case LockClient(t) =>
      && t in s.trigs && s.trigs[t].round.Signalling? && s.trigs[t].round.rest != []
      && var c := s.trigs[t].round.rest[0]; c in s.tasks && s.tasks[c].sync == Nobody
    case Remove(t) =>
      && t in s.trigs && s.trigs[t].round.Removing?
      && s.trigs[t].round.rest != [] && s.trigs[t].round.rest[0] in s.tasks
    case Notify(t) =>
      && t in s.trigs && s.trigs[t].round.Notifying? && s.trigs[t].round.rest != []
      && var c := s.trigs[t].round.rest[0]; c in s.tasks && s.tasks[c].phase == Outside
    case Leave(t) =>
      && t in s.trigs && s.trigs[t].round.Leaving?
      && s.trigs[t].round.rest != [] && s.trigs[t].round.rest[0] in s.tasks
    case End(t) =>
      t in s.trigs && s.trigs[t].round == Signalling([])
    case Schedule(c) =>
      c in s.tasks && s.tasks[c].mode == Suspended && s.tasks[c].phase == Outside
    case Yield(c) =>
      c in s.tasks && s.tasks[c].mode == Running && s.tasks[c].phase == Outside
  }

  function Client(s: State, t: nat): nat
    requires t in s.trigs && !s.trigs[t].round.Quiet? && s.trigs[t].round.rest != []
  {
    s.trigs[t].round.rest[0]
  }

  function PutTask(s: State, c: nat, x: Task): State { s.(tasks := s.tasks[c := x]) }

  function PutTrig(s: State, t: nat, x: Trig): State { s.(trigs := s.trigs[t := x]) }

  /** What the step does. */
  function Do(s: State, a: Step): State
    requires Enabled(s, a)
  {
    match a
    case Enter(c, todo) =>
      PutTask(s, c, s.tasks[c].(phase := Entering(todo), wanted := set t | t in todo))
    case LockSync(c) =>
      PutTask(s, c, s.tasks[c].(phase := Registering(s.tasks[c].phase.todo), sync := Waiter))
    case Register(c) =>
      var t, rest := s.tasks[c].phase.todo[0], s.tasks[c].phase.todo[1..];
      var x := s.trigs[t];
      if x.open then
        var s1 := PutTask(s, c, s.tasks[c].(phase := Registering(rest)));
        if x.mutex then PutTrig(s1, t, x.(open := false, owner := Some(c), inside := x.inside + {c})) else s1
      else
        PutTrig(PutTask(s, c, s.tasks[c].(phase := Adding(t, rest))), t, x.(clients := x.clients + [c]))
    case Add(c) =>
      var x := s.tasks[c];
      PutTask(s, c, x.(deps := x.deps + {x.phase.t}, phase := Registering(x.phase.todo)))
    case UnlockSync(c) =>
      var x := s.tasks[c];
      PutTask(s, c, x.(sync := Nobody, phase := if x.deps == {} then Outside else Returning))
    case SetWaiting(c) =>
      PutTask(s, c, s.tasks[c].(mode := Waiting, phase := Outside))
    case Fire(t) =>
      PutTrig(s, t, s.trigs[t].(open := true, round := Signalling(s.trigs[t].clients)))
    case Release(c, t) =>
      var x := s.trigs[t].(inside := s.trigs[t].inside - {c});
      PutTrig(PutTask(s, c, s.tasks[c].(wanted := s.tasks[c].wanted - {t})), t,
              if x.clients == [] then x.(open := true, owner := None)
              else x.(clients := x.clients[1..], round := Signalling([x.clients[0]]), owner := Some(x.clients[0])))
    case LockClient(t) =>
      var c, x := Client(s, t), s.trigs[t];
      PutTrig(PutTask(s, c, s.tasks[c].(sync := Signaller(t))), t, x.(round := Removing(x.round.rest)))
    case Remove(t) =>
      var c, x := Client(s, t), s.trigs[t];
      var deps := s.tasks[c].deps - {t};
      PutTrig(PutTask(s, c, s.tasks[c].(deps := deps)), t,
              x.(round := if deps == {} then Notifying(x.round.rest) else Leaving(x.round.rest),
                 inside := if x.mutex then x.inside + {c} else x.inside))
    case Notify(t) =>
      var c, x := Client(s, t), s.trigs[t];
      PutTrig(PutTask(s, c, s.tasks[c].(mode := Suspended)), t, x.(round := Leaving(x.round.rest)))
    case Leave(t) =>
      var c, x := Client(s, t), s.trigs[t];
      PutTrig(PutTask(s, c, s.tasks[c].(sync := Nobody)), t, x.(round := Signalling(x.round.rest[1..])))
    case End(t) =>
      var x := s.trigs[t];
      PutTrig(s, t, x.(round := Quiet, clients := if x.mutex then x.clients else []))
    case Schedule(c) =>
      PutTask(s, c, s.tasks[c].(mode := Running))
    case Yield(c) =>
      PutTask(s, c, s.tasks[c].(mode := Suspended))
  }

  // ----- the invariant -----

  /** The clients of `t` that are still to be signalled. */
  function Unsignalled(x: Trig): seq<nat> {
    var kept := if x.mutex || x.round == Quiet then x.clients else [];
    match x.round
    case Quiet => kept
    case Signalling(rest) => rest + kept
    case Removing(rest) => rest + kept
    case Notifying(rest) => rest[if rest == [] then 0 else 1..] + kept
    case Leaving(rest) => rest[if rest == [] then 0 else 1..] + kept
  }

  predicate Notified(s: State, c: nat, t: nat) {
    t in s.trigs && s.trigs[t].round.Notifying? && s.trigs[t].round.rest != [] && s.trigs[t].round.rest[0] == c
  }

  predicate TaskOk(s: State, c: nat) {
    c in s.tasks ==>
      var x := s.tasks[c];
      && (x.phase != Outside ==> x.mode == Running)
      && (x.sync == Waiter <==> x.phase.Registering? || x.phase.Adding?)
      && (x.phase.Entering? || (x.phase == Outside && x.mode != Waiting) ==> x.deps == {})
      && (x.phase == Returning || x.mode == Waiting ==>
            (x.deps == {} <==> x.sync.Signaller? && Notified(s, c, x.sync.t)))
      && (x.sync.Signaller? ==>
            && x.sync.t in s.trigs
            && var r := s.trigs[x.sync.t].round;
            && (r.Removing? || r.Notifying? || r.Leaving?) && r.rest != [] && r.rest[0] == c)
      && (x.phase.Entering? || x.phase.Registering? || x.phase.Adding? ==>
            Unique(x.phase.todo) && forall i :: 0 <= i < |x.phase.todo| ==> x.phase.todo[i] in s.trigs)
      && (x.phase.Adding? ==> x.phase.t in s.trigs && x.phase.t !in x.phase.todo)
  }

  predicate TrigOk(s: State, t: nat) {
    t in s.trigs ==> Shape(s.trigs[t]) && Served(s, t)
  }

  /** What holds of a triggerable on its own. */
  predicate Shape(x: Trig) {
    && Unique(Unsignalled(x))
    && (x.round.Removing? || x.round.Notifying? || x.round.Leaving? ==>
          x.round.rest != [] && (x.round.Removing? || x.round.rest[0] !in Unsignalled(x)))
    && (!x.mutex && x.round != Quiet ==> x.open)
    && (x.open && x.round == Quiet ==> x.clients == [])
    && (x.mutex ==> MutexOk(x))
  }

  /** Its clients are tasks, and the one that is being signalled is ready for that. */
  predicate Served(s: State, t: nat)
    requires t in s.trigs && Shape(s.trigs[t])
  {
    var x := s.trigs[t];
    && (forall i :: 0 <= i < |Unsignalled(x)| ==> Unsignalled(x)[i] in s.tasks)
    && (x.round.Removing? || x.round.Notifying? || x.round.Leaving? ==>
          x.round.rest[0] in s.tasks && s.tasks[x.round.rest[0]].sync == Signaller(t))
    && (x.round.Notifying? ==>
          var y := s.tasks[x.round.rest[0]]; y.deps == {} && (y.phase == Returning || y.mode == Waiting))
  }

  /** The mutex was released to a client that is still to be let in. */
  predicate HandedOver(x: Trig) {
    (x.round.Signalling? || x.round.Removing?) && x.round.rest != []
  }

  predicate MutexOk(x: Trig) {
    && (x.open <==> x.owner == None)
    && (x.round != Quiet ==> !x.open && |x.round.rest| <= 1)
    && (x.round != Quiet && x.round.rest != [] ==> x.owner == Some(x.round.rest[0]))
    && x.inside == if x.owner == None || HandedOver(x) then {} else {x.owner.value}
  }

  /** Who is inside, as a sequence of at most one. */
  function Within(x: Trig): seq<nat> { if x.owner == None || HandedOver(x) then [] else [x.owner.value] }

  predicate AddingTo(x: Task, t: nat) { x.phase.Adding? && x.phase.t == t }

  /** Once it is through with registering, a task depends on exactly the triggerables that still have to signal it. */
  predicate LinkOk(s: State, c: nat, t: nat) {
    c in s.tasks ==>
      var x := s.tasks[c];
      if t in s.trigs then
        && (t in x.deps <==> c in Unsignalled(s.trigs[t]) && !AddingTo(x, t))
        && (AddingTo(x, t) ==> c in Unsignalled(s.trigs[t]))
        && ((x.phase.Registering? || x.phase.Adding?) && t in x.phase.todo ==> c !in Unsignalled(s.trigs[t]))
      else t !in x.deps
  }

  predicate ToDo(p: Phase, t: nat) {
    (p.Entering? || p.Registering? || p.Adding?) && t in p.todo
  }

  /** What the task waits for, it still has to register for, or it will be signalled, or it has got it. */
  predicate WantOk(s: State, c: nat, t: nat) {
    c in s.tasks && t in s.tasks[c].wanted ==>
      && t in s.trigs
      && var x := s.trigs[t];
      ToDo(s.tasks[c].phase, t) || c in Unsignalled(x) || if x.mutex then c in x.inside else x.open
  }

  ghost predicate Inv(s: State) {
    && (forall c {:trigger TaskOk(s, c)} :: TaskOk(s, c))
    && (forall t {:trigger TrigOk(s, t)} :: TrigOk(s, t))
    && (forall c, t {:trigger LinkOk(s, c, t)} :: LinkOk(s, c, t))
    && (forall c, t {:trigger WantOk(s, c, t)} :: WantOk(s, c, t))
  }

  // ----- every step keeps the invariant -----

  lemma EnterInv(s: State, c: nat, todo: seq<nat>)
    requires Inv(s) && Enabled(s, Enter(c, todo))
    ensures Inv(Do(s, Enter(c, todo)))
  {
    var s' := Do(s, Enter(c, todo));
    forall d: nat ensures TaskOk(s', d) { assert TaskOk(s, d); }
    forall u: nat ensures TrigOk(s', u) { assert TrigOk(s, u); }
    forall d: nat, u: nat ensures LinkOk(s', d, u) { assert LinkOk(s, d, u); }
    forall d: nat, u: nat ensures WantOk(s', d, u) { assert WantOk(s, d, u); }
  }

  lemma LockSyncInv(s: State, c: nat)
    requires Inv(s) && Enabled(s, LockSync(c))
    ensures Inv(Do(s, LockSync(c)))
  {
    var s' := Do(s, LockSync(c));
    forall d: nat ensures TaskOk(s', d) { assert TaskOk(s, d); }
    forall u: nat ensures TrigOk(s', u) { assert TrigOk(s, u); }
    forall d: nat, u: nat ensures LinkOk(s', d, u) { assert LinkOk(s, d, u) && TaskOk(s, d); }
    forall d: nat, u: nat ensures WantOk(s', d, u) { assert WantOk(s, d, u); }
  }

  lemma RegisterInv(s: State, c: nat)
    requires Inv(s) && Enabled(s, Register(c))
    ensures Inv(Do(s, Register(c)))
  {
    var s' := Do(s, Register(c));
    var todo := s.tasks[c].phase.todo;
    assert TaskOk(s, c);
    TailUnique(todo);
    forall d: nat ensures TaskOk(s', d) { assert TaskOk(s, d); }
    assert TrigOk(s, todo[0]) && LinkOk(s, c, todo[0]);
    RegisterTrig(s.trigs[todo[0]], c);
    forall u: nat ensures TrigOk(s', u) { assert TrigOk(s, u); }
    forall d: nat, u: nat
      ensures LinkOk(s', d, u)
    {
      assert LinkOk(s, d, u) && TaskOk(s, d);
    }
    forall d: nat, u: nat ensures WantOk(s', d, u) { RegisterWant(s, c, d, u); }
  }

  lemma RegisterTrig(x: Trig, c: nat)
    requires Shape(x) && x.round == Quiet && c !in x.clients
    ensures Unsignalled(x) == x.clients
    ensures x.open && x.mutex ==> Shape(x.(open := false, owner := Some(c), inside := x.inside + {c}))
    ensures !x.open ==>
              var x' := x.(clients := x.clients + [c]); Shape(x') && Unsignalled(x') == x.clients + [c]
  {
    AppendUnique(x.clients, c);
  }

  lemma RegisterWant(s: State, c: nat, d: nat, u: nat)
    requires Enabled(s, Register(c)) && WantOk(s, d, u)
    ensures WantOk(Do(s, Register(c)), d, u)
  {
    var t := s.tasks[c].phase.todo[0];
    var x, x' := s.trigs[t], Do(s, Register(c)).trigs[t];
    assert !x.open && d in Unsignalled(x) ==> d in Unsignalled(x');
  }

  lemma TailUnique(s: seq<nat>)
    requires Unique(s) && s != []
    ensures Unique(s[1..]) && s[0] !in s[1..] && forall x :: x in s <==> x == s[0] || x in s[1..]
  {
  }

  lemma AppendUnique(s: seq<nat>, x: nat)
    ensures Unique(s) && x !in s ==> Unique(s + [x])
  {
  }

  lemma AddInv(s: State, c: nat)
    requires Inv(s) && Enabled(s, Add(c))
    ensures Inv(Do(s, Add(c)))
  {
    var s' := Do(s, Add(c));
    assert TaskOk(s, c);
    forall d: nat ensures TaskOk(s', d) { assert TaskOk(s, d); }
    forall u: nat ensures TrigOk(s', u) { assert TrigOk(s, u); }
    forall d: nat, u: nat ensures LinkOk(s', d, u) { assert LinkOk(s, d, u) && TaskOk(s, d); }
    forall d: nat, u: nat ensures WantOk(s', d, u) { assert WantOk(s, d, u); }
  }

  lemma UnlockSyncInv(s: State, c: nat)
    requires Inv(s) && Enabled(s, UnlockSync(c))
    ensures Inv(Do(s, UnlockSync(c)))
  {
    var s' := Do(s, UnlockSync(c));
    forall d: nat ensures TaskOk(s', d) { assert TaskOk(s, d); }
    forall u: nat ensures TrigOk(s', u) { assert TrigOk(s, u) && TaskOk(s, c); }
    forall d: nat, u: nat ensures LinkOk(s', d, u) { assert LinkOk(s, d, u); }
    forall d: nat, u: nat ensures WantOk(s', d, u) { assert WantOk(s, d, u); }
  }

  lemma SetWaitingInv(s: State, c: nat)
    requires Inv(s) && Enabled(s, SetWaiting(c))
    ensures s.tasks[c].mode == Running
    ensures Inv(Do(s, SetWaiting(c)))
  {
    var s' := Do(s, SetWaiting(c));
    assert TaskOk(s, c);
    forall d: nat ensures TaskOk(s', d) { assert TaskOk(s, d); }
    forall u: nat ensures TrigOk(s', u) { assert TrigOk(s, u); }
    forall d: nat, u: nat ensures LinkOk(s', d, u) { assert LinkOk(s, d, u); }
    forall d: nat, u: nat ensures WantOk(s', d, u) { assert WantOk(s, d, u); }
  }

  lemma ModeInv(s: State, a: Step)
    requires Inv(s) && Enabled(s, a) && (a.Schedule? || a.Yield?)
    ensures Inv(Do(s, a))
  {
    var s' := Do(s, a);
    forall d: nat ensures TaskOk(s', d) { assert TaskOk(s, d); }
    forall u: nat ensures TrigOk(s', u) { assert TrigOk(s, u); }
    forall d: nat, u: nat ensures LinkOk(s', d, u) { assert LinkOk(s, d, u); }
    forall d: nat, u: nat ensures WantOk(s', d, u) { assert WantOk(s, d, u); }
  }

  lemma FireInv(s: State, t: nat)
    requires Inv(s) && Enabled(s, Fire(t))
    ensures Inv(Do(s, Fire(t)))
  {
    var s' := Do(s, Fire(t));
    assert TrigOk(s, t) && Unsignalled(s'.trigs[t]) == Unsignalled(s.trigs[t]);
    forall d: nat ensures TaskOk(s', d) { assert TaskOk(s, d); }
    forall u: nat ensures TrigOk(s', u) { assert TrigOk(s, u); }
    forall d: nat, u: nat ensures LinkOk(s', d, u) { assert LinkOk(s, d, u); }
    forall d: nat, u: nat ensures WantOk(s', d, u) { assert WantOk(s, d, u); }
  }

  lemma ReleaseInv(s: State, c: nat, t: nat)
    requires Inv(s) && Enabled(s, Release(c, t))
    ensures Inv(Do(s, Release(c, t)))
  {
    var s' := Do(s, Release(c, t));
    assert TrigOk(s, t);
    ReleaseTrig(s, c, t);
    forall d: nat ensures TaskOk(s', d) { assert TaskOk(s, d); }
    forall u: nat ensures TrigOk(s', u) { assert TrigOk(s, u); }
    forall d: nat, u: nat ensures LinkOk(s', d, u) { assert LinkOk(s, d, u); }
    forall d: nat, u: nat ensures WantOk(s', d, u) { ReleaseWant(s, c, t, d, u); }
  }

  lemma ReleaseTrig(s: State, c: nat, t: nat)
    requires Enabled(s, Release(c, t)) && Shape(s.trigs[t])
    ensures var s' := Do(s, Release(c, t));
            Unsignalled(s'.trigs[t]) == Unsignalled(s.trigs[t]) && Shape(s'.trigs[t])
  {
  }

  lemma ReleaseWant(s: State, c: nat, t: nat, d: nat, u: nat)
    requires Enabled(s, Release(c, t)) && Shape(s.trigs[t]) && WantOk(s, d, u)
    ensures WantOk(Do(s, Release(c, t)), d, u)
  {
    ReleaseTrig(s, c, t);
  }

  lemma LockClientInv(s: State, t: nat)
    requires Inv(s) && Enabled(s, LockClient(t))
    ensures Inv(Do(s, LockClient(t)))
  {
    var s' := Do(s, LockClient(t));
    var c := Client(s, t);
    assert TrigOk(s, t) && TaskOk(s, c) && LinkOk(s, c, t);
    forall d: nat ensures TaskOk(s', d) { assert TaskOk(s, d); }
    forall u: nat ensures TrigOk(s', u) { assert TrigOk(s, u); }
    forall d: nat, u: nat ensures LinkOk(s', d, u) { assert LinkOk(s, d, u); }
    forall d: nat, u: nat ensures WantOk(s', d, u) { assert WantOk(s, d, u); }
  }

  lemma RemoveInv(s: State, t: nat)
    requires Inv(s) && Enabled(s, Remove(t))
    ensures t in s.tasks[Client(s, t)].deps
    ensures Inv(Do(s, Remove(t)))
  {
    var s' := Do(s, Remove(t));
    assert TrigOk(s, t) && TaskOk(s, Client(s, t)) && LinkOk(s, Client(s, t), t);
    forall d: nat ensures TaskOk(s', d) { assert TaskOk(s, d); }
    forall u: nat ensures TrigOk(s', u) { RemoveServed(s, t, u); }
    forall d: nat, u: nat ensures LinkOk(s', d, u) { RemoveLink(s, t, d, u); }
    forall d: nat, u: nat
      ensures WantOk(s', d, u)
    {
      assert WantOk(s, d, u);
      RemoveWant(s, t, d, u);
    }
  }

  lemma RemoveServed(s: State, t: nat, u: nat)
    requires Inv(s) && Enabled(s, Remove(t))
    ensures TrigOk(Do(s, Remove(t)), u)
  {
    assert TrigOk(s, t) && TrigOk(s, u) && TaskOk(s, Client(s, t)) && LinkOk(s, Client(s, t), t);
    if u == t { RemoveOwn(s, t); } else { RemoveOther(s, t, u); }
  }

  lemma RemoveOwn(s: State, t: nat)
    requires Enabled(s, Remove(t)) && TrigOk(s, t) && TaskOk(s, Client(s, t)) && LinkOk(s, Client(s, t), t)
    ensures TrigOk(Do(s, Remove(t)), t)
  {
    RemoveTrig(s, t);
  }

  /** A triggerable that is signalling another client does not notice. */
  lemma RemoveOther(s: State, t: nat, u: nat)
    requires Enabled(s, Remove(t)) && TrigOk(s, t) && TrigOk(s, u) && u != t
    ensures TrigOk(Do(s, Remove(t)), u)
  {
  }

  lemma RemoveTrig(s: State, t: nat)
    requires Enabled(s, Remove(t)) && Shape(s.trigs[t])
    ensures var x, x' := s.trigs[t], Do(s, Remove(t)).trigs[t];
            && Shape(x') && Unsignalled(x) == [Client(s, t)] + Unsignalled(x') && Unsignalled(x') == Unsignalled(x)[1..]
            && Client(s, t) !in Unsignalled(x')
  {
    Signalled(s.trigs[t], s.tasks[Client(s, t)].deps - {t} == {});
  }

  lemma Signalled(x: Trig, last: bool)
    requires Shape(x) && x.round.Removing?
    ensures var x' := x.(round := if last then Notifying(x.round.rest) else Leaving(x.round.rest),
                         inside := if x.mutex then x.inside + {x.round.rest[0]} else x.inside);
            && Shape(x') && Unsignalled(x') == Unsignalled(x)[1..]
            && Unsignalled(x) == [x.round.rest[0]] + Unsignalled(x')
            && x.round.rest[0] !in Unsignalled(x')
  {
    var x' := x.(round := if last then Notifying(x.round.rest) else Leaving(x.round.rest),
                 inside := if x.mutex then x.inside + {x.round.rest[0]} else x.inside);
    TailUnique(Unsignalled(x));
    assert Unsignalled(x') == Unsignalled(x)[1..];
  }

  lemma RemoveLink(s: State, t: nat, d: nat, u: nat)
    requires Inv(s) && Enabled(s, Remove(t))
    ensures LinkOk(Do(s, Remove(t)), d, u)
  {
    assert TrigOk(s, t) && TaskOk(s, Client(s, t)) && LinkOk(s, Client(s, t), t) && LinkOk(s, d, u);
    RemoveTrig(s, t);
  }

  lemma RemoveWant(s: State, t: nat, d: nat, u: nat)
    requires Enabled(s, Remove(t)) && Shape(s.trigs[t]) && WantOk(s, d, u)
    ensures WantOk(Do(s, Remove(t)), d, u)
  {
    RemoveTrig(s, t);
  }

  lemma NotifyInv(s: State, t: nat)
    requires Inv(s) && Enabled(s, Notify(t))
    ensures s.tasks[Client(s, t)].mode == Waiting && s.tasks[Client(s, t)].deps == {}
    ensures Inv(Do(s, Notify(t)))
  {
    var s' := Do(s, Notify(t));
    var c := Client(s, t);
    assert TrigOk(s, t) && TaskOk(s, c);
    forall d: nat ensures TaskOk(s', d) { assert TaskOk(s, d); }
    forall u: nat ensures TrigOk(s', u) { assert TrigOk(s, u); }
    forall d: nat, u: nat ensures LinkOk(s', d, u) { assert LinkOk(s, d, u); }
    forall d: nat, u: nat ensures WantOk(s', d, u) { assert WantOk(s, d, u); }
  }

  lemma LeaveInv(s: State, t: nat)
    requires Inv(s) && Enabled(s, Leave(t))
    ensures Inv(Do(s, Leave(t)))
  {
    var s' := Do(s, Leave(t));
    assert TrigOk(s, t) && TaskOk(s, Client(s, t));
    LeaveTrig(s.trigs[t]);
    forall d: nat ensures TaskOk(s', d) { assert TaskOk(s, d); }
    forall u: nat ensures TrigOk(s', u) { assert TrigOk(s, u); }
    forall d: nat, u: nat ensures LinkOk(s', d, u) { assert LinkOk(s, d, u); }
    forall d: nat, u: nat ensures WantOk(s', d, u) { assert WantOk(s, d, u); }
  }

  lemma LeaveTrig(x: Trig)
    requires Shape(x) && x.round.Leaving?
    ensures var x' := x.(round := Signalling(x.round.rest[1..]));
            Shape(x') && Unsignalled(x') == Unsignalled(x) && (x.mutex ==> Within(x') == Within(x))
  {
  }

  lemma EndInv(s: State, t: nat)
    requires Inv(s) && Enabled(s, End(t))
    ensures Inv(Do(s, End(t)))
  {
    var s' := Do(s, End(t));
    forall d: nat ensures TaskOk(s', d) { assert TaskOk(s, d) && TrigOk(s, t); }
    forall u: nat ensures TrigOk(s', u) { EndServed(s, t, u); }
    forall d: nat, u: nat ensures LinkOk(s', d, u) && WantOk(s', d, u) { EndLink(s, t, d, u); }
  }

  lemma EndServed(s: State, t: nat, u: nat)
    requires Inv(s) && Enabled(s, End(t))
    ensures TrigOk(Do(s, End(t)), u)
  {
    assert TrigOk(s, u);
    if u == t { EndTrig(s.trigs[t]); }
  }

  lemma EndLink(s: State, t: nat, d: nat, u: nat)
    requires Inv(s) && Enabled(s, End(t))
    ensures LinkOk(Do(s, End(t)), d, u) && WantOk(Do(s, End(t)), d, u)
  {
    assert TrigOk(s, t) && LinkOk(s, d, u) && WantOk(s, d, u);
    EndTrig(s.trigs[t]);
  }

  lemma EndTrig(x: Trig)
    requires Shape(x) && x.round == Signalling([])
    ensures var x' := x.(round := Quiet, clients := if x.mutex then x.clients else []);
            Shape(x') && Unsignalled(x') == Unsignalled(x) && Within(x') == Within(x)
  {
    assert Unsignalled(x.(round := Quiet, clients := if x.mutex then x.clients else [])) == Unsignalled(x);
  }

  lemma StepInv(s: State, a: Step)
    requires Inv(s) && Enabled(s, a)
    ensures Inv(Do(s, a))
  {
    match a
    case Enter(c, todo) => EnterInv(s, c, todo);
    case LockSync(c) => LockSyncInv(s, c);
    case Register(c) => RegisterInv(s, c);
    case Add(c) => AddInv(s, c);
    case UnlockSync(c) => UnlockSyncInv(s, c);
    case SetWaiting(c) => SetWaitingInv(s, c);
    case Fire(t) => FireInv(s, t);
    case Release(c, t) => ReleaseInv(s, c, t);
    case LockClient(t) => LockClientInv(s, t);
    case Remove(t) => RemoveInv(s, t);
    case Notify(t) => NotifyInv(s, t);
    case Leave(t) => LeaveInv(s, t);
    case End(t) => EndInv(s, t);
    case Schedule(c) => ModeInv(s, a);
    case Yield(c) => ModeInv(s, a);
  }

  // ----- runs -----

  /** Nobody waits, no mutex is locked, and no trigger is under way. */
  ghost predicate Init(s: State) {
    && (forall c :: c in s.tasks ==>
          && s.tasks[c].mode != Waiting && s.tasks[c].phase == Outside && s.tasks[c].sync == Nobody
          && s.tasks[c].deps == {} && s.tasks[c].wanted == {})
    && (forall t :: t in s.trigs ==>
          && s.trigs[t].clients == [] && s.trigs[t].round == Quiet && s.trigs[t].owner == None
          && s.trigs[t].inside == {} && (s.trigs[t].mutex ==> s.trigs[t].open))
  }

  lemma InitInv(s: State)
    requires Init(s)
    ensures Inv(s)
  {
    forall c: nat ensures TaskOk(s, c) {}
    forall t: nat ensures TrigOk(s, t) {}
    forall c: nat, t: nat ensures LinkOk(s, c, t) && WantOk(s, c, t) {}
  }

  /** Any interleaving of steps. */
  predicate Run(s: State, steps: seq<Step>)
    decreases |steps|
  {
    steps != [] ==> Enabled(s, steps[0]) && Run(Do(s, steps[0]), steps[1..])
  }

  function After(s: State, steps: seq<Step>): State
    requires Run(s, steps)
    decreases |steps|
  {
    if steps == [] then s else After(Do(s, steps[0]), steps[1..])
  }

  lemma {:induction false} RunInv(s: State, steps: seq<Step>)
    requires Inv(s) && Run(s, steps)
    ensures Inv(After(s, steps))
    decreases |steps|
  {
    if steps != [] {
      StepInv(s, steps[0]);
      RunInv(Do(s, steps[0]), steps[1..]);
    }
  }

  /**
   A waiting task depends on exactly the triggerables that will signal it; when it depends on none,
   one thread is about to notify it.
   */
  lemma NoLostWakeup(s: State, c: nat)
    requires Inv(s) && c in s.tasks && s.tasks[c].mode == Waiting
    ensures forall t :: t in s.tasks[c].deps <==> t in s.trigs && c in Unsignalled(s.trigs[t])
    ensures s.tasks[c].deps == {} ==>
              && s.tasks[c].sync.Signaller?
              && forall t: nat {:trigger Notified(s, c, t)} :: Notified(s, c, t) <==> s.tasks[c].sync == Signaller(t)
    ensures forall t :: t in s.tasks[c].deps && s.trigs[t].round == Quiet ==> !s.trigs[t].open
  {
    assert TaskOk(s, c);
    forall t: nat
      ensures t in s.tasks[c].deps <==> t in s.trigs && c in Unsignalled(s.trigs[t])
      ensures t in s.tasks[c].deps && s.trigs[t].round == Quiet ==> !s.trigs[t].open
      ensures Notified(s, c, t) ==> s.tasks[c].sync == Signaller(t)
    {
      assert LinkOk(s, c, t) && TrigOk(s, t);
    }
  }

  /** A task stops waiting by being notified, after its last dependency is gone, and in no other way. */
  lemma WokenByNotify(s: State, a: Step, c: nat)
    requires Inv(s) && Enabled(s, a) && c in s.tasks
    ensures c in Do(s, a).tasks
    ensures s.tasks[c].mode == Waiting && Do(s, a).tasks[c].mode != Waiting <==> a.Notify? && Client(s, a.t) == c
    ensures s.tasks[c].mode != Waiting && Do(s, a).tasks[c].mode == Waiting <==> a == SetWaiting(c)
    ensures a.Notify? && Client(s, a.t) == c ==> s.tasks[c].deps == {} && Do(s, a).tasks[c].mode == Suspended
    ensures s.tasks[c].mode != Running && Do(s, a).tasks[c].mode == Running <==> a == Schedule(c)
  {
    assert TaskOk(s, c);
    if a.Notify? { NotifyInv(s, a.t); }
  }

  function Waits(steps: seq<Step>, c: nat): nat {
    if steps == [] then 0 else (if steps[0] == SetWaiting(c) then 1 else 0) + Waits(steps[1..], c)
  }

  function Notifies(s: State, steps: seq<Step>, c: nat): nat
    requires Run(s, steps)
    decreases |steps|
  {
    if steps == [] then 0
    else (if steps[0].Notify? && Client(s, steps[0].t) == c then 1 else 0) + Notifies(Do(s, steps[0]), steps[1..], c)
  }

  function IsWaiting(s: State, c: nat): nat { if c in s.tasks && s.tasks[c].mode == Waiting then 1 else 0 }

  /** In every run, each wait that blocks is ended by exactly one notify, except one that still lasts. */
  lemma {:induction false} NotifiedOnce(s: State, steps: seq<Step>, c: nat)
    requires Inv(s) && Run(s, steps) && c in s.tasks
    ensures IsWaiting(s, c) + Waits(steps, c) == Notifies(s, steps, c) + IsWaiting(After(s, steps), c)
    decreases |steps|
  {
    if steps != [] {
      StepInv(s, steps[0]);
      WokenByNotify(s, steps[0], c);
      NotifiedOnce(Do(s, steps[0]), steps[1..], c);
    }
  }

  /** When a wait is over, everything it was for has triggered, and the mutexes among it belong to the task. */
  lemma WaitReturns(s: State, c: nat, t: nat)
    requires Inv(s) && c in s.tasks && s.tasks[c].mode != Waiting && s.tasks[c].phase == Outside
    requires t in s.tasks[c].wanted
    ensures t in s.trigs && if s.trigs[t].mutex then s.trigs[t].inside == {c} else s.trigs[t].open
  {
    assert TaskOk(s, c) && LinkOk(s, c, t) && WantOk(s, c, t) && TrigOk(s, t);
  }

  /** What a wait is for changes only when the task waits again, or releases it. */
  lemma WantedStep(s: State, a: Step, c: nat, t: nat)
    requires Enabled(s, a) && c in s.tasks && t in s.tasks[c].wanted
    requires a != Release(c, t) && !(a.Enter? && a.c == c)
    ensures c in Do(s, a).tasks && t in Do(s, a).tasks[c].wanted
  {
  }

  lemma {:induction false} WantedStays(s: State, steps: seq<Step>, c: nat, t: nat)
    requires Run(s, steps) && c in s.tasks && t in s.tasks[c].wanted
    requires forall i :: 0 <= i < |steps| ==> steps[i] != Release(c, t) && !(steps[i].Enter? && steps[i].c == c)
    ensures c in After(s, steps).tasks && t in After(s, steps).tasks[c].wanted
    decreases |steps|
  {
    if steps != [] {
      WantedStep(s, steps[0], c, t);
      WantedStays(Do(s, steps[0]), steps[1..], c, t);
    }
  }

  /**
   A wait that was called with a list returns, in every run, only when everything on the list has
   triggered and the mutexes on it belong to the task.
   */
  lemma WaitDone(s: State, c: nat, todo: seq<nat>, steps: seq<Step>, t: nat)
    requires Inv(s) && Enabled(s, Enter(c, todo)) && Run(Do(s, Enter(c, todo)), steps) && t in todo
    requires forall i :: 0 <= i < |steps| ==> steps[i] != Release(c, t) && !(steps[i].Enter? && steps[i].c == c)
    ensures var f := After(Do(s, Enter(c, todo)), steps);
            && c in f.tasks
            && (f.tasks[c].phase == Outside && f.tasks[c].mode != Waiting ==>
                  t in f.trigs && if f.trigs[t].mutex then f.trigs[t].inside == {c} else f.trigs[t].open)
  {
    var s1 := Do(s, Enter(c, todo));
    EnterInv(s, c, todo);
    RunInv(s1, steps);
    WantedStays(s1, steps, c, t);
    var f := After(s1, steps);
    if f.tasks[c].phase == Outside && f.tasks[c].mode != Waiting { WaitReturns(f, c, t); }
  }

  // ----- the mutex -----

  /** Who calls lock in this step. */
  function Calling(s: State, a: Step, t: nat): seq<nat>
    requires Enabled(s, a)
  {
    if a.Register? && s.tasks[a.c].phase.todo[0] == t then [a.c] else []
  }

  /** Who is let in by this step: a caller that need not wait, or a client that is signalled. */
  function LetIn(s: State, a: Step, t: nat): seq<nat>
    requires Enabled(s, a) && t in s.trigs
  {
    if a.Register? && s.tasks[a.c].phase.todo[0] == t && s.trigs[t].open then [a.c]
    else if a == Remove(t) then [Client(s, t)] else []
  }

  function Leaves(a: Step, t: nat): seq<nat> { if a.Release? && a.t == t then [a.c] else [] }

  /** The same over a run, in order. */
  function Arrivals(s: State, steps: seq<Step>, t: nat): seq<nat>
    requires Run(s, steps)
    decreases |steps|
  {
    if steps == [] then [] else Calling(s, steps[0], t) + Arrivals(Do(s, steps[0]), steps[1..], t)
  }

  function Entrants(s: State, steps: seq<Step>, t: nat): seq<nat>
    requires Run(s, steps) && t in s.trigs
    decreases |steps|
  {
    if steps == [] then [] else LetIn(s, steps[0], t) + Entrants(Do(s, steps[0]), steps[1..], t)
  }

  /** What is on the list of a task stays there until the task calls for it. */
  lemma ToDoStep(s: State, a: Step, c: nat, t: nat)
    requires Enabled(s, a) && c in s.tasks && ToDo(s.tasks[c].phase, t) && !(a.Enter? && a.c == c)
    ensures c in Do(s, a).tasks && (ToDo(Do(s, a).tasks[c].phase, t) || Calling(s, a, t) == [c])
  {
    if a == Register(c) { assert s.tasks[c].phase.todo == [s.tasks[c].phase.todo[0]] + s.tasks[c].phase.todo[1..]; }
  }

  lemma {:induction false} CalledOrToDo(s: State, steps: seq<Step>, c: nat, t: nat)
    requires Run(s, steps) && c in s.tasks && ToDo(s.tasks[c].phase, t)
    requires forall i :: 0 <= i < |steps| ==> !(steps[i].Enter? && steps[i].c == c)
    ensures c in After(s, steps).tasks
    ensures ToDo(After(s, steps).tasks[c].phase, t) || c in Arrivals(s, steps, t)
    decreases |steps|
  {
    if steps != [] {
      ToDoStep(s, steps[0], c, t);
      if Calling(s, steps[0], t) != [c] {
        CalledOrToDo(Do(s, steps[0]), steps[1..], c, t);
      } else {
        StillThere(Do(s, steps[0]), steps[1..], c);
      }
    }
  }

  lemma {:induction false} StillThere(s: State, steps: seq<Step>, c: nat)
    requires Run(s, steps) && c in s.tasks
    ensures c in After(s, steps).tasks
    decreases |steps|
  {
    if steps != [] { StillThere(Do(s, steps[0]), steps[1..], c); }
  }

  /** A wait that returned has called for everything on its list: every lock appears among the arrivals. */
  lemma WaitCalls(s: State, c: nat, todo: seq<nat>, steps: seq<Step>, t: nat)
    requires Enabled(s, Enter(c, todo)) && Run(Do(s, Enter(c, todo)), steps) && t in todo
    requires forall i :: 0 <= i < |steps| ==> !(steps[i].Enter? && steps[i].c == c)
    ensures var s1 := Do(s, Enter(c, todo));
            && c in After(s1, steps).tasks
            && (After(s1, steps).tasks[c].phase == Outside ==> c in Arrivals(s1, steps, t))
  {
    CalledOrToDo(Do(s, Enter(c, todo)), steps, c, t);
  }

  function Exits(steps: seq<Step>, t: nat): seq<nat> {
    if steps == [] then [] else Leaves(steps[0], t) + Exits(steps[1..], t)
  }

  /** Callers queue up behind those who wait, the first of those is let in, and who is inside leaves first. */
  lemma MutexStep(s: State, a: Step, t: nat)
    requires Inv(s) && Enabled(s, a) && t in s.trigs && s.trigs[t].mutex
    ensures t in Do(s, a).trigs && Do(s, a).trigs[t].mutex
    ensures var x, x' := s.trigs[t], Do(s, a).trigs[t];
            && Unsignalled(x) + Calling(s, a, t) == LetIn(s, a, t) + Unsignalled(x')
            && Within(x) + LetIn(s, a, t) == Leaves(a, t) + Within(x')
  {
    assert TrigOk(s, t);
    match a
    case Register(c) => CallStep(s, a, t);
    case Release(c, u) => if u == t { PassStep(s, a, t); }
    case Remove(u) => if u == t { PassStep(s, a, t); }
    case LockClient(u) => if u == t { SilentStep(s, a, t); }
    case Notify(u) => if u == t { SilentStep(s, a, t); }
    case Leave(u) => if u == t { SilentStep(s, a, t); }
    case End(u) => if u == t { SilentStep(s, a, t); }
    case _ =>
  }

  lemma CallStep(s: State, a: Step, t: nat)
    requires Enabled(s, a) && a.Register? && t in s.trigs && s.trigs[t].mutex && Shape(s.trigs[t])
    ensures var x, x' := s.trigs[t], Do(s, a).trigs[t];
            && Unsignalled(x) + Calling(s, a, t) == LetIn(s, a, t) + Unsignalled(x')
            && Within(x) + LetIn(s, a, t) == Within(x')
  {
  }

  lemma PassStep(s: State, a: Step, t: nat)
    requires Enabled(s, a) && t in s.trigs && s.trigs[t].mutex && Shape(s.trigs[t])
    requires a == Remove(t) || (a.Release? && a.t == t)
    ensures Unsignalled(s.trigs[t]) == LetIn(s, a, t) + Unsignalled(Do(s, a).trigs[t])
    ensures Within(s.trigs[t]) + LetIn(s, a, t) == Leaves(a, t) + Within(Do(s, a).trigs[t])
  {
    if a.Release? { ReleaseTrig(s, a.c, t); } else { RemoveTrig(s, t); }
  }

  /** The other steps of a release let nobody in. */
  lemma SilentStep(s: State, a: Step, t: nat)
    requires Enabled(s, a) && t in s.trigs && s.trigs[t].mutex && Shape(s.trigs[t])
    requires a == LockClient(t) || a == Notify(t) || a == Leave(t) || a == End(t)
    ensures Unsignalled(s.trigs[t]) == Unsignalled(Do(s, a).trigs[t])
    ensures Within(s.trigs[t]) == Within(Do(s, a).trigs[t])
  {
    if a.Leave? { LeaveTrig(s.trigs[t]); }
    if a.End? { EndTrig(s.trigs[t]); }
  }

  /**
   Over every run, tasks are let in in the order in which they called lock, and leave in that order,
   each before the next is let in.
   */
  lemma {:induction false} MutexTurns(s: State, steps: seq<Step>, t: nat)
    requires Inv(s) && Run(s, steps) && t in s.trigs && s.trigs[t].mutex
    ensures t in After(s, steps).trigs && After(s, steps).trigs[t].mutex
    ensures var x, x' := s.trigs[t], After(s, steps).trigs[t];
            && Unsignalled(x) + Arrivals(s, steps, t) == Entrants(s, steps, t) + Unsignalled(x')
            && Within(x) + Entrants(s, steps, t) == Exits(steps, t) + Within(x')
    decreases |steps|
  {
    var x := s.trigs[t];
    if steps == [] {
      assert Unsignalled(x) + [] == [] + Unsignalled(x) && Within(x) + [] == [] + Within(x);
    } else {
      var a, s1, rest := steps[0], Do(s, steps[0]), steps[1..];
      StepInv(s, a);
      MutexStep(s, a, t);
      MutexTurns(s1, rest, t);
      var x' := After(s, steps).trigs[t];
      Chain(Unsignalled(x), Calling(s, a, t), LetIn(s, a, t), Unsignalled(s1.trigs[t]),
            Arrivals(s1, rest, t), Entrants(s1, rest, t), Unsignalled(x'));
      Chain(Within(x), LetIn(s, a, t), Leaves(a, t), Within(s1.trigs[t]),
            Entrants(s1, rest, t), Exits(rest, t), Within(x'));
    }
  }

  lemma Chain(q: seq<nat>, i: seq<nat>, o: seq<nat>, q1: seq<nat>, i1: seq<nat>, o1: seq<nat>, q2: seq<nat>)
    requires q + i == o + q1 && q1 + i1 == o1 + q2
    ensures q + (i + i1) == o + o1 + q2
  {
    assert q + (i + i1) == (q + i) + i1 == o + (q1 + i1);
  }

  /** Mutual exclusion: after every run at most one task is inside, the mutex is its own and is locked. */
  lemma MutualExclusion(s: State, steps: seq<Step>, t: nat)
    requires Init(s) && Run(s, steps) && t in s.trigs && s.trigs[t].mutex
    ensures t in After(s, steps).trigs
    ensures var x := After(s, steps).trigs[t];
            && (forall c, d :: c in x.inside && d in x.inside ==> c == d)
            && (forall c :: c in x.inside ==> x.owner == Some(c) && !x.open)
            && Entrants(s, steps, t) == Exits(steps, t) + Within(x) && (forall c :: c in x.inside <==> c in Within(x))
            && Arrivals(s, steps, t) == Entrants(s, steps, t) + Unsignalled(x)
  {
    InitInv(s);
    RunInv(s, steps);
    MutexTurns(s, steps, t);
    assert TrigOk(After(s, steps), t);
    assert Unsignalled(s.trigs[t]) == [] && Within(s.trigs[t]) == [];
    assert [] + Arrivals(s, steps, t) == Arrivals(s, steps, t) && [] + Entrants(s, steps, t) == Entrants(s, steps, t);
  }

  /** A mutex is locked exactly while it has an owner, and whenever it has waiters. */
  lemma MutexLocked(s: State, t: nat)
    requires Inv(s) && t in s.trigs && s.trigs[t].mutex
    ensures s.trigs[t].open <==> s.trigs[t].owner == None
    ensures s.trigs[t].clients != [] || s.trigs[t].round != Quiet ==> !s.trigs[t].open
  {
    assert TrigOk(s, t);
  }

  /**
   After a release with waiters, the longest waiting client is the next to be let in, and until it is,
   the mutex is locked and nobody is inside.
   */
  lemma MutexHandoff(s: State, c: nat, t: nat, steps: seq<Step>)
    requires Inv(s) && Enabled(s, Release(c, t)) && s.trigs[t].clients != []
    requires Run(Do(s, Release(c, t)), steps)
    ensures var s1, next := Do(s, Release(c, t)), s.trigs[t].clients[0];
            && t in s1.trigs && t in After(s1, steps).trigs
            && var x := After(s1, steps).trigs[t];
            if Entrants(s1, steps, t) == [] then !x.open && x.inside == {} && x.owner == Some(next)
            else Entrants(s1, steps, t)[0] == next
  {
    var s1, next := Do(s, Release(c, t)), s.trigs[t].clients[0];
    StepInv(s, Release(c, t));
    RunInv(s1, steps);
    MutexTurns(s1, steps, t);
    var x := After(s1, steps).trigs[t];
    assert TrigOk(s, t) && Unsignalled(s1.trigs[t]) == s.trigs[t].clients;
    assert (Unsignalled(s1.trigs[t]) + Arrivals(s1, steps, t))[0] == next;
    if Entrants(s1, steps, t) == [] {
      StaysHandedOver(s1, steps, t);
      assert TrigOk(After(s1, steps), t);
    }
  }

  lemma {:induction false} StaysHandedOver(s: State, steps: seq<Step>, t: nat)
    requires Inv(s) && Run(s, steps) && t in s.trigs && s.trigs[t].mutex && HandedOver(s.trigs[t])
    requires Entrants(s, steps, t) == []
    ensures t in After(s, steps).trigs
    ensures var x, x' := s.trigs[t], After(s, steps).trigs[t];
            x'.mutex && HandedOver(x') && x'.round.rest[0] == x.round.rest[0]
    decreases |steps|
  {
    if steps != [] {
      StepInv(s, steps[0]);
      MutexStep(s, steps[0], t);
      StaysHandedOver(Do(s, steps[0]), steps[1..], t);
    }
  }
}
