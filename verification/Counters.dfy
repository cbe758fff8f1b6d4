/** The lock-free counters of a scheduling domain, one atomic step at a time. */
module Counters {
  // The counters are the task count of each priority level and the level where searches start;
  // put_task and try_get_task change them one load, exchange or increment at a time.

  const WORD_SIZE: nat := 0x1_0000_0000_0000_0000

  /**
   Where a thread is. Pushed: before `count += 1`; Counted: before the load of the top level; Raising:
   in the compare-and-swap loop; Scanning and Trying: in try_get_task at a level, before and after the
   load of its count; Popped: before `count -= 1`.
   */
  datatype Pc =
    | Idle
    | Pushed(l: nat)
    | Counted(l: nat)
    | Raising(l: nat, expected: nat)
    | Scanning(l: nat)
    | Trying(l: nat)
    | Popped(l: nat)

  /** A level: how many tasks are queued, the count word, and the threads between a queue operation and its count. */
  datatype Level = Level(queued: nat, count: nat, pushed: set<nat>, popped: set<nat>)

  /** `done` holds the levels of the finished puts. */
  datatype State = State(levels: map<nat, Level>, top: nat, pcs: map<nat, Pc>, done: set<nat>)

  datatype Step =
    | Push(i: nat, l: nat)
    | Count(i: nat)
    | LoadTop(i: nat)
    | Raise(i: nat)
    | Reload(i: nat)     // the exchange failed, perhaps spuriously
    | Enough(i: nat)     // the top level is high enough
    | BeginGet(i: nat)
    | Skip(i: nat)       // the count is zero
    | Look(i: nat)       // the count is not zero
    | Pop(i: nat)
    | Miss(i: nat)       // the queues looked at were empty
    | Discount(i: nat)

  function Lower(l: nat): Pc { if l == 0 then Idle else Scanning(l - 1) }

  predicate Enabled(s: State, a: Step) {
    && a.i in s.pcs
    && var p := s.pcs[a.i];
    match a
    case Push(i, l) => p == Idle && l in s.levels
    case Count(i) => p.Pushed? && p.l in s.levels
    case LoadTop(i) => p.Counted?
    case Raise(i) => p.Raising? && p.l > p.expected && s.top == p.expected
    case Reload(i) => p.Raising? && p.l > p.expected
    case Enough(i) => p.Raising? && p.l <= p.expected
    case BeginGet(i) => p == Idle
    case Skip(i) => p.Scanning? && p.l in s.levels && s.levels[p.l].count == 0
    case Look(i) => p.Scanning? && p.l in s.levels && s.levels[p.l].count > 0
    case Pop(i) => p.Trying? && p.l in s.levels && s.levels[p.l].queued > 0
    case Miss(i) => p.Trying?
    case Discount(i) => p.Popped? && p.l in s.levels
  }

  /** `x + 1` and `x - 1` on a size_t. */
  function Increment(x: nat): nat { if x + 1 == WORD_SIZE then 0 else x + 1 }

  function Decrement(x: nat): nat { if x == 0 then WORD_SIZE - 1 else x - 1 }

  function Put(s: State, l: nat, v: Level, i: nat, p: Pc): State {
    s.(levels := s.levels[l := v], pcs := s.pcs[i := p])
  }

  function Do(s: State, a: Step): State
    requires Enabled(s, a)
  {
    var p := s.pcs[a.i];
    match a
    case Push(i, l) =>
      var v := s.levels[l];
      Put(s, l, v.(queued := v.queued + 1, pushed := v.pushed + {i}), i, Pushed(l))
    case Count(i) =>
      var v := s.levels[p.l];
      Put(s, p.l, v.(count := Increment(v.count), pushed := v.pushed - {i}), i, Counted(p.l))
    case LoadTop(i) => s.(pcs := s.pcs[i := Raising(p.l, s.top)])
    case Raise(i) => s.(top := p.l, pcs := s.pcs[i := Idle], done := s.done + {p.l})
    case Reload(i) => s.(pcs := s.pcs[i := Raising(p.l, s.top)])
    case Enough(i) => s.(pcs := s.pcs[i := Idle], done := s.done + {p.l})
    case BeginGet(i) => s.(pcs := s.pcs[i := Scanning(s.top)])
    case Skip(i) => s.(pcs := s.pcs[i := Lower(p.l)])
    case Look(i) => s.(pcs := s.pcs[i := Trying(p.l)])
    case Pop(i) =>
      var v := s.levels[p.l];
      Put(s, p.l, v.(queued := v.queued - 1, popped := v.popped + {i}), i, Popped(p.l))
    case Miss(i) => s.(pcs := s.pcs[i := Lower(p.l)])
    case Discount(i) =>
      var v := s.levels[p.l];
      Put(s, p.l, v.(count := Decrement(v.count), popped := v.popped - {i}), i, Idle)
  }

  // ----- the invariant -----

  /** The count is right but for the threads on their way, modulo the word. */
  predicate LevelOk(s: State, l: nat) {
    l in s.levels ==>
      var v := s.levels[l];
      v.count == (v.queued + |v.popped| - |v.pushed|) % WORD_SIZE
  }

  predicate PcOk(s: State, i: nat, l: nat) {
    l in s.levels ==>
      && (i in s.levels[l].pushed <==> i in s.pcs && s.pcs[i] == Pushed(l))
      && (i in s.levels[l].popped <==> i in s.pcs && s.pcs[i] == Popped(l))
  }

  ghost predicate Inv(s: State) {
    && (forall l {:trigger LevelOk(s, l)} :: LevelOk(s, l))
    && (forall i, l {:trigger PcOk(s, i, l)} :: PcOk(s, i, l))
    && (forall l :: l in s.done ==> l <= s.top)
    && (forall i :: i in s.pcs && s.pcs[i].Raising? ==> s.pcs[i].expected <= s.top)
  }

  lemma Wrap(x: int, c: nat)
    requires c == x % WORD_SIZE
    ensures Increment(c) == (x + 1) % WORD_SIZE
    ensures Decrement(c) == (x - 1) % WORD_SIZE
  {
  }

  lemma LevelInv(s: State, a: Step, l: nat)
    requires Inv(s) && Enabled(s, a)
    ensures LevelOk(Do(s, a), l)
  {
    assert LevelOk(s, l) && PcOk(s, a.i, l);
    if l in s.levels {
      var v := s.levels[l];
      Wrap(v.queued + |v.popped| - |v.pushed|, v.count);
    }
  }

  lemma StepInv(s: State, a: Step)
    requires Inv(s) && Enabled(s, a)
    ensures Inv(Do(s, a))
  {
    var s' := Do(s, a);
    forall l: nat ensures LevelOk(s', l) { LevelInv(s, a, l); }
    forall i: nat, l: nat ensures PcOk(s', i, l) { assert PcOk(s, i, l); }
  }

  lemma InitInv(s: State)
    requires forall l :: l in s.levels ==> s.levels[l] == Level(0, 0, {}, {})
    requires s.done == {} && forall i :: i in s.pcs ==> s.pcs[i] == Idle
    ensures Inv(s)
  {
    forall l: nat ensures LevelOk(s, l) {}
    forall i: nat, l: nat ensures PcOk(s, i, l) {}
  }

  // ----- runs -----

  predicate Run(s: State, steps: seq<Step>)
    decreases |steps|
  {
    steps != [] ==> Enabled(s, steps[0]) && Run(Do(s, steps[0]), steps[1..])
  }

  function After(s: State, steps: seq<Step>): State
    requires Run(s, steps)
    decreases |steps|
  {
    if steps == [] then s else After(Do(s, steps[0]), steps[1..])
  }

  /** In every run the counts stay right, the top level never sinks, and it is as high as any finished put. */
  lemma {:induction false} RunInv(s: State, steps: seq<Step>)
    requires Inv(s) && Run(s, steps)
    ensures Inv(After(s, steps)) && After(s, steps).top >= s.top && After(s, steps).done >= s.done
    decreases |steps|
  {
    if steps != [] {
      StepInv(s, steps[0]);
      RunInv(Do(s, steps[0]), steps[1..]);
    }
  }

  /** Between operations the count of a level is the number of its tasks, and only levels up to the top have had any. */
  lemma AtRest(s: State, l: nat)
    requires Inv(s) && l in s.levels && s.levels[l].queued < WORD_SIZE
    requires forall i :: i in s.pcs ==> s.pcs[i] == Idle
    ensures s.levels[l].count == s.levels[l].queued
  {
    var v := s.levels[l];
    assert LevelOk(s, l);
    forall i: nat ensures i !in v.pushed && i !in v.popped { assert PcOk(s, i, l); }
    assert v.pushed == {} && v.popped == {};
  }

  // ----- the order of a search -----

  /** The levels that thread `i` left without a task, in order. */
  function Left(s: State, steps: seq<Step>, i: nat): seq<nat>
    requires Run(s, steps)
    decreases |steps|
  {
    if steps == [] then []
    else
      (if steps[0] == Skip(i) || steps[0] == Miss(i) then [s.pcs[i].l] else []) + Left(Do(s, steps[0]), steps[1..], i)
  }

  predicate Searching(s: State, i: nat, l: nat) {
    i in s.pcs && (s.pcs[i] == Scanning(l) || s.pcs[i] == Trying(l))
  }

  /** The thread takes no task and begins nothing else. */
  predicate OnlySearches(steps: seq<Step>, i: nat) {
    forall k :: 0 <= k < |steps| ==>
      steps[k] != Pop(i) && steps[k] != BeginGet(i) && !(steps[k].Push? && steps[k].i == i)
  }

  /** From level `l` on, the levels `left` were visited downwards, and the thread has come to the next one. */
  predicate Descended(left: seq<nat>, f: State, i: nat, l: nat) {
    && (forall k :: 0 <= k < |left| ==> left[k] == l - k)
    && i in f.pcs
    && (if |left| == l + 1 then f.pcs[i] == Idle else |left| <= l && Searching(f, i, l - |left|))
  }

  lemma DescendedFrom(left: seq<nat>, f: State, i: nat, l: nat)
    requires l > 0 && Descended(left, f, i, l - 1)
    ensures Descended([l] + left, f, i, l)
  {
  }

  /** A level is left only for the next lower one. */
  lemma SearchStep(s: State, a: Step, i: nat, l: nat)
    requires Enabled(s, a) && Searching(s, i, l) && OnlySearches([a], i)
    ensures if a == Skip(i) || a == Miss(i) then
              && s.pcs[i].l == l && i in Do(s, a).pcs
              && if l == 0 then Do(s, a).pcs[i] == Idle else Searching(Do(s, a), i, l - 1)
            else Searching(Do(s, a), i, l)
  {
    assert [a][0] == a;
  }

  lemma {:induction false} SearchDown(s: State, steps: seq<Step>, i: nat, l: nat)
    requires Run(s, steps) && Searching(s, i, l) && OnlySearches(steps, i)
    ensures Descended(Left(s, steps, i), After(s, steps), i, l)
    decreases |steps|
  {
    if steps != [] {
      var a, s1, rest := steps[0], Do(s, steps[0]), steps[1..];
      SearchStep(s, a, i, l);
      if a != Skip(i) && a != Miss(i) {
        SearchDown(s1, rest, i, l);
      } else if l > 0 {
        SearchDown(s1, rest, i, l - 1);
        DescendedFrom(Left(s1, rest, i), After(s1, rest), i, l);
      } else {
        IdleStays(s1, rest, i);
      }
    }
  }

  lemma {:induction false} IdleStays(s: State, steps: seq<Step>, i: nat)
    requires Run(s, steps) && i in s.pcs && s.pcs[i] == Idle && OnlySearches(steps, i)
    ensures Left(s, steps, i) == [] && i in After(s, steps).pcs && After(s, steps).pcs[i] == Idle
    decreases |steps|
  {
    if steps != [] { IdleStays(Do(s, steps[0]), steps[1..], i); }
  }

  /**
   A search begins at the top level and visits every lower one in turn; it comes back empty only
   after level 0, and a task is taken at the level that it has come to.
   */
  lemma SearchVisits(s: State, steps: seq<Step>, i: nat)
    requires Enabled(s, BeginGet(i)) && Run(Do(s, BeginGet(i)), steps) && OnlySearches(steps, i)
    ensures var s1 := Do(s, BeginGet(i));
            var left, f := Left(s1, steps, i), After(s1, steps);
            && (forall k :: 0 <= k < |left| ==> left[k] == s.top - k)
            && i in f.pcs && (f.pcs[i] == Idle <==> |left| == s.top + 1)
            && (Enabled(f, Pop(i)) ==>
                  |left| <= s.top && s.top - |left| in f.levels && f.levels[s.top - |left|].queued > 0)
  {
    var s1 := Do(s, BeginGet(i));
    SearchDown(s1, steps, i, s.top);
    assert Descended(Left(s1, steps, i), After(s1, steps), i, s.top);
  }
}
