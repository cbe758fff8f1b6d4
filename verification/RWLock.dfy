/** The reader/writer lock on one word, with every atomic access on its own. */
module RWLock {
  import opened Options

  const FLAG_WRITE: nat := 0x4000_0000
  const WORD_SIZE: nat := 0x1_0000_0000_0000_0000

  /**
   Where a thread is. The Trying states hold the value seen last; Checking and Leaving are behind
   the increment and before the decrement of a reader; from Waiting to Exiting a writer has set the flag.
   */
  datatype Pc =
    | Outside
    | ReadTrying(seen: nat)
    | ReadChecking
    | Reading
    | ReadLeaving
    | WriteTrying(seen: nat)
    | WriteWaiting
    | WriteChecking
    | Writing
    | WriteExiting

  /** `readers` and `writer` tell who holds the lock in which way; the code has only the word. */
  datatype State = State(value: nat, pcs: map<nat, Pc>, readers: set<nat>, writer: Option<nat>)

  predicate Flagged(v: nat) { v / FLAG_WRITE % 2 == 1 }

  /** `v | FLAG_WRITE`. */
  function SetFlag(v: nat): nat { if Flagged(v) then v else v + FLAG_WRITE }

  predicate IsReader(p: Pc) { p == ReadChecking || p == Reading || p == ReadLeaving }

  predicate IsWriter(p: Pc) { p == WriteWaiting || p == WriteChecking || p == Writing || p == WriteExiting }

  /** `x - 1` and `x + 1` on the word. */
  function Decrement(x: nat): nat { if x == 0 then WORD_SIZE - 1 else x - 1 }

  function Increment(x: nat): nat { if x == WORD_SIZE - 1 then 0 else x + 1 }

  datatype Step =
    | BeginRead(i: nat)     // load
    | BackOff(i: nat)       // the flag was set: load again
    | FailCas(i: nat)       // the word changed, or the weak exchange failed spuriously
    | ReadCas(i: nat)
    | ReadCheck(i: nat)
    | ReadDone(i: nat)      // the load and the checks of read_unlock
    | ReadRelease(i: nat)
    | BeginWrite(i: nat)
    | WriteCas(i: nat)
    | Spin(i: nat)
    | Drained(i: nat)       // the load that saw the flag alone
    | WriteCheck(i: nat)
    | WriteDone(i: nat)     // the load of write_unlock
    | WriteRelease(i: nat)

  predicate Enabled(s: State, a: Step) {
    && a.i in s.pcs
    && var p := s.pcs[a.i];
    match a
    case BeginRead(i) => p == Outside
    case BackOff(i) => (p.ReadTrying? || p.WriteTrying?) && Flagged(p.seen)
    case FailCas(i) => (p.ReadTrying? || p.WriteTrying?) && !Flagged(p.seen)
    case ReadCas(i) => p.ReadTrying? && !Flagged(p.seen) && p.seen == s.value
    case ReadCheck(i) => p == ReadChecking
    case ReadDone(i) => p == Reading
    case ReadRelease(i) => p == ReadLeaving
    case BeginWrite(i) => p == Outside
    case WriteCas(i) => p.WriteTrying? && !Flagged(p.seen) && p.seen == s.value
    case Spin(i) => p == WriteWaiting && s.value != FLAG_WRITE
    case Drained(i) => p == WriteWaiting && s.value == FLAG_WRITE
    case WriteCheck(i) => p == WriteChecking
    case WriteDone(i) => p == Writing
    case WriteRelease(i) => p == WriteExiting
  }

  function Do(s: State, a: Step): State
    requires Enabled(s, a)
  {
    match a
    case BeginRead(i) => s.(pcs := s.pcs[i := ReadTrying(s.value)])
    case BackOff(i) => s.(pcs := s.pcs[i := s.pcs[i].(seen := s.value)])
    case FailCas(i) => s.(pcs := s.pcs[i := s.pcs[i].(seen := s.value)])
    case ReadCas(i) => State(Increment(s.value), s.pcs[i := ReadChecking], s.readers + {i}, s.writer)
    case ReadCheck(i) => s.(pcs := s.pcs[i := Reading])
    case ReadDone(i) => s.(pcs := s.pcs[i := ReadLeaving])
    case ReadRelease(i) => State(Decrement(s.value), s.pcs[i := Outside], s.readers - {i}, s.writer)
    case BeginWrite(i) => s.(pcs := s.pcs[i := WriteTrying(s.value)])
    case WriteCas(i) => State(SetFlag(s.value), s.pcs[i := WriteWaiting], s.readers, Some(i))
    case Spin(i) => s
    case Drained(i) => s.(pcs := s.pcs[i := WriteChecking])
    case WriteCheck(i) => s.(pcs := s.pcs[i := Writing])
    case WriteDone(i) => s.(pcs := s.pcs[i := WriteExiting])
    case WriteRelease(i) => State(0, s.pcs[i := Outside], s.readers, None)
  }

  /** What the code checks at a step, with the value loaded there. */
  predicate Checks(s: State, a: Step) {
    match a
    case ReadCheck(i) => s.value != 0 && s.value != FLAG_WRITE
    case ReadDone(i) => s.value != 0 && s.value != FLAG_WRITE
    case WriteCheck(i) => s.value == FLAG_WRITE
    case WriteDone(i) => s.value == FLAG_WRITE
    case _ => true
  }

  // ----- the invariant -----

  /** The code of thread `i` is where its hold on the lock says. */
  predicate PcOk(s: State, i: nat) {
    && (i in s.readers <==> i in s.pcs && IsReader(s.pcs[i]))
    && (s.writer == Some(i) <==> i in s.pcs && IsWriter(s.pcs[i]))
    && (s.writer == Some(i) && s.pcs[i] != WriteWaiting ==> s.readers == {})
  }

  /** The word counts the readers, and has the flag exactly while a writer has claimed the lock. */
  ghost predicate Inv(s: State) {
    && |s.pcs.Keys| < FLAG_WRITE
    && s.value == |s.readers| + (if s.writer == None then 0 else FLAG_WRITE)
    && forall i {:trigger PcOk(s, i)} :: PcOk(s, i)
  }

  lemma FewReaders(s: State)
    requires Inv(s)
    ensures |s.readers| < FLAG_WRITE
  {
    forall i | i in s.readers
      ensures i in s.pcs.Keys
    {
      assert PcOk(s, i);
    }
    SubsetSize(s.readers, s.pcs.Keys);
  }

  lemma {:induction false} SubsetSize(a: set<nat>, b: set<nat>)
    requires a <= b
    ensures |a| <= |b|
  {
    if a != {} {
      var x :| x in a;
      SubsetSize(a - {x}, b - {x});
    }
  }

  lemma FlagSpec(s: State)
    requires Inv(s)
    ensures Flagged(s.value) <==> s.writer != None
    ensures s.value < WORD_SIZE - 1
  {
    FewReaders(s);
  }

  lemma WordInv(s: State, a: Step)
    requires Inv(s) && Enabled(s, a)
    ensures Do(s, a).value == |Do(s, a).readers| + (if Do(s, a).writer == None then 0 else FLAG_WRITE)
  {
    FlagSpec(s);
    assert PcOk(s, a.i);
  }

  lemma PcInv(s: State, a: Step, i: nat)
    requires Inv(s) && Enabled(s, a)
    ensures PcOk(Do(s, a), i)
  {
    FlagSpec(s);
    assert PcOk(s, a.i) && PcOk(s, i);
    if s.writer.Some? { assert PcOk(s, s.writer.value); }
  }

  lemma StepInv(s: State, a: Step)
    requires Inv(s) && Enabled(s, a)
    ensures Inv(Do(s, a))
  {
    assert Do(s, a).pcs.Keys == s.pcs.Keys;
    WordInv(s, a);
    forall i: nat ensures PcOk(Do(s, a), i) { PcInv(s, a, i); }
  }

  /** No check of the code can fail. */
  lemma ChecksHold(s: State, a: Step)
    requires Inv(s) && Enabled(s, a)
    ensures Checks(s, a)
  {
    FewReaders(s);
    assert PcOk(s, a.i);
  }

  // ----- runs -----

  predicate Run(s: State, steps: seq<Step>)
    decreases |steps|
  {
    steps != [] ==> Enabled(s, steps[0]) && Run(Do(s, steps[0]), steps[1..])
  }

  function After(s: State, steps: seq<Step>): State
    requires Run(s, steps)
    decreases |steps|
  {
    if steps == [] then s else After(Do(s, steps[0]), steps[1..])
  }

  lemma {:induction false} RunInv(s: State, steps: seq<Step>)
    requires Inv(s) && Run(s, steps)
    ensures Inv(After(s, steps))
    decreases |steps|
  {
    if steps != [] {
      StepInv(s, steps[0]);
      RunInv(Do(s, steps[0]), steps[1..]);
    }
  }

  lemma InitInv(s: State)
    requires s.value == 0 && s.readers == {} && s.writer == None
    requires |s.pcs.Keys| < FLAG_WRITE && forall i :: i in s.pcs ==> s.pcs[i] == Outside
    ensures Inv(s)
  {
    forall i: nat ensures PcOk(s, i) {}
  }

  /** A writer inside excludes all others. */
  lemma Exclusion(s: State, i: nat, j: nat)
    requires Inv(s) && i in s.pcs && j in s.pcs && i != j && s.pcs[i] == Writing
    ensures !IsReader(s.pcs[j]) && !IsWriter(s.pcs[j])
  {
    assert PcOk(s, i) && PcOk(s, j);
  }

  /** From the moment a writer has set the flag until it releases the lock, no reader and no other writer gets in. */
  lemma {:induction false} NoEntry(s: State, steps: seq<Step>, w: nat)
    requires Inv(s) && Run(s, steps) && s.writer == Some(w)
    requires forall k :: 0 <= k < |steps| ==> steps[k] != WriteRelease(w)
    ensures After(s, steps).writer == Some(w) && After(s, steps).readers <= s.readers
    decreases |steps|
  {
    if steps != [] {
      FlagSpec(s);
      StepInv(s, steps[0]);
      assert PcOk(s, steps[0].i);
      NoEntry(Do(s, steps[0]), steps[1..], w);
    }
  }
}
