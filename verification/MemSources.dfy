/** The lifetime of memory sources: packed counts, footers, destruction. */
module MemSources {
  // Handles and blocks are counted in one word, footers lead from a pointer to its source, and a
  // source is destroyed when both counts have become zero.

  import opened Words
  import opened Sizes

  const FOOTER: nat := 16                       // ChunkFooter::DATA_OFFSET()
  const REF: nat := 0x100_0000_0000             // 1 << BlockBits
  const REF_LIMIT: nat := 0x100_0000            // 1 << RefBits

  // ----- alignment -----

  /** ALIGN_DOWN and ALIGN_UP for powers of two. */
  function AlignDown(p: nat, s: nat): nat
    requires s > 0
  {
    p - p % s
  }

  function AlignUp(p: nat, s: nat): nat
    requires s > 0
  {
    AlignDown(p + s - 1, s)
  }

  lemma {:induction false} AndOnes(x: nat, n: nat)
    requires x < Pow2(n)
    ensures And(x, Pow2(n) - 1) == x
  {
    if n > 0 && x > 0 {
      assert (Pow2(n) - 1) / 2 == Pow2(n - 1) - 1 && (Pow2(n) - 1) % 2 == 1;
      AndOnes(x / 2, n - 1);
    }
  }

  /** Masking out the digits below a power of two aligns downwards. */
  lemma {:induction false} AlignDownBits(x: nat, k: nat, n: nat)
    requires x < Pow2(n) && k <= n
    ensures Pow2(k) - 1 < Pow2(n)
    ensures And(x, Not(Pow2(k) - 1, n)) == AlignDown(x, Pow2(k))
    decreases n
  {
    Pow2Monotone(k, n);
    if k == 0 {
      AndOnes(x, n);
    } else {
      AlignDownBits(x / 2, k - 1, n - 1);
      MaskHalf(k, n);
      AlignDownStep(x, Pow2(k), Pow2(k - 1), Not(Pow2(k) - 1, n), Not(Pow2(k - 1) - 1, n - 1), k);
    }
  }

  lemma AlignDownStep(x: nat, s: nat, t: nat, mask: nat, half: nat, k: nat)
    requires k > 0 && s == Pow2(k) && t == Pow2(k - 1) && mask == 2 * half
    requires And(x / 2, half) == AlignDown(x / 2, t)
    ensures And(x, mask) == AlignDown(x, s)
  {
    AndEven(x, mask);
    ModHalf(x, k);
    Doubled(x, x % s, x / 2 % t);
  }

  lemma Doubled(x: nat, m: nat, h: nat)
    requires m % 2 == x % 2 && m / 2 == h && h <= x / 2
    ensures 2 * (x / 2 - h) == x - m
  {
  }

  lemma MaskHalf(k: nat, n: nat)
    requires 0 < k <= n
    ensures Pow2(k) - 1 < Pow2(n) && Pow2(k - 1) - 1 < Pow2(n - 1)
    ensures Not(Pow2(k) - 1, n) == 2 * Not(Pow2(k - 1) - 1, n - 1)
  {
    Pow2Monotone(k, n);
    Pow2Monotone(k - 1, n - 1);
  }

  lemma AndEven(x: nat, y: nat)
    requires y % 2 == 0
    ensures And(x, y) == 2 * And(x / 2, y / 2)
  {
  }

  lemma AlignUpSpec(p: nat, s: nat)
    requires s > 0
    ensures AlignUp(p, s) % s == 0 && p <= AlignUp(p, s) < p + s
    ensures p % s == 0 ==> AlignUp(p, s) == p
  {
    var a := p + s - 1;
    assert AlignUp(p, s) == a / s * s;
    ModUnique(a / s * s, s, a / s, 0);
    if p % s == 0 { ModUnique(a, s, p / s, s - 1); }
  }

  // ----- the state -----

  /** The word in front of a pointer: the source, or 0 and a link to the real footer. */
  datatype Footer = Footer(source: nat, link: nat)

  /** What an arena handed out: `length` bytes from `start`, where the real footer is. */
  datatype Block = Block(source: nat, start: nat, length: nat)

  /**
   A source with its packed counter. The rest explains the counter: the handles, the pointers of the
   blocks, the threads that have given a block back but not yet counted it, whether a thread is
   about to destroy the source, and how often it was destroyed.
   */
  datatype Source = Source(word: nat, handles: nat, live: set<nat>, leaving: nat, dying: bool, destroyed: nat)

  /** Blocks by the pointer that the program got. */
  datatype State = State(sources: map<nat, Source>, blocks: map<nat, Block>, footers: map<nat, Footer>)

  datatype Step =
    | Create(s: nat)
    | Ref(s: nat)
    | Deref(s: nat)
    | Alloc(s: nat, start: nat, size: nat)
    | AllocAlign(s: nat, start: nat, size: nat, align: nat)
    | FreeBegin(q: nat)     // the footer is looked up and the block given back to its arena
    | FreeEnd(s: nat)       // the count is taken back
    | Destroy(s: nat)

  /** BlockCount::refs and BlockCount::blocks. */
  function Refs(word: nat): nat { word / REF }

  function Blocks(word: nat): nat { word % REF }

  function Count(x: Source): nat { |x.live| + x.leaving }

  predicate Disjoint(b: Block, start: nat, length: nat) {
    b.start + b.length <= start || start + length <= b.start
  }

  /** The length of the region that alloc_align asks for, with both footers. */
  function AlignedLength(size: nat, align: nat): nat { size + align + FOOTER + FOOTER }

  /** The pointer that alloc_align returns for a region. */
  function AlignedPointer(start: nat, align: nat): nat
    requires align > 0
  {
    var p := start + FOOTER;
    if p % align == 0 then p else AlignUp(p + FOOTER, align)
  }

  /** get_footer_for_mem: the address of the real footer. */
  function RealFooter(m: map<nat, Footer>, q: nat): nat
    requires q >= FOOTER && q - FOOTER in m
  {
    if m[q - FOOTER].source == 0 then m[q - FOOTER].link else q - FOOTER
  }

  /** How much the source asks its arena for. */
  function Length(a: Step): nat
    requires a.Alloc? || a.AllocAlign?
  {
    if a.Alloc? then a.size + FOOTER else AlignedLength(a.size, a.align)
  }

  /** The pointer that the program gets. */
  function PointerOf(a: Step): nat
    requires a.Alloc? || (a.AllocAlign? && a.align > 0)
  {
    if a.Alloc? then a.start + FOOTER else AlignedPointer(a.start, a.align)
  }

  /** The source is in use and has a count left. */
  predicate CanAlloc(st: State, s: nat) {
    s in st.sources && 0 < st.sources[s].handles && Count(st.sources[s]) < REF - 1
  }

  predicate Enabled(st: State, a: Step) {
    match a
    case Create(s) => s != 0 && s !in st.sources
    case Ref(s) => s in st.sources && 0 < st.sources[s].handles < REF_LIMIT - 1
    case Deref(s) => s in st.sources && 0 < st.sources[s].handles
    case Alloc(s, start, size) =>
      CanAlloc(st, s) && start > 0 && forall q :: q in st.blocks ==> Disjoint(st.blocks[q], start, Length(a))
    case AllocAlign(s, start, size, align) =>
      && CanAlloc(st, s) && start > 0 && align > 0
      && forall q :: q in st.blocks ==> Disjoint(st.blocks[q], start, Length(a))
    case FreeBegin(q) =>
      && q in st.blocks && q >= FOOTER && q - FOOTER in st.footers && RealFooter(st.footers, q) in st.footers
      && st.footers[RealFooter(st.footers, q)].source in st.sources
    case FreeEnd(s) => s in st.sources && 0 < st.sources[s].leaving
    case Destroy(s) => s in st.sources && st.sources[s].dying
  }

  function Put(st: State, s: nat, x: Source): State { st.(sources := st.sources[s := x]) }

  /**
   `isLastDeref`: the word sinks (modulo its width), and the thread that takes the last count is to
   destroy the source.
   */
  function Sink(x: Source, delta: nat): Source
    requires delta < WORD
  {
    x.(word := if x.word >= delta then x.word - delta else WORD - (delta - x.word), dying := x.word == delta)
  }

  function Do(st: State, a: Step): State
    requires Enabled(st, a)
  {
    match a
    case Create(s) => Put(st, s, Source(REF, 1, {}, 0, false, 0))
    case Ref(s) =>
      var x := st.sources[s];
      Put(st, s, x.(word := x.word + REF, handles := x.handles + 1))
    case Deref(s) =>
      var x := st.sources[s];
      Put(st, s, Sink(x, REF).(handles := x.handles - 1))
    case Alloc(s, start, size) =>
      var x, q := st.sources[s], start + FOOTER;
      Put(st, s, x.(word := x.word + 1, live := x.live + {q}))
        .(blocks := st.blocks[q := Block(s, start, size + FOOTER)], footers := st.footers[start := Footer(s, 0)])
    case AllocAlign(s, start, size, align) =>
      var x, q := st.sources[s], AlignedPointer(start, align);
      var footers := st.footers[start := Footer(s, 0)];
      Put(st, s, x.(word := x.word + 1, live := x.live + {q}))
        .(blocks := st.blocks[q := Block(s, start, AlignedLength(size, align))],
          footers := if q == start + FOOTER then footers else footers[q - FOOTER := Footer(0, start)])
    case FreeBegin(q) =>
      var s := st.footers[RealFooter(st.footers, q)].source;
      var x := st.sources[s];
      Put(st, s, x.(live := x.live - {q}, leaving := x.leaving + 1)).(blocks := st.blocks - {q})
    case FreeEnd(s) =>
      var x := st.sources[s];
      Put(st, s, Sink(x, 1).(leaving := x.leaving - 1))
    case Destroy(s) =>
      var x := st.sources[s];
      Put(st, s, x.(dying := false, destroyed := x.destroyed + 1))
  }

  // ----- the invariant -----

  predicate SourceOk(st: State, s: nat) {
    s in st.sources ==>
      var x := st.sources[s];
      && s != 0 && x.word == x.handles * REF + Count(x) && x.handles < REF_LIMIT && Count(x) < REF
      && (x.handles == 0 && Count(x) == 0 <==> x.dying || x.destroyed == 1)
      && (x.dying ==> x.destroyed == 0) && x.destroyed <= 1
  }

  /** The pointer is alive exactly when its source knows it, and its footers lead there. */
  predicate BlockOk(st: State, q: nat) {
    q in st.blocks ==>
      var b := st.blocks[q];
      && b.source in st.sources && q in st.sources[b.source].live && b.source != 0
      && 0 < b.start && b.start + FOOTER <= q <= b.start + b.length
      && b.start in st.footers && st.footers[b.start].source == b.source
      && (q != b.start + FOOTER ==>
            && b.start + FOOTER <= q - FOOTER
            && q - FOOTER in st.footers && st.footers[q - FOOTER] == Footer(0, b.start))
  }

  predicate LiveOk(st: State, s: nat, q: nat) {
    s in st.sources && q in st.sources[s].live ==> q in st.blocks && st.blocks[q].source == s
  }

  predicate Apart(st: State, q: nat, r: nat) {
    q in st.blocks && r in st.blocks && q != r ==> Disjoint(st.blocks[q], st.blocks[r].start, st.blocks[r].length)
  }

  ghost predicate Inv(st: State) {
    && (forall s {:trigger SourceOk(st, s)} :: SourceOk(st, s))
    && (forall q {:trigger BlockOk(st, q)} :: BlockOk(st, q))
    && (forall s, q {:trigger LiveOk(st, s, q)} :: LiveOk(st, s, q))
    && (forall q, r {:trigger Apart(st, q, r)} :: Apart(st, q, r))
  }

  /** The word holds both counts. */
  lemma Packed(st: State, s: nat)
    requires Inv(st) && s in st.sources
    ensures Refs(st.sources[s].word) == st.sources[s].handles && Blocks(st.sources[s].word) == Count(st.sources[s])
  {
    assert SourceOk(st, s);
  }

  /** A pointer leads to the footer of its block, and that to the source that allocated it. */
  lemma FooterFound(st: State, q: nat)
    requires Inv(st) && q in st.blocks
    ensures q >= FOOTER && q - FOOTER in st.footers
    ensures RealFooter(st.footers, q) == st.blocks[q].start && st.blocks[q].start in st.footers
    ensures st.footers[st.blocks[q].start].source == st.blocks[q].source && st.blocks[q].source in st.sources
  {
    assert BlockOk(st, q);
  }

  /** The loop of get_footer_for_mem. */
  method GetFooterForMem(footers: map<nat, Footer>, p: nat, ghost st: State) returns (ch: nat)
    requires Inv(st) && footers == st.footers && p in st.blocks
    ensures ch == st.blocks[p].start && ch in footers && footers[ch].source == st.blocks[p].source
  {
    FooterFound(st, p);
    ghost var b := st.blocks[p];
    assert BlockOk(st, p);
    ch := p - FOOTER;
    while footers[ch].source == 0
      invariant ch in footers && (ch == b.start || (ch == p - FOOTER && footers[ch] == Footer(0, b.start)))
      decreases ch != b.start
    {
      ch := footers[ch].link;
    }
  }

  /** An aligned block is aligned, lies behind both footers and within its region. */
  lemma AlignedFits(start: nat, size: nat, align: nat)
    requires align > 0
    ensures var q := AlignedPointer(start, align);
            && q % align == 0 && start + FOOTER <= q && q + size <= start + AlignedLength(size, align)
            && (q != start + FOOTER ==> start + FOOTER <= q - FOOTER)
  {
    AlignUpSpec(start + FOOTER + FOOTER, align);
  }

  // ----- every step keeps the invariant -----

  lemma CountInv(st: State, a: Step)
    requires Inv(st) && Enabled(st, a) && (a.Create? || a.Ref? || a.Deref? || a.FreeEnd? || a.Destroy?)
    ensures Inv(Do(st, a))
    ensures !a.Create? ==> var x := Do(st, a).sources[a.s];
              (a.Deref? || a.FreeEnd? ==> (x.dying <==> x.handles == 0 && Count(x) == 0))
              && (a.Destroy? ==> st.sources[a.s].word == 0 && st.sources[a.s].handles == 0 && x.destroyed == 1)
  {
    var st' := Do(st, a);
    assert SourceOk(st, a.s);
    forall s: nat ensures SourceOk(st', s) { assert SourceOk(st, s); }
    forall q: nat ensures BlockOk(st', q) { assert BlockOk(st, q); }
    forall s: nat, q: nat ensures LiveOk(st', s, q) { assert LiveOk(st, s, q); }
    forall q: nat, r: nat ensures Apart(st', q, r) { assert Apart(st, q, r); }
  }

  lemma AllocInv(st: State, a: Step)
    requires Inv(st) && Enabled(st, a) && (a.Alloc? || a.AllocAlign?)
    ensures Inv(Do(st, a))
  {
    var st' := Do(st, a);
    var q := if a.Alloc? then a.start + FOOTER else AlignedPointer(a.start, a.align);
    if a.AllocAlign? { AlignedFits(a.start, a.size, a.align); }
    assert SourceOk(st, a.s);
    NewPointer(st, a, q);
    forall s: nat ensures SourceOk(st', s) { assert SourceOk(st, s); }
    forall r: nat ensures BlockOk(st', r) { BlockKept(st, a, q, r); }
    forall s: nat, r: nat ensures LiveOk(st', s, r) { assert LiveOk(st, s, r); }
    forall r: nat, t: nat ensures Apart(st', r, t) { assert Apart(st, r, t); }
  }

  lemma BlockKept(st: State, a: Step, q: nat, r: nat)
    requires Inv(st) && Enabled(st, a) && (a.Alloc? || a.AllocAlign?)
    requires q == if a.Alloc? then a.start + FOOTER else AlignedPointer(a.start, a.align)
    ensures BlockOk(Do(st, a), r)
  {
    assert BlockOk(st, r) && SourceOk(st, a.s);
    if a.AllocAlign? { AlignedFits(a.start, a.size, a.align); }
  }

  /** A pointer into a new region is no live pointer. */
  lemma NewPointer(st: State, a: Step, q: nat)
    requires Inv(st) && Enabled(st, a) && (a.Alloc? || a.AllocAlign?)
    requires q == if a.Alloc? then a.start + FOOTER else AlignedPointer(a.start, a.align)
    ensures q !in st.blocks && q !in st.sources[a.s].live
  {
    assert LiveOk(st, a.s, q) && BlockOk(st, q);
    if a.AllocAlign? { AlignedFits(a.start, a.size, a.align); }
  }

  lemma FreeInv(st: State, q: nat)
    requires Inv(st) && Enabled(st, FreeBegin(q))
    ensures Inv(Do(st, FreeBegin(q)))
  {
    var st' := Do(st, FreeBegin(q));
    FooterFound(st, q);
    assert BlockOk(st, q);
    forall s: nat ensures SourceOk(st', s) { assert SourceOk(st, s); }
    forall r: nat ensures BlockOk(st', r) { assert BlockOk(st, r); }
    forall s: nat, r: nat ensures LiveOk(st', s, r) { assert LiveOk(st, s, r); }
    forall r: nat, t: nat ensures Apart(st', r, t) { assert Apart(st, r, t); }
  }

  lemma StepInv(st: State, a: Step)
    requires Inv(st) && Enabled(st, a)
    ensures Inv(Do(st, a))
  {
    match a
    case Alloc(s, start, size) => AllocInv(st, a);
    case AllocAlign(s, start, size, align) => AllocInv(st, a);
    case FreeBegin(q) => FreeInv(st, q);
    case _ => CountInv(st, a);
  }

  // ----- what is counted -----

  /** What a step does to the number of handles of a source, and to the number of its blocks. */
  function HandleChange(a: Step, s: nat): int {
    if a == Ref(s) then 1 else if a == Deref(s) then -1 else 0
  }

  function BlockChange(a: Step, s: nat): int {
    if (a.Alloc? || a.AllocAlign?) && a.s == s then 1 else if a == FreeEnd(s) then -1 else 0
  }

  function HandleSum(steps: seq<Step>, s: nat): int {
    if steps == [] then 0 else HandleChange(steps[0], s) + HandleSum(steps[1..], s)
  }

  function BlockSum(steps: seq<Step>, s: nat): int {
    if steps == [] then 0 else BlockChange(steps[0], s) + BlockSum(steps[1..], s)
  }

  /** Over every run the packed word counts the handles made and dropped, and the blocks allocated and freed. */
  lemma {:induction false} CountsKept(st: State, steps: seq<Step>, s: nat)
    requires Inv(st) && Run(st, steps) && s in st.sources
    ensures Inv(After(st, steps)) && s in After(st, steps).sources
    ensures Refs(After(st, steps).sources[s].word) == Refs(st.sources[s].word) + HandleSum(steps, s)
    ensures Blocks(After(st, steps).sources[s].word) == Blocks(st.sources[s].word) + BlockSum(steps, s)
    decreases |steps|
  {
    if steps != [] {
      StepInv(st, steps[0]);
      CountStep(st, steps[0], s);
      CountsKept(Do(st, steps[0]), steps[1..], s);
    }
  }

  lemma CountStep(st: State, a: Step, s: nat)
    requires Inv(st) && Enabled(st, a) && s in st.sources && Inv(Do(st, a))
    ensures s in Do(st, a).sources
    ensures Refs(Do(st, a).sources[s].word) == Refs(st.sources[s].word) + HandleChange(a, s)
    ensures Blocks(Do(st, a).sources[s].word) == Blocks(st.sources[s].word) + BlockChange(a, s)
  {
    Packed(st, s);
    Packed(Do(st, a), s);
    assert SourceOk(st, s);
    if a.Alloc? || a.AllocAlign? { NewPointer(st, a, PointerOf(a)); }
    if a.FreeBegin? {
      FooterFound(st, a.q);
      assert BlockOk(st, a.q) && LiveOk(st, s, a.q);
    }
  }

  // ----- what the program gets -----

  /** An allocation hands out one new pointer, whose bytes and footers lie in the region it was given. */
  lemma AllocRange(st: State, a: Step)
    requires Inv(st) && Enabled(st, a) && (a.Alloc? || a.AllocAlign?)
    ensures var q, st' := PointerOf(a), Do(st, a);
            && q !in st.blocks && st'.blocks.Keys == st.blocks.Keys + {q}
            && st'.blocks[q].source == a.s && st'.blocks[q].start == a.start
            && a.start + FOOTER <= q && q + a.size <= a.start + st'.blocks[q].length
            && (a.AllocAlign? ==> q % a.align == 0)
  {
    NewPointer(st, a, PointerOf(a));
    if a.Alloc? { PlainRange(st, a); } else { AlignedRange(st, a); }
  }

  lemma PlainRange(st: State, a: Step)
    requires Enabled(st, a) && a.Alloc?
    ensures var q, st' := PointerOf(a), Do(st, a);
            && st'.blocks.Keys == st.blocks.Keys + {q}
            && st'.blocks[q].source == a.s && st'.blocks[q].start == a.start
            && a.start + FOOTER <= q && q + a.size <= a.start + st'.blocks[q].length
  {
  }

  lemma AlignedRange(st: State, a: Step)
    requires Enabled(st, a) && a.AllocAlign?
    ensures var q, st' := PointerOf(a), Do(st, a);
            && st'.blocks.Keys == st.blocks.Keys + {q}
            && st'.blocks[q].source == a.s && st'.blocks[q].start == a.start
            && a.start + FOOTER <= q && q + a.size <= a.start + st'.blocks[q].length
            && q % a.align == 0
  {
    AlignedFits(a.start, a.size, a.align);
  }

  /** How many bytes the program may use at each pointer, from the steps alone. */
  function Granted(steps: seq<Step>, before: map<nat, nat>): map<nat, nat> {
    if steps == [] then before
    else
      var a := steps[0];
      Granted(steps[1..],
              if a.Alloc? || (a.AllocAlign? && a.align > 0) then before[PointerOf(a) := a.size]
              else if a.FreeBegin? then before - {a.q} else before)
  }

  /** The bytes at the pointer lie in its region, behind the footers. */
  predicate InRegion(st: State, granted: map<nat, nat>, q: nat) {
    && (q in granted <==> q in st.blocks)
    && (q in granted ==> st.blocks[q].start + FOOTER <= q && q + granted[q] <= st.blocks[q].start + st.blocks[q].length)
  }

  ghost predicate InRegions(st: State, granted: map<nat, nat>) {
    forall q {:trigger InRegion(st, granted, q)} :: InRegion(st, granted, q)
  }

  /** Over every run, what was asked for lies in the regions. */
  lemma {:induction false} GrantedInRegions(st: State, steps: seq<Step>, before: map<nat, nat>)
    requires Inv(st) && Run(st, steps) && InRegions(st, before)
    ensures Inv(After(st, steps)) && InRegions(After(st, steps), Granted(steps, before))
    decreases |steps|
  {
    if steps != [] {
      var a := steps[0];
      StepInv(st, a);
      if a.Alloc? || a.AllocAlign? { AllocRange(st, a); }
      var now := if a.Alloc? || a.AllocAlign? then before[PointerOf(a) := a.size]
                 else if a.FreeBegin? then before - {a.q} else before;
      forall q: nat ensures InRegion(Do(st, a), now, q) { assert InRegion(st, before, q); }
      GrantedInRegions(Do(st, a), steps[1..], now);
    }
  }

  /** Over every run, two live allocations overlap neither in their bytes nor in their footers. */
  lemma GrantedApart(st: State, steps: seq<Step>, before: map<nat, nat>, q: nat, r: nat)
    requires Inv(st) && Run(st, steps) && InRegions(st, before)
    requires q in Granted(steps, before) && r in Granted(steps, before) && q != r
    ensures var g, blocks := Granted(steps, before), After(st, steps).blocks;
            && q in blocks && r in blocks && q >= FOOTER && r >= FOOTER
            && (q + g[q] <= r - FOOTER || r + g[r] <= q - FOOTER)
            && (q + g[q] <= blocks[r].start || r + g[r] <= blocks[q].start)
            && blocks[q].start + FOOTER <= q && blocks[r].start + FOOTER <= r
  {
    GrantedInRegions(st, steps, before);
    var f, g := After(st, steps), Granted(steps, before);
    assert InRegion(f, g, q) && InRegion(f, g, r) && Apart(f, q, r);
  }

  // ----- runs -----

  predicate Run(st: State, steps: seq<Step>)
    decreases |steps|
  {
    steps != [] ==> Enabled(st, steps[0]) && Run(Do(st, steps[0]), steps[1..])
  }

  function After(st: State, steps: seq<Step>): State
    requires Run(st, steps)
    decreases |steps|
  {
    if steps == [] then st else After(Do(st, steps[0]), steps[1..])
  }

  lemma InitInv(footers: map<nat, Footer>)
    ensures Inv(State(map[], map[], footers))
  {
    var st := State(map[], map[], footers);
    forall s: nat ensures SourceOk(st, s) {}
    forall q: nat ensures BlockOk(st, q) {}
    forall s: nat, q: nat ensures LiveOk(st, s, q) {}
    forall q: nat, r: nat ensures Apart(st, q, r) {}
  }

  function Destroys(steps: seq<Step>, s: nat): nat {
    if steps == [] then 0 else (if steps[0] == Destroy(s) then 1 else 0) + Destroys(steps[1..], s)
  }

  /** In every run a source is destroyed at most once, and never while it has handles or blocks. */
  lemma {:induction false} DestroyedOnce(st: State, steps: seq<Step>, s: nat)
    requires Inv(st) && Run(st, steps) && s in st.sources
    ensures Inv(After(st, steps)) && s in After(st, steps).sources
    ensures st.sources[s].destroyed + Destroys(steps, s) == After(st, steps).sources[s].destroyed <= 1
    ensures After(st, steps).sources[s].destroyed == 1 ==>
              After(st, steps).sources[s].handles == 0 && After(st, steps).sources[s].live == {}
    decreases |steps|
  {
    assert SourceOk(st, s);
    if steps != [] {
      StepInv(st, steps[0]);
      DestroyedOnce(Do(st, steps[0]), steps[1..], s);
    }
  }
}
