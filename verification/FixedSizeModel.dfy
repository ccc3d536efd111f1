/**
  The fixed-size block allocator as a value: size classes cached in free lists
  on top of the hole-list heap, and the whole-run theorems about the two layers.
 */
module FixedSizeModel {
  import opened Sequences
  import opened Options
  import opened Alignment
  import opened Spans
  import opened HeapModel
  import HeapTheorems

  const BLOCK_SIZES: seq<int> := [8, 16, 32, 64, 128, 256, 512, 1024, 2048]

  const CLASSES: int := 9

  function Position(need: int, from: int): (i: Option<int>)
    requires 0 <= from <= CLASSES
    decreases CLASSES - from
  {
    if from == CLASSES then None
    else if BLOCK_SIZES[from] >= need then Some(from)
    else Position(need, from + 1)
  }

  /** The size class of a layout, `None` above the largest class. */
  function ListIndex(l: Layout): Option<int> {
    Position(if l.size < l.align then l.align else l.size, 0)
  }

  predicate IsClass(i: int) { 0 <= i < CLASSES }

  function ClassLayout(i: int): Layout
    requires IsClass(i)
  {
    Layout(BLOCK_SIZES[i], BLOCK_SIZES[i])
  }

  /** Bytes a block of class `i` really occupies. */
  function ClassBytes(i: int): int
    requires IsClass(i)
  {
    if BLOCK_SIZES[i] < MIN_SIZE then MIN_SIZE else BLOCK_SIZES[i]
  }

  /**
    `origin` remembers for which class a block was carved, `free` are the free
    lists and `client` the layouts of the blocks in the hands of clients.
   */
  datatype Pool = Pool(heap: Heap, origin: map<int, int>, free: seq<seq<int>>, client: map<int, Layout>)

  // ---------- invariant ----------

  predicate CarvedOk(p: Pool, a: int)
    requires a in p.origin && |p.free| == CLASSES
  {
    && IsClass(p.origin[a]) && a in p.heap.live
    && p.heap.live[a] == ClassBytes(p.origin[a])
    && Aligned(a, BLOCK_SIZES[p.origin[a]])
    && (a in p.free[p.origin[a]] <==> a !in p.client)
  }

  predicate ClientOk(p: Pool, a: int)
    requires a in p.client
  {
    var l := p.client[a];
    && ValidLayout(l)
    && match ListIndex(l)
       case Some(i) => a in p.origin && p.origin[a] == i
       case None =>
         && a !in p.origin && a in p.heap.live && Aligned(a, l.align)
         && AlignLayout(l) == Some(Layout(p.heap.live[a], l.align))
  }

  predicate FreeOk(p: Pool, i: int)
    requires 0 <= i < |p.free|
  {
    Distinct(p.free[i]) && forall a :: a in p.free[i] ==> a in p.origin && p.origin[a] == i
  }

  ghost predicate PoolInv(p: Pool) {
    && Inv(p.heap)
    && |p.free| == CLASSES
    && (forall a :: a in p.origin ==> CarvedOk(p, a))
    && (forall a :: a in p.client ==> ClientOk(p, a))
    && (forall i :: 0 <= i < CLASSES ==> FreeOk(p, i))
    && p.heap.live.Keys == p.origin.Keys + p.client.Keys
  }

  // ---------- operations ----------

  datatype Op = Alloc(layout: Layout) | Dealloc(addr: int, layout: Layout)

  predicate Legal(p: Pool, op: Op) {
    match op
    case Alloc(l) => ValidLayout(l)
    case Dealloc(a, l) => a in p.client && p.client[a] == l && |p.free| == CLASSES
  }

  function Popped(p: Pool, i: int, l: Layout): Pool
    requires IsClass(i) && |p.free| == CLASSES && p.free[i] != []
  {
    p.(free := p.free[i := p.free[i][1..]], client := p.client[p.free[i][0] := l])
  }

  function Carved(p: Pool, i: int, l: Layout, a: int): Pool
    requires IsClass(i)
  {
    p.(heap := Allocated(p.heap, Span(a, ClassBytes(i))), origin := p.origin[a := i], client := p.client[a := l])
  }

  function Handed(p: Pool, l: Layout, a: int): Pool
    requires AlignLayout(l).Some?
  {
    p.(heap := Allocated(p.heap, Span(a, AlignLayout(l).value.size)), client := p.client[a := l])
  }

  /** The address an allocation yields, if any. */
  function Chosen(p: Pool, l: Layout): Option<int>
    requires ValidLayout(l) && |p.free| == CLASSES
  {
    match ListIndex(l)
    case None => HeapTheorems.Chosen(p.heap, l)
    case Some(i) =>
      PositionIsClass(if l.size < l.align then l.align else l.size, 0);
      ClassLayoutValid(i);
      if p.free[i] != [] then Some(p.free[i][0]) else HeapTheorems.Chosen(p.heap, ClassLayout(i))
  }

  function AllocStep(p: Pool, l: Layout): Pool
    requires ValidLayout(l) && |p.free| == CLASSES
  {
    if Chosen(p, l).None? then p
    else
      match ListIndex(l)
      case None => Handed(p, l, Chosen(p, l).value)
      case Some(i) =>
        PositionIsClass(if l.size < l.align then l.align else l.size, 0);
        if p.free[i] != [] then Popped(p, i, l) else Carved(p, i, l, Chosen(p, l).value)
  }

  function DeallocStep(p: Pool, a: int): Pool
    requires a in p.client && |p.free| == CLASSES && (ListIndex(p.client[a]).None? ==> a in p.heap.live)
  {
    match ListIndex(p.client[a])
    case Some(i) =>
      PositionIsClass(if p.client[a].size < p.client[a].align then p.client[a].align else p.client[a].size, 0);
      p.(free := p.free[i := [a] + p.free[i]], client := p.client - {a})
    case None => p.(heap := Freed(p.heap, a), client := p.client - {a})
  }

  // ---------- size classes ----------

  lemma PositionIsClass(need: int, from: int)
    requires 0 <= from <= CLASSES
    ensures Position(need, from).Some? ==> from <= Position(need, from).value < CLASSES
    ensures Position(need, from).Some? ==> BLOCK_SIZES[Position(need, from).value] >= need
    ensures Position(need, from).None? ==> forall i :: from <= i < CLASSES ==> BLOCK_SIZES[i] < need
    ensures Position(need, from).Some? ==> forall i :: from <= i < Position(need, from).value ==> BLOCK_SIZES[i] < need
    decreases CLASSES - from
  {
  }

  /** `ListIndex` is the smallest class whose block size covers both size and alignment. */
  lemma ListIndexLeast(l: Layout)
    ensures ListIndex(l).Some? ==>
              var i := ListIndex(l).value;
              && IsClass(i) && l.size <= BLOCK_SIZES[i] && l.align <= BLOCK_SIZES[i]
              && forall j :: 0 <= j < i ==> BLOCK_SIZES[j] < l.size || BLOCK_SIZES[j] < l.align
    ensures ListIndex(l).None? ==> l.size > 2048 || l.align > 2048
  {
    PositionIsClass(if l.size < l.align then l.align else l.size, 0);
  }

  lemma BlockSizesPow2(i: int)
    requires IsClass(i)
    ensures IsPow2(BLOCK_SIZES[i]) && 8 <= BLOCK_SIZES[i] <= 2048
  {
    assert IsPow2(8) && IsPow2(16) && IsPow2(32) && IsPow2(64) && IsPow2(128);
    assert IsPow2(256);
    assert IsPow2(512);
    assert IsPow2(1024);
    assert IsPow2(2048);
  }

  lemma ClassLayoutValid(i: int)
    requires IsClass(i)
    ensures ValidLayout(ClassLayout(i))
    ensures AlignLayout(ClassLayout(i)) == Some(Layout(ClassBytes(i), BLOCK_SIZES[i]))
  {
    BlockSizesPow2(i);
    BlockSizeShape(i);
  }

  lemma BlockSizeShape(i: int)
    requires IsClass(i)
    ensures AlignUpSize(if BLOCK_SIZES[i] < MIN_SIZE then MIN_SIZE else BLOCK_SIZES[i], HOLE_ALIGN) == ClassBytes(i)
  {
  }

  lemma {:induction false} Pow2Quotient(a: int, b: int) returns (j: int)
    requires IsPow2(a) && IsPow2(b) && a <= b
    ensures 1 <= j && b == a * j
    decreases b
  {
    if a == b {
      j := 1;
    } else {
      Pow2HalfAbove(a, b);
      var h := Pow2Quotient(a, b / 2);
      j := 2 * h;
    }
  }

  lemma {:induction false} Pow2HalfAbove(a: int, b: int)
    requires IsPow2(a) && IsPow2(b) && a < b
    ensures IsPow2(b / 2) && a <= b / 2
    decreases a
  {
    if a > 1 {
      Pow2HalfAbove(a / 2, b / 2);
    }
  }

  lemma {:induction false} AlignedDivisor(p: int, align: int, j: int)
    requires 0 < align && 1 <= j && 0 < align * j && Aligned(p, align * j)
    ensures Aligned(p, align)
    decreases p
  {
    if p >= align * j {
      AlignedDivisor(p - align * j, align, j);
      RemSteps(p, align, j);
    }
  }

  /** Any block of a class meets the size and alignment of every layout of that class, whatever it was carved for. */
  lemma ClassServes(i: int, a: int, l: Layout)
    requires IsClass(i) && ValidLayout(l) && ListIndex(l) == Some(i) && Aligned(a, BLOCK_SIZES[i])
    ensures Aligned(a, l.align) && l.size <= ClassBytes(i)
  {
    ListIndexLeast(l);
    BlockSizesPow2(i);
    var j := Pow2Quotient(l.align, BLOCK_SIZES[i]);
    AlignedDivisor(a, l.align, j);
  }

  // ---------- every step keeps the invariant ----------

  lemma FreeMember(p: Pool, i: int)
    requires PoolInv(p) && IsClass(i) && p.free[i] != []
    ensures var a := p.free[i][0];
            a in p.origin && p.origin[a] == i && a !in p.client && a !in p.free[i][1..] && CarvedOk(p, a)
  {
    assert FreeOk(p, i);
    var a := p.free[i][0];
    assert a in p.free[i];
    assert CarvedOk(p, a);
  }

  lemma PoppedInv(p: Pool, i: int, l: Layout)
    requires PoolInv(p) && ValidLayout(l) && ListIndex(l) == Some(i) && IsClass(i) && p.free[i] != []
    ensures PoolInv(Popped(p, i, l))
  {
    FreeMember(p, i);
    var q, a := Popped(p, i, l), p.free[i][0];
    assert p.free[i] == [a] + p.free[i][1..];
    forall c | c in q.origin ensures CarvedOk(q, c) {
      assert CarvedOk(p, c);
    }
    forall c | c in q.client ensures ClientOk(q, c) {
      if c != a {
        assert ClientOk(p, c);
      }
    }
    forall j | 0 <= j < CLASSES ensures FreeOk(q, j) {
      assert FreeOk(p, j);
    }
  }

  lemma CarvedInv(p: Pool, i: int, l: Layout, a: int)
    requires PoolInv(p) && ValidLayout(l) && ListIndex(l) == Some(i) && IsClass(i) && p.free[i] == []
    requires Aligned(a, BLOCK_SIZES[i])
    requires Span(a, ClassBytes(i)).Regular() && FitsSome(p.heap.holes, Span(a, ClassBytes(i)))
    ensures PoolInv(Carved(p, i, l, a)) && a !in p.heap.live
  {
    AllocatedInv(p.heap, Span(a, ClassBytes(i)));
    var q := Carved(p, i, l, a);
    forall c | c in q.origin ensures CarvedOk(q, c) {
      if c != a {
        assert CarvedOk(p, c);
      }
    }
    forall c | c in q.client ensures ClientOk(q, c) {
      if c != a {
        assert ClientOk(p, c);
      }
    }
    forall j | 0 <= j < CLASSES ensures FreeOk(q, j) {
      assert FreeOk(p, j);
    }
  }

  lemma HandedInv(p: Pool, l: Layout, a: int, n: int)
    requires PoolInv(p) && ValidLayout(l) && ListIndex(l).None? && AlignLayout(l) == Some(Layout(n, l.align))
    requires Aligned(a, l.align) && Span(a, n).Regular() && FitsSome(p.heap.holes, Span(a, n))
    ensures PoolInv(Handed(p, l, a)) && a !in p.heap.live
  {
    AllocatedInv(p.heap, Span(a, n));
    var q := Handed(p, l, a);
    forall c | c in q.origin ensures CarvedOk(q, c) {
      assert CarvedOk(p, c);
    }
    forall c | c in q.client ensures ClientOk(q, c) {
      if c != a {
        assert ClientOk(p, c);
      }
    }
    forall j | 0 <= j < CLASSES ensures FreeOk(q, j) {
      assert FreeOk(p, j);
    }
  }

  lemma PushedInv(p: Pool, a: int, i: int)
    requires PoolInv(p) && a in p.client && ListIndex(p.client[a]) == Some(i) && IsClass(i)
    ensures PoolInv(DeallocStep(p, a))
  {
    var q := DeallocStep(p, a);
    assert ClientOk(p, a) && CarvedOk(p, a);
    forall c | c in q.origin ensures CarvedOk(q, c) {
      assert CarvedOk(p, c);
    }
    forall c | c in q.client ensures ClientOk(q, c) {
      assert ClientOk(p, c);
    }
    forall j | 0 <= j < CLASSES ensures FreeOk(q, j) {
      assert FreeOk(p, j);
    }
  }

  lemma ReturnedInv(p: Pool, a: int)
    requires PoolInv(p) && a in p.client && ListIndex(p.client[a]).None?
    ensures a in p.heap.live && PoolInv(DeallocStep(p, a))
  {
    assert ClientOk(p, a);
    FreedInv(p.heap, a);
    var q := DeallocStep(p, a);
    forall c | c in q.origin ensures CarvedOk(q, c) {
      assert CarvedOk(p, c);
    }
    forall c | c in q.client ensures ClientOk(q, c) {
      assert ClientOk(p, c);
    }
    forall j | 0 <= j < CLASSES ensures FreeOk(q, j) {
      assert FreeOk(p, j);
    }
  }

  /** What the fallback yields for a class request or a large one. */
  lemma FallbackSuits(p: Pool, l: Layout, al: Layout)
    requires PoolInv(p) && ValidLayout(l) && AlignLayout(l) == Some(al) && HeapTheorems.Chosen(p.heap, l).Some?
    ensures var b := Span(HeapTheorems.Chosen(p.heap, l).value, al.size);
            b.Regular() && Aligned(b.addr, l.align) && l.size <= b.size && FitsSome(p.heap.holes, b)
  {
    HeapTheorems.ChosenFits(p.heap, l);
  }

  lemma AllocStepInv(p: Pool, l: Layout)
    requires PoolInv(p) && ValidLayout(l)
    ensures PoolInv(AllocStep(p, l))
  {
    if Chosen(p, l).Some? {
      match ListIndex(l)
      case None =>
        HeapTheorems.ChosenFits(p.heap, l);
        AlignLayoutShape(l);
        HandedInv(p, l, Chosen(p, l).value, AlignLayout(l).value.size);
      case Some(i) =>
        ListIndexLeast(l);
        if p.free[i] != [] {
          PoppedInv(p, i, l);
        } else {
          ClassLayoutValid(i);
          FallbackSuits(p, ClassLayout(i), Layout(ClassBytes(i), BLOCK_SIZES[i]));
          CarvedInv(p, i, l, Chosen(p, l).value);
        }
    }
  }

  lemma DeallocStepInv(p: Pool, a: int)
    requires PoolInv(p) && a in p.client
    ensures ListIndex(p.client[a]).None? ==> a in p.heap.live
    ensures PoolInv(DeallocStep(p, a))
  {
    ListIndexLeast(p.client[a]);
    match ListIndex(p.client[a])
    case Some(i) => PushedInv(p, a, i);
    case None => ReturnedInv(p, a);
  }

  /**
    Every block handed out is fresh, lies in the heap, is aligned as asked and
    large enough, whether popped from a free list or carved.
   */
  lemma AllocSuits(p: Pool, l: Layout)
    requires PoolInv(p) && ValidLayout(l) && Chosen(p, l).Some?
    ensures var a := Chosen(p, l).value; var q := AllocStep(p, l);
            && a !in p.client && q.client == p.client[a := l]
            && a in q.heap.live && l.size <= q.heap.live[a] && Aligned(a, l.align)
  {
    ListIndexLeast(l);
    match ListIndex(l)
    case None =>
      HeapTheorems.ChosenFits(p.heap, l);
      AlignLayoutShape(l);
      HandedInv(p, l, Chosen(p, l).value, AlignLayout(l).value.size);
    case Some(i) =>
      if p.free[i] != [] {
        FreeMember(p, i);
      } else {
        ClassLayoutValid(i);
        FallbackSuits(p, ClassLayout(i), Layout(ClassBytes(i), BLOCK_SIZES[i]));
        CarvedInv(p, i, l, Chosen(p, l).value);
      }
      ClassServes(i, Chosen(p, l).value, l);
  }

  // ---------- runs ----------

  function Apply(p: Pool, op: Op): Pool
    requires |p.free| == CLASSES && Legal(p, op)
    requires op.Dealloc? && ListIndex(op.layout).None? ==> op.addr in p.heap.live
  {
    match op
    case Alloc(l) => AllocStep(p, l)
    case Dealloc(a, _) => DeallocStep(p, a)
  }

  ghost predicate LegalRun(p: Pool, ops: seq<Op>)
    requires PoolInv(p)
    decreases |ops|
  {
    ops == [] ||
    (&& Legal(p, ops[0])
     && (StepInv(p, ops[0]); LegalRun(Apply(p, ops[0]), ops[1..])))
  }

  ghost function Run(p: Pool, ops: seq<Op>): Pool
    requires PoolInv(p) && LegalRun(p, ops)
    decreases |ops|
  {
    if ops == [] then p
    else
      StepInv(p, ops[0]);
      Run(Apply(p, ops[0]), ops[1..])
  }

  lemma StepInv(p: Pool, op: Op)
    requires PoolInv(p) && Legal(p, op)
    ensures op.Dealloc? && ListIndex(op.layout).None? ==> op.addr in p.heap.live
    ensures PoolInv(Apply(p, op))
  {
    match op
    case Alloc(l) => AllocStepInv(p, l);
    case Dealloc(a, _) => DeallocStepInv(p, a);
  }

  lemma {:induction false} RunInv(p: Pool, ops: seq<Op>)
    requires PoolInv(p) && LegalRun(p, ops)
    ensures PoolInv(Run(p, ops))
    decreases |ops|
  {
    if ops != [] {
      StepInv(p, ops[0]);
      RunInv(Apply(p, ops[0]), ops[1..]);
    }
  }

  // ---------- two-layer tiling ----------

  /** Byte `x` lies in a client's block. */
  predicate AtClient(p: Pool, x: int) {
    exists a :: a in p.client && a in p.heap.live && Block(p.heap.live, a).Contains(x)
  }

  /** Byte `x` lies in a block on the free list of class `i`. */
  predicate AtFree(p: Pool, i: int, x: int)
    requires 0 <= i < |p.free|
  {
    exists a :: a in p.free[i] && a in p.heap.live && Block(p.heap.live, a).Contains(x)
  }

  lemma OwnerUnique(h: Heap, a: int, b: int, x: int)
    requires Inv(h) && a in h.live && b in h.live && Block(h.live, a).Contains(x) && Block(h.live, b).Contains(x)
    ensures a == b
  {
    assert a != b ==> Apart(Block(h.live, a), Block(h.live, b));
  }

  /**
    Two-layer tiling: in every state each heap byte is in exactly one place: a
    hole of the fallback, a client's block, or one cached block of one class.
   */
  lemma TwoLayerTiling(p: Pool, x: int)
    requires PoolInv(p) && p.heap.bottom <= x < p.heap.top
    ensures Covers(p.heap.holes, x) || AtClient(p, x) || exists i :: 0 <= i < CLASSES && AtFree(p, i, x)
    ensures !(Covers(p.heap.holes, x) && AtClient(p, x))
    ensures forall i :: 0 <= i < CLASSES && AtFree(p, i, x) ==> !Covers(p.heap.holes, x) && !AtClient(p, x)
    ensures forall i, j :: 0 <= i < CLASSES && 0 <= j < CLASSES && AtFree(p, i, x) && AtFree(p, j, x) ==> i == j
  {
    if !Covers(p.heap.holes, x) {
      var a :| a in p.heap.live && Block(p.heap.live, a).Contains(x);
      if a !in p.client {
        assert CarvedOk(p, a);
        assert AtFree(p, p.origin[a], x);
      }
    }
    forall i | 0 <= i < CLASSES && AtFree(p, i, x)
      ensures !Covers(p.heap.holes, x) && !AtClient(p, x)
      ensures forall j :: 0 <= j < CLASSES && AtFree(p, j, x) ==> i == j
    {
      FreeExclusive(p, i, x);
    }
  }

  lemma FreeExclusive(p: Pool, i: int, x: int)
    requires PoolInv(p) && p.heap.bottom <= x < p.heap.top && 0 <= i < CLASSES && AtFree(p, i, x)
    ensures !Covers(p.heap.holes, x) && !AtClient(p, x)
    ensures forall j :: 0 <= j < CLASSES && AtFree(p, j, x) ==> i == j
  {
    var a :| a in p.free[i] && a in p.heap.live && Block(p.heap.live, a).Contains(x);
    assert FreeOk(p, i) && CarvedOk(p, a);
    assert LiveAt(p.heap.live, x);
    forall c | c in p.heap.live && Block(p.heap.live, c).Contains(x) ensures c == a {
      OwnerUnique(p.heap, a, c, x);
    }
    forall j | 0 <= j < CLASSES && AtFree(p, j, x) ensures i == j {
      assert FreeOk(p, j);
    }
  }

  // ---------- high-water mark ----------

  function ClassSet(origin: map<int, int>, i: int): set<int> {
    set a | a in origin && origin[a] == i
  }

  /** Blocks ever carved for class `i`. */
  function CarvedCount(p: Pool, i: int): int {
    |ClassSet(p.origin, i)|
  }

  function LiveSet(p: Pool, i: int): set<int> {
    set a | a in p.client && a in p.origin && p.origin[a] == i
  }

  /** Blocks of class `i` now in the hands of clients. */
  function LiveCount(p: Pool, i: int): int {
    |LiveSet(p, i)|
  }

  /** Blocks of a class are either live or cached. */
  lemma CountSplit(p: Pool, i: int)
    requires PoolInv(p) && IsClass(i)
    ensures CarvedCount(p, i) == LiveCount(p, i) + |p.free[i]|
  {
    assert FreeOk(p, i);
    MemberCount(p.free[i]);
    forall a ensures a in ClassSet(p.origin, i) <==> a in LiveSet(p, i) || a in Members(p.free[i]) {
      if a in p.origin {
        assert CarvedOk(p, a);
      }
    }
    assert ClassSet(p.origin, i) == LiveSet(p, i) + Members(p.free[i]);
    assert LiveSet(p, i) !! Members(p.free[i]) by {
      forall a | a in LiveSet(p, i) ensures a !in Members(p.free[i]) {
        assert CarvedOk(p, a);
      }
    }
  }

  lemma CarveCounts(p: Pool, q: Pool, a: int, j: int, i: int)
    requires a !in p.origin && q.origin == p.origin[a := j] && CarvedCount(q, j) == LiveCount(q, j)
    ensures i == j ==> CarvedCount(q, i) == CarvedCount(p, i) + 1 == LiveCount(q, i)
    ensures i != j ==> CarvedCount(q, i) == CarvedCount(p, i)
  {
    if i == j {
      assert ClassSet(q.origin, i) == ClassSet(p.origin, i) + {a};
    } else {
      assert ClassSet(q.origin, i) == ClassSet(p.origin, i);
    }
  }

  function Max(a: int, b: int): int {
    if a < b then b else a
  }

  /** Either nothing is carved, or one block is carved for a class whose free list is empty. */
  lemma CarveOnlyWhenEmpty(p: Pool, op: Op)
    requires PoolInv(p) && Legal(p, op)
    requires op.Dealloc? && ListIndex(op.layout).None? ==> op.addr in p.heap.live
    ensures var q := Apply(p, op);
            || q.origin == p.origin
            || (&& op.Alloc? && Chosen(p, op.layout).Some? && ListIndex(op.layout).Some?
                && IsClass(ListIndex(op.layout).value) && q.free[ListIndex(op.layout).value] == []
                && Chosen(p, op.layout).value !in p.origin
                && q.origin == p.origin[Chosen(p, op.layout).value := ListIndex(op.layout).value])
  {
    var l := op.layout;
    if op.Alloc? && Chosen(p, l).Some? && ListIndex(l).Some? {
      var j := ListIndex(l).value;
      ListIndexLeast(l);
      if p.free[j] == [] {
        ClassLayoutValid(j);
        FallbackSuits(p, ClassLayout(j), Layout(ClassBytes(j), BLOCK_SIZES[j]));
        CarvedInv(p, j, l, Chosen(p, l).value);
      }
    }
  }

  lemma CountStep(p: Pool, op: Op, i: int)
    requires PoolInv(p) && Legal(p, op) && IsClass(i)
    requires op.Dealloc? && ListIndex(op.layout).None? ==> op.addr in p.heap.live
    ensures CarvedCount(Apply(p, op), i) == Max(CarvedCount(p, i), LiveCount(Apply(p, op), i))
    ensures LiveCount(p, i) <= CarvedCount(p, i)
  {
    var q := Apply(p, op);
    StepInv(p, op);
    CarveOnlyWhenEmpty(p, op);
    CountSplit(p, i);
    CountSplit(q, i);
    if q.origin != p.origin {
      CountSplit(q, ListIndex(op.layout).value);
      CarveCounts(p, q, Chosen(p, op.layout).value, ListIndex(op.layout).value, i);
    }
  }

  /** The largest number of simultaneously live class-`i` blocks along a run. */
  ghost function Peak(p: Pool, ops: seq<Op>, i: int): int
    requires PoolInv(p) && LegalRun(p, ops)
    decreases |ops|
  {
    if ops == [] then LiveCount(p, i)
    else
      StepInv(p, ops[0]);
      Max(LiveCount(p, i), Peak(Apply(p, ops[0]), ops[1..], i))
  }

  lemma PeakFirst(p: Pool, ops: seq<Op>, i: int)
    requires PoolInv(p) && LegalRun(p, ops)
    ensures LiveCount(p, i) <= Peak(p, ops, i)
  {
  }

  /** Caching never carves more than the largest demand so far. */
  lemma {:induction false} HighWater(p: Pool, ops: seq<Op>, i: int)
    requires PoolInv(p) && LegalRun(p, ops) && IsClass(i)
    ensures CarvedCount(Run(p, ops), i) == Max(CarvedCount(p, i), Peak(p, ops, i))
    decreases |ops|
  {
    if ops == [] {
      CountSplit(p, i);
    } else {
      StepInv(p, ops[0]);
      CountStep(p, ops[0], i);
      PeakFirst(Apply(p, ops[0]), ops[1..], i);
      HighWater(Apply(p, ops[0]), ops[1..], i);
    }
  }

  function FreshPool(addr: int, size: int): Pool {
    Pool(Initial(addr, size), map[], seq(CLASSES, i => []), map[])
  }

  lemma FreshPoolInv(addr: int, size: int)
    requires 0 < addr && 0 <= size && addr + size <= HEAP_LIMIT && MIN_SIZE <= UsableSize(addr, size)
    ensures PoolInv(FreshPool(addr, size))
  {
    InitialInv(addr, size);
    var p := FreshPool(addr, size);
    forall i | 0 <= i < CLASSES ensures FreeOk(p, i) {
    }
  }

  /** From a fresh heap, the blocks carved for a class are exactly the peak number ever live at once. */
  lemma HighWaterMark(addr: int, size: int, ops: seq<Op>, i: int)
    requires 0 < addr && 0 <= size && addr + size <= HEAP_LIMIT && MIN_SIZE <= UsableSize(addr, size)
    requires PoolInv(FreshPool(addr, size)) && LegalRun(FreshPool(addr, size), ops) && IsClass(i)
    ensures CarvedCount(Run(FreshPool(addr, size), ops), i) == Peak(FreshPool(addr, size), ops, i)
  {
    var p := FreshPool(addr, size);
    HighWater(p, ops, i);
    PeakFirst(p, ops, i);
    assert ClassSet(p.origin, i) == {};
  }

  // ---------- bytes in use ----------

  /** Carved count times block bytes, summed over the classes below `n`. */
  function ClassTotal(origin: map<int, int>, n: int): int
    requires 0 <= n <= CLASSES
  {
    if n == 0 then 0 else ClassTotal(origin, n - 1) + |ClassSet(origin, n - 1)| * ClassBytes(n - 1)
  }

  lemma {:induction false} ClassTotalRemove(origin: map<int, int>, a: int, n: int)
    requires 0 <= n <= CLASSES && a in origin && IsClass(origin[a])
    ensures ClassTotal(origin, n) == ClassTotal(origin - {a}, n) + if origin[a] < n then ClassBytes(origin[a]) else 0
  {
    if n > 0 {
      ClassTotalRemove(origin, a, n - 1);
      var s, t := ClassSet(origin, n - 1), ClassSet(origin - {a}, n - 1);
      if origin[a] == n - 1 {
        assert s == t + {a};
        assert |s| * ClassBytes(n - 1) == |t| * ClassBytes(n - 1) + ClassBytes(n - 1);
      } else {
        assert s == t;
      }
    }
  }

  lemma {:induction false} ClassTotalEmpty(origin: map<int, int>, n: int)
    requires 0 <= n <= CLASSES && forall a :: a !in origin
    ensures ClassTotal(origin, n) == 0
  {
    if n > 0 {
      ClassTotalEmpty(origin, n - 1);
      assert ClassSet(origin, n - 1) == {};
    }
  }

  lemma {:induction false} SumSplit(live: map<int, int>, origin: map<int, int>)
    requires forall a :: a in origin ==> a in live && IsClass(origin[a]) && live[a] == ClassBytes(origin[a])
    ensures SumLive(live) == ClassTotal(origin, CLASSES) + SumLive(live - origin.Keys)
    decreases |origin|
  {
    if a :| a in origin {
      SumSplit(live - {a}, origin - {a});
      SumLiveRemove(live, a);
      ClassTotalRemove(origin, a, CLASSES);
      assert live - {a} - (origin - {a}).Keys == live - origin.Keys;
    } else {
      ClassTotalEmpty(origin, CLASSES);
      assert live - origin.Keys == live;
    }
  }

  /** `used` is what the classes hold, cached or not, plus the live large blocks. */
  lemma UsedBytes(p: Pool)
    requires PoolInv(p)
    ensures p.heap.used == ClassTotal(p.origin, CLASSES) + SumLive(p.heap.live - p.origin.Keys)
    ensures (p.heap.live - p.origin.Keys).Keys == set a | a in p.client && ListIndex(p.client[a]).None?
  {
    forall a | a in p.origin
      ensures a in p.heap.live && IsClass(p.origin[a]) && p.heap.live[a] == ClassBytes(p.origin[a])
    {
      assert CarvedOk(p, a);
    }
    SumSplit(p.heap.live, p.origin);
    forall a ensures a in (p.heap.live - p.origin.Keys).Keys <==> a in p.client && ListIndex(p.client[a]).None? {
      if a in p.client {
        assert ClientOk(p, a);
      }
    }
  }
}
