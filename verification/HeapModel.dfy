/**
  The hole-list heap as a value: the free ranges, the blocks handed out, and the
  operations on them. `HoleLists` proves that the pointer code computes exactly this.
 */
module HeapModel {
  import opened Options
  import opened Alignment
  import opened Spans

  /**
    `holes` are the free ranges in list order, `live` maps the address of every
    block handed out to its size, and `pending` is the part of an extension too
    small to be used so far.
   */
  datatype Heap = Heap(bottom: int, top: int, pending: int, used: int, holes: seq<Span>, live: map<int, int>)

  function Block(live: map<int, int>, a: int): Span
    requires a in live
  {
    Span(a, live[a])
  }

  /** Byte `x` belongs to a block that has been handed out. */
  predicate LiveAt(live: map<int, int>, x: int) {
    exists a :: a in live && Block(live, a).Contains(x)
  }

  ghost function SumLive(live: map<int, int>): int
    decreases |live|
  {
    if forall a :: a !in live then 0
    else
      var a :| a in live;
      live[a] + SumLive(live - {a})
  }

  // ---------- the invariant ----------

  const EMPTY: Heap := Heap(0, 0, 0, 0, [], map[])

  predicate Bounded(h: Heap) {
    || h == EMPTY
    || (&& 0 < h.bottom && h.bottom % 8 == 0 && h.top % 8 == 0 && h.bottom + MIN_SIZE <= h.top
        && 0 <= h.pending < MIN_SIZE && h.top + h.pending <= HEAP_LIMIT)
  }

  predicate HolesOk(h: Heap) {
    Separated(h.holes) && Within(h.holes, h.bottom, h.top)
  }

  predicate LiveOk(live: map<int, int>, bottom: int, top: int) {
    && (forall a :: a in live ==> Block(live, a).Regular() && bottom <= a && Block(live, a).End() <= top)
    && (forall a, b :: a in live && b in live && a != b ==> Apart(Block(live, a), Block(live, b)))
  }

  /** Every byte of the heap is in a hole or in a block, and never in both. */
  predicate Tiled(h: Heap) {
    forall x :: h.bottom <= x < h.top ==> (Covers(h.holes, x) <==> !LiveAt(h.live, x))
  }

  ghost predicate Accounted(h: Heap) {
    h.used + Total(h.holes) == h.top - h.bottom && h.used == SumLive(h.live)
  }

  ghost predicate Inv(h: Heap) {
    Bounded(h) && HolesOk(h) && LiveOk(h.live, h.bottom, h.top) && Tiled(h) && Accounted(h)
  }

  // ---------- operations ----------

  /** `p` is an aligned address at which the block leaves no remainder too small for a hole. */
  predicate IsPlacement(h: Span, l: Layout, p: int)
    requires 0 < l.align
  {
    Aligned(p, l.align) && Fits(h, Span(p, l.size))
  }

  /** The single address tried in one hole. */
  function Start(h: Span, l: Layout): int
    requires 0 < l.align
  {
    if Aligned(h.addr, l.align) then h.addr else AlignUp(h.addr + MIN_SIZE, l.align)
  }

  function Place(h: Span, l: Layout): Option<int>
    requires 0 < l.align
  {
    if Fits(h, Span(Start(h, l), l.size)) then Some(Start(h, l)) else None
  }

  function FirstFit(hs: seq<Span>, l: Layout): Option<int>
    requires 0 < l.align
  {
    if hs == [] then None
    else if Place(hs[0], l).Some? then Place(hs[0], l)
    else FirstFit(hs[1..], l)
  }

  function Allocated(h: Heap, b: Span): Heap {
    h.(holes := Carve(h.holes, b), live := h.live[b.addr := b.size], used := h.used + b.size)
  }

  function Freed(h: Heap, a: int): Heap
    requires a in h.live
  {
    h.(holes := Insert(h.holes, Block(h.live, a)), live := h.live - {a}, used := h.used - h.live[a])
  }

  function Extended(h: Heap, amount: int): Heap {
    var n := h.pending + amount;
    if n < MIN_SIZE then h.(pending := n)
    else
      var grown := AlignDownSize(n, HOLE_ALIGN);
      h.(holes := Insert(h.holes, Span(h.top, grown)), top := h.top + grown, pending := n - grown)
  }

  /** The usable part of `size` bytes at `addr`: 8-aligned at both ends. */
  function UsableStart(addr: int): int {
    AlignUp(addr, HOLE_ALIGN)
  }

  function UsableSize(addr: int, size: int): int {
    AlignDownSize(size - (UsableStart(addr) - addr), HOLE_ALIGN)
  }

  function Initial(addr: int, size: int): Heap {
    var start, n := UsableStart(addr), UsableSize(addr, size);
    Heap(start, start + n, addr + size - (start + n), 0, [Span(start, n)], map[])
  }

  // ---------- placement ----------

  /** A layout as it reaches the hole list. */
  predicate BlockLayout(l: Layout) {
    ValidLayout(l) && l.size % 8 == 0 && MIN_SIZE <= l.size
  }

  predicate InAddressSpace(h: Span) {
    h.Regular() && 0 < h.addr && h.End() <= HEAP_LIMIT
  }

  /** A hole that misses the alignment is pushed forward to an 8-aligned start. */
  lemma Realigned(h: Span, l: Layout)
    requires InAddressSpace(h) && BlockLayout(l) && !Aligned(h.addr, l.align)
    ensures 16 <= l.align
    ensures var q := AlignUp(h.addr + MIN_SIZE, l.align);
            && h.addr + MIN_SIZE <= q < h.addr + MIN_SIZE + l.align && q % 8 == 0 && Aligned(q, l.align)
            && forall p :: h.addr + MIN_SIZE <= p && Aligned(p, l.align) ==> q <= p
  {
    if l.align <= 8 {
      SmallAlignment(h.addr, l.align);
      assert false;
    }
    AlignUpLeast(h.addr + MIN_SIZE, l.align);
    LargeAlignment(AlignUp(h.addr + MIN_SIZE, l.align), l.align);
  }

  lemma PlaceSound(h: Span, l: Layout)
    requires InAddressSpace(h) && BlockLayout(l) && Place(h, l).Some?
    ensures IsPlacement(h, l, Place(h, l).value)
    ensures Span(Place(h, l).value, l.size).Regular()
  {
    if !Aligned(h.addr, l.align) {
      Realigned(h, l);
    }
  }

  /** Trying one address is enough: if any address works, the one tried works and is the lowest. */
  lemma PlaceComplete(h: Span, l: Layout, p: int)
    requires InAddressSpace(h) && BlockLayout(l) && IsPlacement(h, l, p)
    ensures Place(h, l).Some? && Place(h, l).value <= p
  {
    if !Aligned(h.addr, l.align) {
      Realigned(h, l);
      var q := AlignUp(h.addr + MIN_SIZE, l.align);
      if q < p {
        MultiplesApart(q, p, l.align);
      }
    }
  }

  /** One hole is refused exactly when it has no placement at all. */
  lemma PlaceExact(h: Span, l: Layout)
    requires InAddressSpace(h) && BlockLayout(l)
    ensures Place(h, l).Some? <==> exists p :: IsPlacement(h, l, p)
  {
    if Place(h, l).Some? {
      PlaceSound(h, l);
    }
    forall p | IsPlacement(h, l, p) ensures Place(h, l).Some? {
      PlaceComplete(h, l, p);
    }
  }

  /** The 64-bit address arithmetic of a split never wraps, and its test for alignment is exact. */
  lemma SplitArithmetic(h: Span, l: Layout)
    requires InAddressSpace(h) && BlockLayout(l)
    ensures h.addr == AlignUp(h.addr, l.align) <==> Aligned(h.addr, l.align)
    ensures WrappingAdd(h.addr, MIN_SIZE) == h.addr + MIN_SIZE && WrappingAdd(h.addr, h.size) == h.End()
    ensures WrappingAdd(Start(h, l), l.size) == Start(h, l) + l.size < ADDRESS_SPACE
    ensures Start(h, l) % 8 == 0 && (Start(h, l) == h.addr || h.addr + MIN_SIZE <= Start(h, l))
  {
    AlignUpLeast(h.addr, l.align);
    if !Aligned(h.addr, l.align) {
      Realigned(h, l);
    }
  }

  predicate AllInAddressSpace(hs: seq<Span>) {
    forall i :: 0 <= i < |hs| ==> InAddressSpace(hs[i])
  }

  lemma {:induction false} FirstFitSound(hs: seq<Span>, l: Layout)
    requires AllInAddressSpace(hs) && BlockLayout(l) && FirstFit(hs, l).Some?
    ensures Aligned(FirstFit(hs, l).value, l.align)
    ensures Span(FirstFit(hs, l).value, l.size).Regular()
    ensures FitsSome(hs, Span(FirstFit(hs, l).value, l.size))
  {
    if Place(hs[0], l).Some? {
      PlaceSound(hs[0], l);
    } else {
      FirstFitSound(hs[1..], l);
      var b := Span(FirstFit(hs, l).value, l.size);
      var i :| 0 <= i < |hs[1..]| && Fits(hs[1..][i], b);
      assert hs[i + 1] == hs[1..][i];
    }
  }

  /**
    First fit is complete and address-minimal over the whole heap: whenever some
    hole admits a placement at `p`, the search succeeds at `p` or below.
   */
  lemma {:induction false} FirstFitComplete(hs: seq<Span>, l: Layout, i: int, p: int)
    requires Separated(hs) && AllInAddressSpace(hs) && BlockLayout(l)
    requires 0 <= i < |hs| && IsPlacement(hs[i], l, p)
    ensures FirstFit(hs, l).Some? && FirstFit(hs, l).value <= p
    decreases |hs|
  {
    if i == 0 {
      PlaceComplete(hs[0], l, p);
    } else if Place(hs[0], l).Some? {
      PlaceSound(hs[0], l);
    } else {
      assert hs[1..][i - 1] == hs[i];
      FirstFitComplete(hs[1..], l, i - 1, p);
    }
  }

  lemma HolesInAddressSpace(h: Heap)
    requires Bounded(h) && HolesOk(h)
    ensures AllInAddressSpace(h.holes)
  {
    if h == EMPTY {
    } else {
      forall i | 0 <= i < |h.holes| ensures InAddressSpace(h.holes[i]) {
      }
    }
  }

  // ---------- sums over blocks ----------

  lemma {:induction false} SumLiveRemove(live: map<int, int>, a: int)
    requires a in live
    ensures SumLive(live) == live[a] + SumLive(live - {a})
    decreases |live|
  {
    var c :| c in live && SumLive(live) == live[c] + SumLive(live - {c});
    if a != c {
      SumLiveRemove(live - {c}, a);
      SumLiveRemove(live - {a}, c);
      assert live - {c} - {a} == live - {a} - {c};
    }
  }

  lemma SumLiveAdd(live: map<int, int>, a: int, n: int)
    requires a !in live
    ensures SumLive(live[a := n]) == SumLive(live) + n
  {
    SumLiveRemove(live[a := n], a);
    assert live[a := n] - {a} == live;
  }

  // ---------- each operation keeps the invariant ----------

  lemma LiveAtAdd(live: map<int, int>, b: Span, x: int)
    requires b.addr !in live
    ensures LiveAt(live[b.addr := b.size], x) <==> LiveAt(live, x) || b.Contains(x)
  {
    var l2 := live[b.addr := b.size];
    if LiveAt(live, x) {
      var a :| a in live && Block(live, a).Contains(x);
      assert a in l2 && Block(l2, a) == Block(live, a);
    }
    if b.Contains(x) {
      assert b.addr in l2 && Block(l2, b.addr) == b;
    }
    if LiveAt(l2, x) {
      var a :| a in l2 && Block(l2, a).Contains(x);
      if a != b.addr {
        assert a in live && Block(live, a) == Block(l2, a);
      }
    }
  }

  lemma LiveAtRemove(live: map<int, int>, bottom: int, top: int, a: int, x: int)
    requires a in live && LiveOk(live, bottom, top)
    ensures LiveAt(live - {a}, x) <==> LiveAt(live, x) && !Block(live, a).Contains(x)
  {
    if LiveAt(live - {a}, x) {
      var c :| c in live - {a} && Block(live - {a}, c).Contains(x);
      assert c in live && Block(live, c) == Block(live - {a}, c);
      assert Apart(Block(live, c), Block(live, a));
    }
    if LiveAt(live, x) && !Block(live, a).Contains(x) {
      var c :| c in live && Block(live, c).Contains(x);
      assert c in live - {a} && Block(live - {a}, c) == Block(live, c);
    }
  }

  lemma FreshBlockApart(h: Heap, b: Span, a: int)
    requires HolesOk(h) && LiveOk(h.live, h.bottom, h.top) && Tiled(h)
    requires b.Regular() && FitsSome(h.holes, b) && a in h.live
    ensures Apart(Block(h.live, a), b)
  {
    var c := Block(h.live, a);
    if !Apart(c, b) {
      var x := if c.addr < b.addr then b.addr else c.addr;
      assert c.Contains(x) && LiveAt(h.live, x);
      CarveCovers(h.holes, b, x);
      assert false;
    }
  }

  lemma FreshBlock(h: Heap, b: Span)
    requires HolesOk(h) && LiveOk(h.live, h.bottom, h.top) && Tiled(h)
    requires b.Regular() && FitsSome(h.holes, b)
    ensures b.addr !in h.live
    ensures LiveOk(h.live[b.addr := b.size], h.bottom, h.top)
  {
    forall a | a in h.live ensures Apart(Block(h.live, a), b) {
      FreshBlockApart(h, b, a);
    }
    var i :| 0 <= i < |h.holes| && Fits(h.holes[i], b);
    assert h.bottom <= h.holes[i].addr && h.holes[i].End() <= h.top;
    assert b.addr !in h.live;
    var l2 := h.live[b.addr := b.size];
    assert forall a :: a in h.live ==> Block(l2, a) == Block(h.live, a);
    assert Block(l2, b.addr) == b;
  }

  lemma AllocatedInv(h: Heap, b: Span)
    requires Inv(h) && b.Regular() && FitsSome(h.holes, b)
    ensures Inv(Allocated(h, b))
    ensures b.addr !in h.live
  {
    FreshBlock(h, b);
    CarveSeparated(h.holes, b);
    CarveWithin(h.holes, b, h.bottom, h.top);
    CarveTotal(h.holes, b);
    SumLiveAdd(h.live, b.addr, b.size);
    var g := Allocated(h, b);
    assert Tiled(g) by {
      forall x | h.bottom <= x < h.top ensures Covers(g.holes, x) <==> !LiveAt(g.live, x) {
        CarveCovers(h.holes, b, x);
        LiveAtAdd(h.live, b, x);
      }
    }
  }

  /** A block shares no byte with any hole. */
  lemma BlockDisjoint(h: Heap, a: int)
    requires HolesOk(h) && LiveOk(h.live, h.bottom, h.top) && Tiled(h) && a in h.live
    ensures Disjoint(h.holes, Block(h.live, a))
  {
    var b := Block(h.live, a);
    forall i | 0 <= i < |h.holes| ensures Apart(h.holes[i], b) {
      if !Apart(h.holes[i], b) {
        var x := if h.holes[i].addr < b.addr then b.addr else h.holes[i].addr;
        assert h.holes[i].Contains(x) && b.Contains(x);
        assert Covers(h.holes, x) && LiveAt(h.live, x);
        assert false;
      }
    }
  }

  lemma FreedInv(h: Heap, a: int)
    requires Inv(h) && a in h.live
    ensures Inv(Freed(h, a))
  {
    var b := Block(h.live, a);
    BlockDisjoint(h, a);
    InsertSeparated(h.holes, b);
    InsertWithin(h.holes, b, h.bottom, h.top);
    InsertTotal(h.holes, b);
    SumLiveRemove(h.live, a);
    var g := Freed(h, a);
    assert forall c :: c in g.live ==> c in h.live && Block(g.live, c) == Block(h.live, c);
    assert Tiled(g) by {
      forall x | h.bottom <= x < h.top ensures Covers(g.holes, x) <==> !LiveAt(g.live, x) {
        InsertCovers(h.holes, b, x);
        LiveAtRemove(h.live, h.bottom, h.top, a, x);
      }
    }
  }

  lemma BeyondTop(h: Heap, n: int)
    requires HolesOk(h) && 0 <= n
    ensures Disjoint(h.holes, Span(h.top, n))
  {
  }

  /** The heap with the range `b` added on top. */
  function Grown(h: Heap, b: Span, pending: int): Heap {
    h.(holes := Insert(h.holes, b), top := b.End(), pending := pending)
  }

  lemma GrownTiled(h: Heap, b: Span, pending: int)
    requires HolesOk(h) && Tiled(h) && LiveOk(h.live, h.bottom, h.top)
    requires b.addr == h.top && b.Regular() && h.bottom <= h.top
    ensures Tiled(Grown(h, b, pending))
  {
    var g := Grown(h, b, pending);
    BeyondTop(h, b.size);
    forall x | g.bottom <= x < g.top ensures Covers(g.holes, x) <==> !LiveAt(g.live, x) {
      InsertCovers(h.holes, b, x);
      if LiveAt(h.live, x) {
        LiveInside(h, x);
      }
    }
  }

  lemma LiveInside(h: Heap, x: int)
    requires LiveOk(h.live, h.bottom, h.top) && LiveAt(h.live, x)
    ensures h.bottom <= x < h.top
  {
  }

  lemma RoundDown(n: int)
    requires MIN_SIZE <= n
    ensures var r := AlignDownSize(n, HOLE_ALIGN); r % 8 == 0 && MIN_SIZE <= r <= n < r + 8
  {
  }

  lemma GrownHoles(h: Heap, b: Span)
    requires HolesOk(h) && b.addr == h.top && b.Regular() && h.bottom <= h.top
    ensures Separated(Insert(h.holes, b)) && Within(Insert(h.holes, b), h.bottom, b.End())
  {
    BeyondTop(h, b.size);
    InsertSeparated(h.holes, b);
    InsertWithin(h.holes, b, h.bottom, b.End());
  }

  lemma GrownLive(live: map<int, int>, bottom: int, top: int, end: int)
    requires LiveOk(live, bottom, top) && top <= end
    ensures LiveOk(live, bottom, end)
  {
  }

  lemma GrownInv(h: Heap, b: Span, pending: int)
    requires Inv(h) && h != EMPTY && b.addr == h.top && b.Regular()
    requires 0 <= pending < MIN_SIZE && b.End() + pending <= HEAP_LIMIT
    ensures Inv(Grown(h, b, pending))
  {
    GrownHoles(h, b);
    GrownLive(h.live, h.bottom, h.top, b.End());
    InsertTotal(h.holes, b);
    GrownTiled(h, b, pending);
    GrownBounded(h, b, pending);
  }

  lemma GrownBounded(h: Heap, b: Span, pending: int)
    requires Bounded(h) && h != EMPTY && b.addr == h.top && b.Regular()
    requires 0 <= pending < MIN_SIZE && b.End() + pending <= HEAP_LIMIT
    ensures Bounded(Grown(h, b, pending))
  {
  }

  lemma ExtendedInv(h: Heap, amount: int)
    requires Inv(h) && h != EMPTY && 0 <= amount && h.top + h.pending + amount <= HEAP_LIMIT
    ensures Inv(Extended(h, amount))
    ensures Extended(h, amount).pending < MIN_SIZE
    ensures Extended(h, amount).top + Extended(h, amount).pending == h.top + h.pending + amount
  {
    var n := h.pending + amount;
    if n >= MIN_SIZE {
      RoundDown(n);
      GrownInv(h, Span(h.top, AlignDownSize(n, HOLE_ALIGN)), n - AlignDownSize(n, HOLE_ALIGN));
    }
  }

  lemma InitialInv(addr: int, size: int)
    requires 0 < addr && 0 <= size && addr + size <= HEAP_LIMIT && MIN_SIZE <= UsableSize(addr, size)
    ensures Inv(Initial(addr, size)) && Initial(addr, size) != EMPTY
    ensures Initial(addr, size).top + Initial(addr, size).pending == addr + size
    ensures Initial(addr, size).pending < 8 && addr <= Initial(addr, size).bottom < addr + 8
  {
    AlignUpEight(addr);
    var g := Initial(addr, size);
    assert g.holes[0].Regular();
    assert Total(g.holes) == g.holes[0].size + Total(g.holes[1..]);
    forall x | g.bottom <= x < g.top ensures Covers(g.holes, x) <==> !LiveAt(g.live, x) {
      CoversOne(g.holes[0], x);
    }
  }
}
