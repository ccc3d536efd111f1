/**
  Whole-run theorems about the hole-list heap: the invariant in every reachable
  state, the hole list as a function of the live blocks alone, and what follows:
  undo, order independence, accounting and extension.
 */
module HeapTheorems {
  import opened Options
  import opened Alignment
  import opened Spans
  import opened HeapModel

  datatype Op =
    | Alloc(layout: Layout)
    | Free(addr: int, layout: Layout)
    | Extend(amount: int)

  /** What the unsafe contracts demand of a caller: free only what was handed out, with its layout. */
  predicate Legal(h: Heap, op: Op) {
    match op
    case Alloc(l) => ValidLayout(l)
    case Free(a, l) => ValidLayout(l) && a in h.live && AlignLayout(l).Some? && AlignLayout(l).value.size == h.live[a]
    case Extend(n) => h != EMPTY && 0 <= n && h.top + h.pending + n <= HEAP_LIMIT
  }

  /** The address an allocation request yields: `None` for the null result and for a panic. */
  function Chosen(h: Heap, l: Layout): Option<int>
    requires ValidLayout(l)
  {
    match AlignLayout(l)
    case None => None
    case Some(al) => FirstFit(h.holes, al)
  }

  function Apply(h: Heap, op: Op): Heap
    requires Legal(h, op)
  {
    match op
    case Alloc(l) =>
      if Chosen(h, l).Some? then Allocated(h, Span(Chosen(h, l).value, AlignLayout(l).value.size)) else h
    case Free(a, _) => Freed(h, a)
    case Extend(n) => Extended(h, n)
  }

  predicate LegalRun(h: Heap, ops: seq<Op>)
    decreases |ops|
  {
    ops == [] || (Legal(h, ops[0]) && LegalRun(Apply(h, ops[0]), ops[1..]))
  }

  function Run(h: Heap, ops: seq<Op>): Heap
    requires LegalRun(h, ops)
    decreases |ops|
  {
    if ops == [] then h else Run(Apply(h, ops[0]), ops[1..])
  }

  /** What a successful allocation returns: fresh, aligned, large enough. */
  lemma ChosenFits(h: Heap, l: Layout)
    requires Inv(h) && ValidLayout(l) && Chosen(h, l).Some?
    ensures AlignLayout(l).Some?
    ensures var b := Span(Chosen(h, l).value, AlignLayout(l).value.size);
            b.Regular() && Aligned(b.addr, l.align) && l.size <= b.size && FitsSome(h.holes, b)
  {
    AlignLayoutShape(l);
    HolesInAddressSpace(h);
    FirstFitSound(h.holes, AlignLayout(l).value);
  }

  lemma ApplyInv(h: Heap, op: Op)
    requires Inv(h) && Legal(h, op)
    ensures Inv(Apply(h, op))
  {
    match op
    case Alloc(l) =>
      if Chosen(h, l).Some? {
        ChosenFits(h, l);
        AllocatedInv(h, Span(Chosen(h, l).value, AlignLayout(l).value.size));
      }
    case Free(a, _) => FreedInv(h, a);
    case Extend(n) => ExtendedInv(h, n);
  }

  /** In every reachable state holes and blocks tile the heap and the books balance. */
  lemma {:induction false} RunInv(h: Heap, ops: seq<Op>)
    requires Inv(h) && LegalRun(h, ops)
    ensures Inv(Run(h, ops))
    decreases |ops|
  {
    if ops != [] {
      ApplyInv(h, ops[0]);
      RunInv(Apply(h, ops[0]), ops[1..]);
    }
  }

  function TotalExtension(ops: seq<Op>): int {
    if ops == [] then 0
    else (if ops[0].Extend? then ops[0].amount else 0) + TotalExtension(ops[1..])
  }

  /** `top()` is the original end address plus everything ever added, whatever was carried over on the way. */
  lemma {:induction false} RunTop(h: Heap, ops: seq<Op>)
    requires Inv(h) && LegalRun(h, ops)
    ensures Run(h, ops).top + Run(h, ops).pending == h.top + h.pending + TotalExtension(ops)
    ensures Run(h, ops).bottom == h.bottom
    ensures 0 <= Run(h, ops).pending < MIN_SIZE
    decreases |ops|
  {
    if ops != [] {
      ApplyInv(h, ops[0]);
      if ops[0].Extend? {
        ExtendedInv(h, ops[0].amount);
      }
      RunTop(Apply(h, ops[0]), ops[1..]);
    }
  }

  /**
    An extension grows the heap exactly when, with what was carried over, it makes
    up a hole; then all of it but fewer than 8 bytes is usable at once, and
    otherwise nothing but the bytes carried over has changed.
   */
  lemma ExtendExact(h: Heap, amount: int)
    requires Inv(h) && h != EMPTY && 0 <= amount && h.top + h.pending + amount <= HEAP_LIMIT
    ensures var g := Extended(h, amount);
            && (g.top > h.top <==> MIN_SIZE <= h.pending + amount)
            && (g.top > h.top ==> 0 <= g.pending < 8 && g.top % 8 == 0)
            && (g.top <= h.top ==> g == h.(pending := h.pending + amount))
            && g.live == h.live && g.bottom == h.bottom
            && (forall x :: Covers(g.holes, x) <==> Covers(h.holes, x) || h.top <= x < g.top)
  {
    ExtendedInv(h, amount);
    var g, n := Extended(h, amount), h.pending + amount;
    if MIN_SIZE <= n {
      RoundDown(n);
      var b := Span(h.top, AlignDownSize(n, HOLE_ALIGN));
      BeyondTop(h, b.size);
      forall x ensures Covers(g.holes, x) <==> Covers(h.holes, x) || h.top <= x < g.top {
        InsertCovers(h.holes, b, x);
      }
    }
  }

  // ---------- canonical form ----------

  /** The hole list is determined by the bounds and the live blocks alone. */
  lemma Canonical(g: Heap, h: Heap)
    requires Inv(g) && Inv(h)
    requires g.bottom == h.bottom && g.top == h.top && g.live == h.live
    ensures g.holes == h.holes && g.used == h.used
  {
    forall x ensures Covers(g.holes, x) <==> Covers(h.holes, x) {
      if !(g.bottom <= x < g.top) {
        CoveredInside(g, x);
        CoveredInside(h, x);
      }
    }
    Unique(g.holes, h.holes);
  }

  lemma CoveredInside(h: Heap, x: int)
    requires HolesOk(h)
    ensures Covers(h.holes, x) ==> h.bottom <= x < h.top
  {
  }

  /**
    History independence: two runs of any operations in any order that end with
    the same blocks live and the same bytes added end in the same hole list.
   */
  lemma HistoryIndependence(h: Heap, ops1: seq<Op>, ops2: seq<Op>)
    requires Inv(h) && LegalRun(h, ops1) && LegalRun(h, ops2)
    requires Run(h, ops1).live == Run(h, ops2).live && Run(h, ops1).top == Run(h, ops2).top
    ensures Run(h, ops1) == Run(h, ops2).(pending := Run(h, ops1).pending)
  {
    RunInv(h, ops1);
    RunInv(h, ops2);
    RunTop(h, ops1);
    RunTop(h, ops2);
    Canonical(Run(h, ops1), Run(h, ops2));
  }

  /** Allocating and then releasing restores the heap exactly. */
  lemma AllocFreeUndo(h: Heap, l: Layout)
    requires Inv(h) && ValidLayout(l) && Chosen(h, l).Some?
    ensures LegalRun(h, [Alloc(l), Free(Chosen(h, l).value, l)])
    ensures Run(h, [Alloc(l), Free(Chosen(h, l).value, l)]) == h
  {
    ChosenFits(h, l);
    var p := Chosen(h, l).value;
    var b := Span(p, AlignLayout(l).value.size);
    AllocatedInv(h, b);
    var g := Apply(h, Alloc(l));
    assert Legal(g, Free(p, l));
    InsertUndoesCarve(h.holes, b);
    assert g.live - {p} == h.live;
    assert Freed(g, p) == h;
    RunTwo(h, Alloc(l), Free(p, l));
  }

  lemma RunTwo(h: Heap, o1: Op, o2: Op)
    requires Legal(h, o1) && Legal(Apply(h, o1), o2)
    ensures LegalRun(h, [o1, o2]) && Run(h, [o1, o2]) == Apply(Apply(h, o1), o2)
  {
    var g := Apply(h, o1);
    assert [o1, o2][1..] == [o2];
    assert [o2][1..] == [];
    assert Run(g, [o2]) == Run(Apply(g, o2), []);
  }

  lemma FreedTwice(h: Heap, a: int, b: int)
    requires Inv(h) && a in h.live && b in h.live && a != b
    ensures Inv(Freed(Freed(h, a), b))
    ensures Freed(Freed(h, a), b).live == h.live - {a, b}
  {
    FreedInv(h, a);
    FreedInv(Freed(h, a), b);
    assert h.live - {a} - {b} == h.live - {a, b};
  }

  /** Releasing two blocks commutes. */
  lemma FreesCommute(h: Heap, a: int, b: int)
    requires Inv(h) && a in h.live && b in h.live && a != b
    ensures Freed(Freed(h, a), b) == Freed(Freed(h, b), a)
  {
    FreedTwice(h, a, b);
    FreedTwice(h, b, a);
    assert h.live - {a, b} == h.live - {b, a};
    Canonical(Freed(Freed(h, a), b), Freed(Freed(h, b), a));
  }

  /** Once nothing is live the heap is the single hole from bottom to top, however it got there. */
  lemma {:induction false} Drained(h: Heap, ops: seq<Op>)
    requires Inv(h) && h != EMPTY && LegalRun(h, ops) && Run(h, ops).live == map[]
    ensures var g := Run(h, ops);
            g.holes == [Span(g.bottom, g.top - g.bottom)] && g.used == 0
  {
    RunInv(h, ops);
    RunNotEmpty(h, ops);
    WholeHole(Run(h, ops));
  }

  lemma WholeHole(g: Heap)
    requires Inv(g) && g != EMPTY && g.live == map[]
    ensures g.holes == [Span(g.bottom, g.top - g.bottom)] && g.used == 0
  {
    var whole := [Span(g.bottom, g.top - g.bottom)];
    assert whole[0].Regular();
    forall x ensures Covers(g.holes, x) <==> Covers(whole, x) {
      CoversOne(whole[0], x);
      CoveredInside(g, x);
    }
    Unique(g.holes, whole);
  }

  lemma {:induction false} RunNotEmpty(h: Heap, ops: seq<Op>)
    requires Inv(h) && h != EMPTY && LegalRun(h, ops)
    ensures Run(h, ops) != EMPTY
    decreases |ops|
  {
    if ops != [] {
      ApplyInv(h, ops[0]);
      RunNotEmpty(Apply(h, ops[0]), ops[1..]);
    }
  }

  // ---------- first fit ----------

  /**
    A request is refused exactly when no hole has any aligned placement whose
    remainders are each empty or at least a hole; otherwise the block gets the
    lowest such address in the whole heap.
   */
  lemma FirstFitExact(h: Heap, l: Layout)
    requires Inv(h) && ValidLayout(l) && AlignLayout(l).Some?
    ensures Chosen(h, l).None? <==>
              forall i, p :: 0 <= i < |h.holes| ==> !IsPlacement(h.holes[i], AlignLayout(l).value, p)
    ensures Chosen(h, l).Some? ==>
              forall i, p :: 0 <= i < |h.holes| && IsPlacement(h.holes[i], AlignLayout(l).value, p) ==>
                Chosen(h, l).value <= p
  {
    var al := AlignLayout(l).value;
    AlignLayoutShape(l);
    HolesInAddressSpace(h);
    forall i, p | 0 <= i < |h.holes| && IsPlacement(h.holes[i], al, p)
      ensures Chosen(h, l).Some? && Chosen(h, l).value <= p
    {
      FirstFitComplete(h.holes, al, i, p);
    }
    if Chosen(h, l).Some? {
      FirstFitSound(h.holes, al);
      var b := Span(Chosen(h, l).value, al.size);
      var i :| 0 <= i < |h.holes| && Fits(h.holes[i], b);
      assert IsPlacement(h.holes[i], al, b.addr);
    }
  }

  // ---------- accounting ----------

  /** `free()` never underflows and is the sum of the hole sizes. */
  lemma FreeBytes(h: Heap, ops: seq<Op>)
    requires Inv(h) && LegalRun(h, ops)
    ensures var g := Run(h, ops);
            0 <= g.used <= g.top - g.bottom && (g.top - g.bottom) - g.used == Total(g.holes)
  {
    RunInv(h, ops);
    TotalNonNegative(Run(h, ops).holes);
    SumLiveNonNegative(Run(h, ops).live);
  }

  lemma TotalNonNegative(hs: seq<Span>)
    requires AllRegular(hs)
    ensures 0 <= Total(hs)
  {
  }

  lemma {:induction false} SumLiveNonNegative(live: map<int, int>)
    requires forall a :: a in live ==> 0 <= live[a]
    ensures 0 <= SumLive(live)
    decreases |live|
  {
    if a :| a in live {
      SumLiveRemove(live, a);
      SumLiveNonNegative(live - {a});
    }
  }

  /** The documented minimum: any region of 23 bytes is enough, and fewer than 16 never is. */
  lemma InitialMinimum(addr: int, size: int)
    requires 0 < addr && 0 <= size && addr + size <= HEAP_LIMIT
    ensures 23 <= size ==> MIN_SIZE <= UsableSize(addr, size)
    ensures size < 16 ==> UsableSize(addr, size) < MIN_SIZE
  {
    AlignUpEight(addr);
  }
}
