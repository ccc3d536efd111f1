/**
  What the fixed-size block allocator promises its clients: exactly when a request
  is refused, where every byte goes on an allocation and on a release, and what
  the one undoes of the other.
 */
module FixedSizeTheorems {
  import opened Options
  import opened Alignment
  import opened Spans
  import opened HeapModel
  import opened FixedSizeModel
  import HeapTheorems

  // ---------- refusal ----------

  /** Some hole has room for the block. */
  ghost predicate HasRoom(h: Heap, l: Layout)
    requires 0 < l.align
  {
    exists i, a :: 0 <= i < |h.holes| && IsPlacement(h.holes[i], l, a)
  }

  /** Block `a` was carved for class `i` and no client has it. */
  predicate Idle(p: Pool, i: int, a: int) {
    a in p.origin && p.origin[a] == i && a !in p.client
  }

  /** The block that the fallback is asked for. */
  function Wanted(l: Layout): Option<Layout>
    requires ValidLayout(l)
  {
    match ListIndex(l)
    case None => AlignLayout(l)
    case Some(i) =>
      ListIndexLeast(l);
      Some(Layout(ClassBytes(i), BLOCK_SIZES[i]))
  }

  lemma WantedIsBlock(l: Layout)
    requires ValidLayout(l) && Wanted(l).Some?
    ensures 0 < Wanted(l).value.align
  {
    ListIndexLeast(l);
    if ListIndex(l).Some? {
      ClassLayoutValid(ListIndex(l).value);
    } else {
      AlignLayoutShape(l);
    }
  }

  lemma CachedIsIdle(p: Pool, i: int)
    requires PoolInv(p) && IsClass(i)
    ensures p.free[i] != [] <==> exists a :: Idle(p, i, a)
    ensures p.free[i] != [] ==> Idle(p, i, p.free[i][0])
  {
    if p.free[i] != [] {
      FreeMember(p, i);
      assert Idle(p, i, p.free[i][0]);
    }
    forall a | Idle(p, i, a) ensures p.free[i] != [] {
      assert CarvedOk(p, a);
    }
  }

  /**
    A request is refused exactly when no block of its class is idle and no hole has
    room for a new one. An idle block is handed out without touching the heap;
    otherwise the block gets the lowest possible address in the heap.
   */
  lemma RefusedExactly(p: Pool, l: Layout)
    requires PoolInv(p) && ValidLayout(l)
    ensures Wanted(l).Some? ==> 0 < Wanted(l).value.align
    ensures Chosen(p, l).Some? <==>
            || (ListIndex(l).Some? && exists a :: Idle(p, ListIndex(l).value, a))
            || (Wanted(l).Some? && HasRoom(p.heap, Wanted(l).value))
    ensures var idle := ListIndex(l).Some? && exists a :: Idle(p, ListIndex(l).value, a);
            && (idle ==> Idle(p, ListIndex(l).value, Chosen(p, l).value))
            && (idle ==> AllocStep(p, l).heap == p.heap && AllocStep(p, l).origin == p.origin)
            && (Chosen(p, l).None? ==> AllocStep(p, l) == p)
            && (!idle && Chosen(p, l).Some? ==>
                forall i, a :: 0 <= i < |p.heap.holes| && IsPlacement(p.heap.holes[i], Wanted(l).value, a) ==>
                  Chosen(p, l).value <= a)
  {
    ListIndexLeast(l);
    if Wanted(l).Some? {
      WantedIsBlock(l);
    }
    match ListIndex(l)
    case None =>
      if AlignLayout(l).Some? {
        HeapTheorems.FirstFitExact(p.heap, l);
      }
    case Some(i) =>
      CachedIsIdle(p, i);
      ClassLayoutValid(i);
      HeapTheorems.FirstFitExact(p.heap, ClassLayout(i));
  }

  // ---------- where the bytes are ----------

  datatype Place = InHole | WithClient | InCache(i: int)

  /** Byte `x` is at place `w`. */
  predicate At(p: Pool, w: Place, x: int) {
    match w
    case InHole => Covers(p.heap.holes, x)
    case WithClient => AtClient(p, x)
    case InCache(i) => 0 <= i < |p.free| && AtFree(p, i, x)
  }

  /** Where the bytes of block `a` are. */
  function PlaceOf(p: Pool, a: int): Place
    requires a in p.client || a in p.origin
  {
    if a in p.client then WithClient else InCache(p.origin[a])
  }

  lemma AtBlock(p: Pool, a: int, x: int, w: Place)
    requires PoolInv(p) && a in p.heap.live && Block(p.heap.live, a).Contains(x)
    ensures a in p.client || a in p.origin
    ensures At(p, w, x) <==> w == PlaceOf(p, a)
  {
    assert Block(p.heap.live, a).Regular();
    assert LiveAt(p.heap.live, x) && !Covers(p.heap.holes, x);
    if a !in p.client {
      assert CarvedOk(p, a);
    }
    forall c | c in p.heap.live && Block(p.heap.live, c).Contains(x) ensures c == a {
      OwnerUnique(p.heap, a, c, x);
    }
    if w.InCache? && 0 <= w.i < CLASSES {
      assert FreeOk(p, w.i);
      if a in p.origin {
        assert CarvedOk(p, a);
      }
    }
  }

  lemma AtElsewhere(p: Pool, x: int, w: Place)
    requires PoolInv(p) && !LiveAt(p.heap.live, x)
    ensures At(p, w, x) <==> w.InHole? && Covers(p.heap.holes, x)
  {
  }

  /** Which block a byte belongs to is all that decides its place. */
  lemma SamePlace(p: Pool, q: Pool, x: int, w: Place)
    requires PoolInv(p) && PoolInv(q) && (Covers(p.heap.holes, x) <==> Covers(q.heap.holes, x))
    requires forall a :: a in p.heap.live && Block(p.heap.live, a).Contains(x) ==>
               && a in q.heap.live && q.heap.live[a] == p.heap.live[a]
               && (a in p.client <==> a in q.client) && (a in p.origin <==> a in q.origin)
               && (a in p.origin && a in q.origin ==> p.origin[a] == q.origin[a])
    requires LiveAt(q.heap.live, x) ==> LiveAt(p.heap.live, x)
    ensures At(p, w, x) <==> At(q, w, x)
  {
    if LiveAt(p.heap.live, x) {
      var a :| a in p.heap.live && Block(p.heap.live, a).Contains(x);
      AtBlock(p, a, x, w);
      AtBlock(q, a, x, w);
    } else {
      AtElsewhere(p, x, w);
      AtElsewhere(q, x, w);
    }
  }

  /** The bytes of `b` are at place `to`, all other bytes are where they were, and the bytes of `b` came from `from`. */
  ghost predicate Moved(p: Pool, q: Pool, b: Span, from: Place, to: Place) {
    forall x, w :: MovedAt(p, q, b, from, to, x, w)
  }

  predicate MovedAt(p: Pool, q: Pool, b: Span, from: Place, to: Place, x: int, w: Place) {
    if b.Contains(x) then (At(p, w, x) <==> w == from) && (At(q, w, x) <==> w == to)
    else At(q, w, x) <==> At(p, w, x)
  }

  // ---------- release ----------

  /** Where a released block goes. */
  function Home(l: Layout): Place {
    match ListIndex(l)
    case Some(i) => InCache(i)
    case None => InHole
  }

  /** A block put into the cache. */
  lemma PushedMoves(p: Pool, q: Pool, i: int, a: int)
    requires PoolInv(p) && PoolInv(q) && a in p.client && a in p.heap.live
    requires q.heap == p.heap && Idle(q, i, a) && SameOthers(p, q, a)
    ensures Moved(p, q, Block(p.heap.live, a), WithClient, InCache(i))
  {
    forall x, w ensures MovedAt(p, q, Block(p.heap.live, a), WithClient, InCache(i), x, w) {
      if Block(p.heap.live, a).Contains(x) {
        AtBlock(p, a, x, w);
        AtBlock(q, a, x, w);
      } else {
        SamePlace(p, q, x, w);
      }
    }
  }

  lemma FreedInside(p: Pool, q: Pool, a: int, x: int, w: Place)
    requires PoolInv(p) && PoolInv(q) && a in p.client && a in p.heap.live && q.heap.live == p.heap.live - {a}
    requires Block(p.heap.live, a).Contains(x) && Covers(q.heap.holes, x)
    ensures MovedAt(p, q, Block(p.heap.live, a), WithClient, InHole, x, w)
  {
    AtBlock(p, a, x, w);
    CoveredIsFree(q.heap, x);
    AtElsewhere(q, x, w);
  }

  lemma FreedOutside(p: Pool, q: Pool, a: int, x: int, w: Place)
    requires PoolInv(p) && PoolInv(q) && a in p.heap.live && q.heap.live == p.heap.live - {a} && SameOthers(p, q, a)
    requires !Block(p.heap.live, a).Contains(x) && (Covers(p.heap.holes, x) <==> Covers(q.heap.holes, x))
    ensures MovedAt(p, q, Block(p.heap.live, a), WithClient, InHole, x, w)
  {
    if LiveAt(q.heap.live, x) {
      var c :| c in q.heap.live && Block(q.heap.live, c).Contains(x);
      assert c in p.heap.live && Block(p.heap.live, c).Contains(x);
    }
    SamePlace(p, q, x, w);
  }

  /** A block given back to the heap. */
  lemma FreedMoves(p: Pool, q: Pool, a: int)
    requires PoolInv(p) && PoolInv(q) && a in p.client && a in p.heap.live
    requires q.heap == Freed(p.heap, a) && SameOthers(p, q, a)
    ensures Moved(p, q, Block(p.heap.live, a), WithClient, InHole)
  {
    BlockDisjoint(p.heap, a);
    forall x, w ensures MovedAt(p, q, Block(p.heap.live, a), WithClient, InHole, x, w) {
      InsertCovers(p.heap.holes, Block(p.heap.live, a), x);
      if Block(p.heap.live, a).Contains(x) {
        FreedInside(p, q, a, x, w);
      } else {
        FreedOutside(p, q, a, x, w);
      }
    }
  }

  /**
    A release takes the block from the client and nothing else. Its bytes go to the
    cache of its class, or, for a large block, back to the holes of the heap; all
    other bytes stay where they are. Only a large block is no longer in use then.
   */
  lemma ReleaseExact(p: Pool, a: int)
    requires PoolInv(p) && a in p.client
    ensures a in p.heap.live && PoolInv(DeallocStep(p, a))
    ensures var q, l := DeallocStep(p, a), p.client[a];
            && q.client == p.client - {a}
            && Moved(p, q, Block(p.heap.live, a), WithClient, Home(l))
            && q.heap.used == p.heap.used - (if ListIndex(l).None? then p.heap.live[a] else 0)
            && (forall c :: c in p.heap.live && c != a ==> c in q.heap.live && q.heap.live[c] == p.heap.live[c])
  {
    DeallocStepInv(p, a);
    ListIndexLeast(p.client[a]);
    assert a in p.heap.live.Keys && ClientOk(p, a);
    match ListIndex(p.client[a])
    case Some(i) => PushedMoves(p, DeallocStep(p, a), i, a);
    case None => FreedMoves(p, DeallocStep(p, a), a);
  }

  /** The next request of the same class, whatever its layout, gets the released block back and nothing else changes. */
  lemma ReleasedIsNext(p: Pool, a: int, l: Layout)
    requires PoolInv(p) && a in p.client && ListIndex(p.client[a]).Some? && ValidLayout(l)
    requires ListIndex(l) == ListIndex(p.client[a])
    ensures |DeallocStep(p, a).free| == CLASSES && Chosen(DeallocStep(p, a), l) == Some(a)
    ensures AllocStep(DeallocStep(p, a), l) == p.(client := p.client[a := l])
  {
    ListIndexLeast(l);
    var i, q := ListIndex(l).value, DeallocStep(p, a);
    assert q.free[i] == [a] + p.free[i];
    assert q.free[i := q.free[i][1..]] == p.free;
    assert q.client[a := l] == p.client[a := l];
  }

  // ---------- allocation ----------

  /** Where the block of a request comes from. */
  ghost function Source(p: Pool, l: Layout): Place {
    if ListIndex(l).Some? && exists a :: Idle(p, ListIndex(l).value, a) then InCache(ListIndex(l).value) else InHole
  }

  lemma StepIsCarved(p: Pool, l: Layout, i: int)
    requires ValidLayout(l) && |p.free| == CLASSES && ListIndex(l) == Some(i) && IsClass(i) && p.free[i] == []
    ensures AllocStep(p, l) == if Chosen(p, l).None? then p else Carved(p, i, l, Chosen(p, l).value)
  {
  }

  lemma StepIsHanded(p: Pool, l: Layout)
    requires ValidLayout(l) && |p.free| == CLASSES && ListIndex(l).None?
    ensures Chosen(p, l).Some? ==> AlignLayout(l).Some? && AllocStep(p, l) == Handed(p, l, Chosen(p, l).value)
  {
  }

  lemma LargeBlock(p: Pool, l: Layout)
    requires PoolInv(p) && ValidLayout(l) && ListIndex(l).None? && Chosen(p, l).Some?
    ensures AlignLayout(l).Some?
    ensures var b := Span(Chosen(p, l).value, AlignLayout(l).value.size);
            b.Regular() && FitsSome(p.heap.holes, b) && b.addr !in p.heap.live
  {
    HeapTheorems.ChosenFits(p.heap, l);
    AllocatedInv(p.heap, Span(Chosen(p, l).value, AlignLayout(l).value.size));
  }

  lemma ClassBlock(p: Pool, l: Layout, i: int)
    requires PoolInv(p) && ValidLayout(l) && ListIndex(l) == Some(i) && IsClass(i) && p.free[i] == []
    requires Chosen(p, l).Some?
    ensures var b := Span(Chosen(p, l).value, ClassBytes(i));
            b.Regular() && FitsSome(p.heap.holes, b) && b.addr !in p.heap.live
  {
    ClassLayoutValid(i);
    FallbackSuits(p, ClassLayout(i), Layout(ClassBytes(i), BLOCK_SIZES[i]));
    AllocatedInv(p.heap, Span(Chosen(p, l).value, ClassBytes(i)));
  }

  lemma CarvedBlock(p: Pool, l: Layout) returns (b: Span)
    requires PoolInv(p) && ValidLayout(l) && Chosen(p, l).Some? && Source(p, l).InHole?
    ensures b.addr == Chosen(p, l).value && b.Regular() && FitsSome(p.heap.holes, b) && b.addr !in p.heap.live
    ensures AllocStep(p, l).heap == Allocated(p.heap, b)
    ensures SameOthers(p, AllocStep(p, l), b.addr) && b.addr in AllocStep(p, l).client
  {
    ListIndexLeast(l);
    match ListIndex(l)
    case None =>
      LargeBlock(p, l);
      StepIsHanded(p, l);
      b := Span(Chosen(p, l).value, AlignLayout(l).value.size);
    case Some(i) =>
      CachedIsIdle(p, i);
      ClassBlock(p, l, i);
      StepIsCarved(p, l, i);
      b := Span(Chosen(p, l).value, ClassBytes(i));
  }

  /** The two pools agree on who carved and who has every block but `a`. */
  ghost predicate SameOthers(p: Pool, q: Pool, a: int) {
    && (forall c :: c != a ==> (c in p.client <==> c in q.client) && (c in p.origin <==> c in q.origin))
    && (forall c :: c != a && c in p.origin && c in q.origin ==> p.origin[c] == q.origin[c])
  }

  lemma CarvedInside(p: Pool, q: Pool, b: Span, x: int, w: Place)
    requires PoolInv(p) && PoolInv(q) && b.addr in q.client && b.addr in q.heap.live && Block(q.heap.live, b.addr) == b
    requires b.Contains(x) && Covers(p.heap.holes, x)
    ensures MovedAt(p, q, b, InHole, WithClient, x, w)
  {
    AtBlock(q, b.addr, x, w);
    CoveredIsFree(p.heap, x);
    AtElsewhere(p, x, w);
  }

  lemma CarvedOutside(p: Pool, q: Pool, b: Span, x: int, w: Place)
    requires PoolInv(p) && PoolInv(q) && !b.Contains(x) && (Covers(p.heap.holes, x) <==> Covers(q.heap.holes, x))
    requires b.addr !in p.heap.live && q.heap.live == p.heap.live[b.addr := b.size] && SameOthers(p, q, b.addr)
    ensures MovedAt(p, q, b, InHole, WithClient, x, w)
  {
    if LiveAt(q.heap.live, x) {
      var c :| c in q.heap.live && Block(q.heap.live, c).Contains(x);
      assert c in p.heap.live && Block(p.heap.live, c).Contains(x);
    }
    SamePlace(p, q, x, w);
  }

  /** A block taken out of a hole. */
  lemma CarvedMoves(p: Pool, q: Pool, b: Span)
    requires PoolInv(p) && PoolInv(q) && b.Regular() && FitsSome(p.heap.holes, b) && b.addr !in p.heap.live
    requires q.heap == Allocated(p.heap, b) && b.addr in q.client && SameOthers(p, q, b.addr)
    ensures Moved(p, q, b, InHole, WithClient)
  {
    forall x, w ensures MovedAt(p, q, b, InHole, WithClient, x, w) {
      CarveCovers(p.heap.holes, b, x);
      if b.Contains(x) {
        CarvedInside(p, q, b, x, w);
      } else {
        CarvedOutside(p, q, b, x, w);
      }
    }
  }

  /** A block taken out of the cache. */
  lemma PoppedMoves(p: Pool, q: Pool, i: int, a: int)
    requires PoolInv(p) && PoolInv(q) && Idle(p, i, a) && a in p.heap.live
    requires q.heap == p.heap && a in q.client && SameOthers(p, q, a)
    ensures Moved(p, q, Block(p.heap.live, a), InCache(i), WithClient)
  {
    forall x, w ensures MovedAt(p, q, Block(p.heap.live, a), InCache(i), WithClient, x, w) {
      if Block(p.heap.live, a).Contains(x) {
        AtBlock(p, a, x, w);
        AtBlock(q, a, x, w);
      } else {
        SamePlace(p, q, x, w);
      }
    }
  }

  lemma CoveredIsFree(h: Heap, x: int)
    requires Inv(h) && Covers(h.holes, x)
    ensures !LiveAt(h.live, x)
  {
    HeapTheorems.CoveredInside(h, x);
  }

  /** Client `l` has got block `a`, its bytes came from `from`, and nothing else has changed. */
  ghost predicate HandedOut(p: Pool, q: Pool, l: Layout, a: int, from: Place) {
    && a in q.heap.live && a !in p.client && q.client == p.client[a := l]
    && Moved(p, q, Block(q.heap.live, a), from, WithClient)
    && q.heap.used == p.heap.used + (if from.InHole? then q.heap.live[a] else 0)
    && (forall c :: c in p.heap.live ==> c in q.heap.live && q.heap.live[c] == p.heap.live[c])
  }

  lemma HoleToClient(p: Pool, q: Pool, l: Layout, b: Span)
    requires PoolInv(p) && PoolInv(q) && b.Regular() && FitsSome(p.heap.holes, b) && b.addr !in p.heap.live
    requires b.addr !in p.client && q.client == p.client[b.addr := l]
    requires q.heap == Allocated(p.heap, b) && SameOthers(p, q, b.addr)
    ensures HandedOut(p, q, l, b.addr, InHole)
  {
    CarvedMoves(p, q, b);
  }

  lemma CacheToClient(p: Pool, l: Layout, i: int)
    requires PoolInv(p) && ValidLayout(l) && ListIndex(l) == Some(i) && IsClass(i) && p.free[i] != []
    ensures HandedOut(p, Popped(p, i, l), l, p.free[i][0], InCache(i))
  {
    FreeMember(p, i);
    PoppedInv(p, i, l);
    PoppedMoves(p, Popped(p, i, l), i, p.free[i][0]);
  }

  /**
    An allocation gives the client one block and changes nothing else: its bytes come
    from the cache of the class if a block is idle there and from a hole otherwise,
    and all other bytes stay where they are.
   */
  lemma AllocExact(p: Pool, l: Layout)
    requires PoolInv(p) && ValidLayout(l) && Chosen(p, l).Some?
    ensures PoolInv(AllocStep(p, l)) && HandedOut(p, AllocStep(p, l), l, Chosen(p, l).value, Source(p, l))
  {
    AllocStepInv(p, l);
    AllocSuits(p, l);
    if Source(p, l).InHole? {
      var b := CarvedBlock(p, l);
      HoleToClient(p, AllocStep(p, l), l, b);
    } else {
      ListIndexLeast(l);
      CachedIsIdle(p, ListIndex(l).value);
      CacheToClient(p, l, ListIndex(l).value);
    }
  }

  // ---------- undo ----------

  lemma HeapUndo(h: Heap, b: Span)
    requires Separated(h.holes) && b.Regular() && FitsSome(h.holes, b) && b.addr !in h.live
    ensures Freed(Allocated(h, b), b.addr) == h
  {
    InsertUndoesCarve(h.holes, b);
    assert h.live[b.addr := b.size] - {b.addr} == h.live;
  }

  lemma HandedUndo(p: Pool, q: Pool, a: int)
    requires a in q.client && a in q.heap.live && |q.free| == CLASSES && ListIndex(q.client[a]).None?
    requires Freed(q.heap, a) == p.heap && q.client - {a} == p.client && q.origin == p.origin && q.free == p.free
    ensures DeallocStep(q, a) == p
  {
  }

  lemma LargeUndo(p: Pool, l: Layout)
    requires PoolInv(p) && ValidLayout(l) && Chosen(p, l).Some? && ListIndex(l).None?
    ensures var q, a := AllocStep(p, l), Chosen(p, l).value;
            |q.free| == CLASSES && a in q.client && a in q.heap.live && DeallocStep(q, a) == p
  {
    var a := Chosen(p, l).value;
    LargeBlock(p, l);
    StepIsHanded(p, l);
    AllocSuits(p, l);
    HeapUndo(p.heap, Span(a, AlignLayout(l).value.size));
    assert p.client[a := l] - {a} == p.client;
    HandedUndo(p, AllocStep(p, l), a);
  }

  lemma CacheUndo(p: Pool, l: Layout, i: int)
    requires PoolInv(p) && ValidLayout(l) && ListIndex(l) == Some(i) && IsClass(i) && p.free[i] != []
    ensures var q, a := AllocStep(p, l), p.free[i][0];
            Chosen(p, l) == Some(a) && a in q.client && DeallocStep(q, a) == p
  {
    FreeMember(p, i);
    var q, a := AllocStep(p, l), p.free[i][0];
    assert q == Popped(p, i, l);
    assert q.client - {a} == p.client;
    assert [a] + q.free[i] == p.free[i];
    assert q.free[i := [a] + q.free[i]] == p.free;
  }

  lemma CarveUndo(p: Pool, l: Layout, i: int, a: int)
    requires |p.free| == CLASSES && ListIndex(l) == Some(i) && IsClass(i) && p.free[i] == [] && a !in p.client
    ensures var q := Carved(p, i, l, a);
            DeallocStep(q, a) == q.(client := p.client, free := p.free[i := [a]])
  {
    FirstCached(Carved(p, i, l, a), a, i);
    assert p.client[a := l] - {a} == p.client;
  }

  lemma FirstCached(q: Pool, a: int, i: int)
    requires a in q.client && |q.free| == CLASSES && IsClass(i) && ListIndex(q.client[a]) == Some(i) && q.free[i] == []
    ensures DeallocStep(q, a) == q.(client := q.client - {a}, free := q.free[i := [a]])
  {
    assert [a] + q.free[i] == [a];
  }

  /** Releasing what was just allocated restores the pool, unless a block was carved for the class: it stays cached. */
  lemma AllocReleaseUndo(p: Pool, l: Layout)
    requires PoolInv(p) && ValidLayout(l) && Chosen(p, l).Some?
    ensures var q, a := AllocStep(p, l), Chosen(p, l).value;
            && |q.free| == CLASSES && a in q.client && q.client[a] == l && (ListIndex(l).None? ==> a in q.heap.live)
            && if Source(p, l) == Home(l) then DeallocStep(q, a) == p
               else
                 && ListIndex(l).Some? && IsClass(ListIndex(l).value)
                 && DeallocStep(q, a) == q.(client := p.client, free := p.free[ListIndex(l).value := [a]])
  {
    AllocSuits(p, l);
    ListIndexLeast(l);
    match ListIndex(l)
    case None => LargeUndo(p, l);
    case Some(i) =>
      CachedIsIdle(p, i);
      if p.free[i] != [] {
        CacheUndo(p, l, i);
      } else {
        StepIsCarved(p, l, i);
        CarveUndo(p, l, i, Chosen(p, l).value);
      }
  }
}
