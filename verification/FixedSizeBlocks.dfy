/** The fixed-size block allocator as the kernel runs it: free-list nodes live inside the cached blocks. */
module FixedSizeBlocks {
  import opened Options
  import opened Alignment
  import opened Spans
  import opened HeapModel
  import HeapTheorems
  import opened HoleMemory
  import opened HoleLists
  import opened FixedSizeModel

  /** The j-th block of a free list, or 0 past the end. */
  function BlockAt(s: seq<int>, j: int): int
    requires 0 <= j
  {
    if j < |s| then s[j] else 0
  }

  /** The first word of the j-th cached block points to the next one. */
  predicate NextOk(m: Memory, s: seq<int>, j: int)
    requires 0 <= j < |s|
  {
    Load(m, s[j]) == BlockAt(s, j + 1)
  }

  predicate Cached(m: Memory, head: int, s: seq<int>) {
    head == BlockAt(s, 0) && forall j :: 0 <= j < |s| ==> NextOk(m, s, j)
  }

  lemma CachedElsewhere(m: Memory, n: Memory, head: int, s: seq<int>)
    requires Cached(m, head, s) && forall a :: a in s ==> Load(n, a) == Load(m, a)
    ensures Cached(n, head, s)
  {
    forall j | 0 <= j < |s| ensures NextOk(n, s, j) {
      assert NextOk(m, s, j);
    }
  }

  lemma CachedPop(m: Memory, head: int, s: seq<int>)
    requires Cached(m, head, s) && s != []
    ensures head == s[0] && Cached(m, Load(m, head), s[1..])
  {
    assert NextOk(m, s, 0);
    forall j | 0 <= j < |s[1..]| ensures NextOk(m, s[1..], j) {
      assert NextOk(m, s, j + 1);
    }
  }

  lemma CachedPush(m: Memory, head: int, s: seq<int>, a: int)
    requires Cached(m, head, s) && Load(m, a) == head
    ensures Cached(m, a, [a] + s)
  {
    var t := [a] + s;
    forall j | 0 <= j < |t| ensures NextOk(m, t, j) {
      if j > 0 {
        assert NextOk(m, s, j - 1);
      }
    }
  }

  /** Cached blocks are live for the fallback, so the fallback never touches their words. */
  lemma CachedIsOwned(p: Pool, i: int, a: int)
    requires PoolInv(p) && IsClass(i) && a in p.free[i]
    ensures a in p.heap.live && LiveAt(p.heap.live, a) && 0 < a && !Covers(p.heap.holes, a)
    ensures a in p.origin && p.origin[a] == i && a !in p.client
  {
    assert FreeOk(p, i) && CarvedOk(p, a);
    LiveBlockOwned(p.heap, a);
  }

  lemma LiveBlockOwned(h: Heap, a: int)
    requires Inv(h) && a in h.live
    ensures LiveAt(h.live, a) && 0 < a && !Covers(h.holes, a)
  {
    assert Block(h.live, a).Regular() && Block(h.live, a).Contains(a);
    OwnedWord(h, a);
  }

  ghost predicate AllCached(m: Memory, heads: seq<int>, free: seq<seq<int>>) {
    |heads| == |free| && forall i :: 0 <= i < |heads| ==> Cached(m, heads[i], free[i])
  }

  /** A change of memory outside all cached blocks keeps every free list. */
  lemma AllCachedUntouched(m: Memory, n: Memory, heads: seq<int>, p: Pool, hs: seq<Span>)
    requires PoolInv(p) && AllCached(m, heads, p.free) && Untouched(m, n, hs)
    requires forall i, a :: 0 <= i < CLASSES && a in p.free[i] ==> !Covers(hs, a)
    ensures AllCached(n, heads, p.free)
  {
    forall i | 0 <= i < |heads| ensures Cached(n, heads[i], p.free[i]) {
      forall a | a in p.free[i] ensures Load(n, a) == Load(m, a) {
        CachedIsOwned(p, i, a);
      }
      CachedElsewhere(m, n, heads[i], p.free[i]);
    }
  }

  /** What an allocation request returns; only a layout above all classes can panic. */
  function PoolOutcome(p: Pool, l: Layout): AllocResult
    requires ValidLayout(l) && |p.free| == CLASSES
  {
    if Chosen(p, l).Some? then Placed(Chosen(p, l).value)
    else if ListIndex(l).None? && AlignLayout(l).None? then Panicked
    else Null
  }

  class FixedSizeBlockAllocator {
    const listHeads: array<int>
    const fallback: LinkedListAllocator
    ghost var origin: map<int, int>
    ghost var free: seq<seq<int>>
    ghost var client: map<int, Layout>

    ghost function View(): Pool
      reads this, fallback, fallback.holes
    {
      Pool(fallback.View(), origin, free, client)
    }

    ghost predicate Valid()
      reads this, listHeads, fallback, fallback.holes
    {
      && listHeads.Length == CLASSES
      && fallback.Valid()
      && PoolInv(View())
      && AllCached(fallback.holes.mem, listHeads[..], free)
    }

    constructor ()
      ensures fresh(listHeads) && fresh(fallback) && fresh(fallback.holes)
      ensures listHeads.Length == CLASSES && fallback.Valid()
      ensures origin == map[] && client == map[] && free == seq(CLASSES, i => [])
      ensures forall i :: 0 <= i < CLASSES ==> listHeads[i] == 0
    {
      listHeads := new int[CLASSES](i => 0);
      fallback := new LinkedListAllocator();
      origin, client := map[], map[];
      free := seq(CLASSES, i => []);
    }

    method Init(addr: int, size: int) returns (ok: bool)
      requires 0 < addr && 0 <= size && addr + size <= HEAP_LIMIT
      requires listHeads.Length == CLASSES && forall i :: 0 <= i < CLASSES ==> listHeads[i] == 0
      requires origin == map[] && client == map[] && free == seq(CLASSES, i => [])
      modifies fallback, fallback.holes
      ensures ok <==> MIN_SIZE <= UsableSize(addr, size)
      ensures ok ==> Valid() && View() == FreshPool(addr, size)
    {
      ok := fallback.Init(addr, size);
      if ok {
        FreshPoolInv(addr, size);
      }
    }

    method FallbackAlloc(l: Layout) returns (r: AllocResult)
      requires Valid() && ValidLayout(l)
      modifies fallback, fallback.holes
      ensures fallback.Valid() && fallback.View() == HeapTheorems.Apply(old(fallback.View()), HeapTheorems.Alloc(l))
      ensures r == Outcome(old(fallback.View()), l)
      ensures AllCached(fallback.holes.mem, listHeads[..], free)
    {
      ghost var p, m := View(), fallback.holes.mem;
      r := fallback.AllocateFirstFit(l);
      forall i, a | 0 <= i < CLASSES && a in p.free[i] ensures !Covers(p.heap.holes, a) {
        CachedIsOwned(p, i, a);
      }
      AllCachedUntouched(m, fallback.holes.mem, listHeads[..], p, p.heap.holes);
    }

    /** Takes the first block off the free list of class `i`. */
    method Pop(i: int, ghost l: Layout) returns (node: int)
      requires Valid() && IsClass(i) && listHeads[i] != 0 && ValidLayout(l) && ListIndex(l) == Some(i)
      modifies this, listHeads, fallback.holes
      ensures old(free[i]) != [] && node == old(free[i][0])
      ensures Valid() && View() == Popped(old(View()), i, l)
    {
      ghost var p, heads, m := View(), listHeads[..], fallback.holes.mem;
      node := listHeads[i];
      assert Cached(m, heads[i], free[i]);
      assert free[i] != [];
      FreeMember(p, i);
      CachedIsOwned(p, i, node);
      PoppedInv(p, i, l);
      CachedPop(m, node, free[i]);
      listHeads[i] := 0;
      var next := Load(fallback.holes.mem, node);
      fallback.holes.StoreWord(node, 0);
      listHeads[i] := next;
      PopKeepsCached(p, heads, m, i, node, next);
      assert listHeads[..] == heads[i := next];
      free := free[i := free[i][1..]];
      client := client[node := l];
    }

    /** Puts a block on the free list of class `i`. */
    method Push(a: int, i: int)
      requires Valid() && IsClass(i) && a in client && ListIndex(client[a]) == Some(i)
      modifies this, listHeads, fallback.holes
      ensures Valid() && View() == DeallocStep(old(View()), a)
    {
      ghost var p, heads, m := View(), listHeads[..], fallback.holes.mem;
      assert ClientOk(p, a) && CarvedOk(p, a);
      LiveBlockOwned(p.heap, a);
      PushedInv(p, a, i);
      assert 8 <= BLOCK_SIZES[i] by { BlockSizesPow2(i); }
      var next := listHeads[i];
      listHeads[i] := 0;
      fallback.holes.StoreWord(a, next);
      listHeads[i] := a;
      PushKeepsCached(p, heads, m, i, a);
      assert listHeads[..] == heads[i := a];
      free := free[i := [a] + free[i]];
      client := client - {a};
    }

    /** No block is cached: a new one is carved for class `i`. */
    method CarveBlock(i: int, ghost l: Layout) returns (r: AllocResult)
      requires Valid() && ValidLayout(l) && ListIndex(l) == Some(i) && IsClass(i) && free[i] == []
      modifies this, fallback, fallback.holes
      ensures Valid() && View() == AllocStep(old(View()), l) && r == PoolOutcome(old(View()), l)
    {
      ghost var p := View();
      ClassLayoutValid(i);
      ghost var grown := HeapTheorems.Apply(p.heap, HeapTheorems.Alloc(ClassLayout(i)));
      r := FallbackAlloc(ClassLayout(i));
      assert fallback.View() == grown;
      CarveStep(p, i, l, r, grown);
      origin, client := AllocStep(p, l).origin, AllocStep(p, l).client;
    }

    /** A layout above all classes goes straight to the fallback. */
    method AllocLarge(l: Layout) returns (r: AllocResult)
      requires Valid() && ValidLayout(l) && ListIndex(l).None?
      modifies this, fallback, fallback.holes
      ensures Valid() && View() == AllocStep(old(View()), l) && r == PoolOutcome(old(View()), l)
    {
      ghost var p := View();
      ghost var grown := HeapTheorems.Apply(p.heap, HeapTheorems.Alloc(l));
      r := FallbackAlloc(l);
      assert fallback.View() == grown;
      LargeStep(p, l, r, grown);
      client := AllocStep(p, l).client;
    }

    method Alloc(l: Layout) returns (r: AllocResult)
      requires Valid() && ValidLayout(l)
      modifies this, listHeads, fallback, fallback.holes
      ensures Valid() && View() == AllocStep(old(View()), l)
      ensures r == PoolOutcome(old(View()), l)
    {
      ListIndexLeast(l);
      match ListIndex(l)
      case Some(i) =>
        HeadIsNull(View(), listHeads[..], fallback.holes.mem, i);
        if listHeads[i] != 0 {
          var node := Pop(i, l);
          return Placed(node);
        }
        r := CarveBlock(i, l);
      case None =>
        r := AllocLarge(l);
    }

    method Dealloc(ptr: int, l: Layout)
      requires Valid() && Legal(View(), Op.Dealloc(ptr, l))
      modifies this, listHeads, fallback, fallback.holes
      ensures Valid() && View() == DeallocStep(old(View()), ptr)
    {
      ghost var p := View();
      DeallocStepInv(p, ptr);
      ListIndexLeast(l);
      match ListIndex(l)
      case Some(i) =>
        Push(ptr, i);
      case None =>
        assert ClientOk(p, ptr);
        LiveBlockOwned(p.heap, ptr);
        assert ptr != 0;
        ghost var m := fallback.holes.mem;
        fallback.Deallocate(ptr, l);
        client := client - {ptr};
        forall i, a | 0 <= i < CLASSES && a in p.free[i] ensures !Covers(fallback.holes.holes, a) {
          CachedIsOwned(View(), i, a);
        }
        AllCachedUntouched(m, fallback.holes.mem, listHeads[..], p, fallback.holes.holes);
    }
  }

  lemma CarveStep(p: Pool, i: int, l: Layout, r: AllocResult, grown: Heap)
    requires PoolInv(p) && ValidLayout(l) && ListIndex(l) == Some(i) && IsClass(i) && p.free[i] == []
    requires ValidLayout(ClassLayout(i)) && r == Outcome(p.heap, ClassLayout(i))
    requires grown == HeapTheorems.Apply(p.heap, HeapTheorems.Alloc(ClassLayout(i)))
    ensures r == PoolOutcome(p, l) && PoolInv(AllocStep(p, l))
    ensures AllocStep(p, l).heap == grown && AllocStep(p, l).free == p.free
  {
    AllocStepInv(p, l);
    ClassLayoutValid(i);
  }

  lemma LargeStep(p: Pool, l: Layout, r: AllocResult, grown: Heap)
    requires PoolInv(p) && ValidLayout(l) && ListIndex(l).None? && r == Outcome(p.heap, l)
    requires grown == HeapTheorems.Apply(p.heap, HeapTheorems.Alloc(l))
    ensures r == PoolOutcome(p, l) && PoolInv(AllocStep(p, l))
    ensures AllocStep(p, l).heap == grown && AllocStep(p, l).free == p.free && AllocStep(p, l).origin == p.origin
  {
    AllocStepInv(p, l);
  }

  lemma HeadIsNull(p: Pool, heads: seq<int>, m: Memory, i: int)
    requires PoolInv(p) && IsClass(i) && AllCached(m, heads, p.free)
    ensures heads[i] == 0 <==> p.free[i] == []
  {
    assert Cached(m, heads[i], p.free[i]);
    if p.free[i] != [] {
      CachedIsOwned(p, i, p.free[i][0]);
    }
  }

  lemma PopKeepsCached(p: Pool, heads: seq<int>, m: Memory, i: int, node: int, next: int)
    requires PoolInv(p) && IsClass(i) && AllCached(m, heads, p.free) && p.free[i] != [] && node == p.free[i][0]
    requires next == Load(m, node)
    ensures AllCached(m[node := 0], heads[i := next], p.free[i := p.free[i][1..]])
  {
    var n, free := m[node := 0], p.free[i := p.free[i][1..]];
    FreeMember(p, i);
    forall j | 0 <= j < |heads| ensures Cached(n, heads[i := next][j], free[j]) {
      assert Cached(m, heads[j], p.free[j]);
      assert FreeOk(p, j);
      if j == i {
        CachedPop(m, node, p.free[i]);
      }
      CachedElsewhere(m, n, heads[i := next][j], free[j]);
    }
  }

  lemma PushKeepsCached(p: Pool, heads: seq<int>, m: Memory, i: int, a: int)
    requires PoolInv(p) && IsClass(i) && AllCached(m, heads, p.free) && a in p.client
    ensures AllCached(m[a := heads[i]], heads[i := a], p.free[i := [a] + p.free[i]])
  {
    var n, free := m[a := heads[i]], p.free[i := [a] + p.free[i]];
    forall j | 0 <= j < |heads| ensures Cached(n, heads[i := a][j], free[j]) {
      assert Cached(m, heads[j], p.free[j]);
      forall c | c in p.free[j] ensures c != a {
        CachedIsOwned(p, j, c);
      }
      CachedElsewhere(m, n, heads[j], p.free[j]);
      if j == i {
        CachedPush(n, heads[i], p.free[i], a);
      }
    }
  }
}
