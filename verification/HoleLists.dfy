/** The hole list as the kernel runs it: cursors and pointer surgery on word-addressed memory. */
module HoleLists {
  import opened Options
  import opened Alignment
  import opened Spans
  import opened HeapModel
  import opened HeapTheorems
  import opened HoleMemory

  /** How a hole is to be divided: an optional hole before the block, the block, an optional hole after it. */
  datatype SplitPlan = SplitPlan(front: Option<Span>, addr: int, back: Option<Span>)

  function Listed(s: Option<Span>): seq<Span> {
    match s
    case None => []
    case Some(x) => [x]
  }

  /** The hole over `[lo, hi)`, if there is room for one. */
  function Pad(lo: int, hi: int): Option<Span> {
    if lo < hi then Some(Span(lo, hi - lo)) else None
  }

  datatype AllocResult = Panicked | Null | Placed(addr: int)

  lemma BackPadding(end: int)
    requires 0 <= end && end % 8 == 0 && end <= HEAP_LIMIT
    ensures AlignUp(end, HOLE_ALIGN) == end && WrappingAdd(end, MIN_SIZE) == end + MIN_SIZE
  {
    AlignUpEight(end);
  }

  /** What an allocation request returns. */
  function Outcome(h: Heap, l: Layout): AllocResult
    requires ValidLayout(l)
  {
    if AlignLayout(l).None? then Panicked
    else if Chosen(h, l).None? then Null
    else Placed(Chosen(h, l).value)
  }

  /** Moves the start of a block up to the required alignment, leaving room for a hole in front if it has to move. */
  method AlignStart(hole: Span, l: Layout) returns (front: Option<Span>, aligned: int)
    requires InAddressSpace(hole) && BlockLayout(l)
    ensures aligned == Start(hole, l) && front == Pad(hole.addr, aligned)
    ensures aligned % 8 == 0 && (aligned == hole.addr || hole.addr + MIN_SIZE <= aligned)
    ensures WrappingAdd(aligned, l.size) == aligned + l.size < ADDRESS_SPACE
  {
    SplitArithmetic(hole, l);
    if hole.addr == AlignUp(hole.addr, l.align) {
      return None, hole.addr;
    }
    var newStart := WrappingAdd(hole.addr, MIN_SIZE);
    aligned := AlignUp(newStart, l.align);
    front := Some(Span(hole.addr, aligned - hole.addr));
  }

  /** Whether a block of `size` bytes at `p` fits, and the hole behind it. */
  method PadBack(hole: Span, p: int, size: int) returns (fits: bool, back: Option<Span>)
    requires InAddressSpace(hole) && 0 <= size && size % 8 == 0 && WrappingAdd(p, size) == p + size
    requires p % 8 == 0 && (p == hole.addr || hole.addr + MIN_SIZE <= p)
    ensures fits <==> Fits(hole, Span(p, size))
    ensures fits ==> back == Pad(p + size, hole.End())
  {
    var allocEnd := WrappingAdd(p, size);
    var holeEnd := WrappingAdd(hole.addr, hole.size);
    if allocEnd > holeEnd {
      return false, None;
    }
    var backSize := holeEnd - allocEnd;
    if backSize == 0 {
      return true, None;
    }
    BackPadding(allocEnd);
    var backStart := AlignUp(allocEnd, HOLE_ALIGN);
    var backEnd := WrappingAdd(backStart, MIN_SIZE);
    if backEnd <= holeEnd {
      return true, Some(Span(backStart, backSize));
    }
    return false, None;
  }

  /** The address arithmetic of one split, on 64-bit wrapping addresses. */
  method PlanSplit(hole: Span, l: Layout) returns (plan: Option<SplitPlan>)
    requires InAddressSpace(hole) && BlockLayout(l)
    ensures plan.None? <==> Place(hole, l).None?
    ensures plan.Some? ==>
              var p := Place(hole, l).value;
              plan.value == SplitPlan(Pad(hole.addr, p), p, Pad(p + l.size, hole.End()))
  {
    if hole.size < l.size {
      return None;
    }
    var front, aligned := AlignStart(hole, l);
    var fits, back := PadBack(hole, aligned, l.size);
    if !fits {
      return None;
    }
    return Some(SplitPlan(front, aligned, back));
  }

  /** The layout of a new region is valid and already that of a block, so neither unwrap fails. */
  method BlockSize(size: int) returns (n: int)
    requires MIN_SIZE <= size < HEAP_LIMIT && size % 8 == 0
    ensures n == size
  {
    var layout := Layout(size, 1);
    assert ValidLayout(layout);
    AlignLayoutIdempotent(layout);
    n := AlignLayout(layout).value.size;
  }

  /** At most two new nodes hang between `prev` and `next`. */
  predicate PiecesWritten(m: Memory, prev: int, ps: seq<Span>, next: int) {
    && |ps| <= 2
    && Load(m, prev + 8) == (if ps == [] then next else ps[0].addr)
    && (|ps| >= 1 ==> NodeAt(m, ps[0].addr, ps[0].size, if |ps| == 1 then next else ps[1].addr))
    && (|ps| == 2 ==> NodeAt(m, ps[1].addr, ps[1].size, next))
  }

  class HoleList {
    var mem: Memory
    var bottom: int
    var top: int
    var pendingExtend: int
    ghost var holes: seq<Span>      // the list held in memory
    ghost var live: map<int, int>   // the blocks handed out

    ghost function View(): Heap
      reads this
    {
      Heap(bottom, top, pendingExtend, SumLive(live), holes, live)
    }

    /** Memory holds the list `holes`, possibly with touching neighbours. */
    ghost predicate Chain()
      reads this
    {
      Linked(mem, holes) && Ordered(holes) && AllInAddressSpace(holes)
    }

    ghost predicate Valid()
      reads this
    {
      Linked(mem, holes) && Inv(View())
    }

    ghost predicate CursorAt(prev: int, hole: int, k: int)
      reads this
    {
      0 <= k < |holes| && prev == NodeBefore(holes, k) && hole == holes[k].addr
    }

    lemma ValidChain()
      requires Valid()
      ensures Chain()
    {
      SeparatedIsOrdered(holes);
      HolesInAddressSpace(View());
    }

    /** The pointer surgery of a split: replaces node `hole` by the paddings that are present. */
    method Stitch(prev: int, hole: int, front: Option<Span>, back: Option<Span>, ghost end: int, ghost ps: seq<Span>)
      requires ps == Listed(front) + Listed(back)
      requires prev + 16 <= hole && hole + 16 <= end
      requires front.Some? ==> front.value.addr == hole
      requires back.Some? ==> hole + 16 <= back.value.addr && back.value.addr + 16 <= end
      modifies `mem
      ensures LocalWrites(old(mem), mem, prev, hole, end)
      ensures PiecesWritten(mem, prev, ps, old(Load(mem, hole + 8)))
    {
      mem := mem[prev + 8 := 0];
      var next := Load(mem, hole + 8);
      mem := mem[hole + 8 := 0];
      match (front, back)
      case (None, None) =>
        mem := mem[prev + 8 := next];
      case (None, Some(pad)) => HangOne(prev, pad, next, hole, end);
      case (Some(pad), None) => HangOne(prev, pad, next, hole, end);
      case (Some(frontpad), Some(backpad)) => HangTwo(prev, frontpad, backpad, next, end);
    }

    /** One padding takes the place of the hole. */
    method HangOne(prev: int, pad: Span, next: int, ghost hole: int, ghost end: int)
      requires prev + 16 <= hole <= pad.addr && pad.addr + 16 <= end
      modifies `mem
      ensures LocalWrites(old(mem), mem, prev, hole, end)
      ensures Load(mem, prev + 8) == pad.addr && NodeAt(mem, pad.addr, pad.size, next)
    {
      mem := mem[pad.addr := pad.size][pad.addr + 8 := next];
      mem := mem[prev + 8 := pad.addr];
    }

    /** Two paddings take the place of the hole. */
    method HangTwo(prev: int, front: Span, back: Span, next: int, ghost end: int)
      requires prev + 16 <= front.addr && front.addr + 16 <= back.addr && back.addr + 16 <= end
      modifies `mem
      ensures LocalWrites(old(mem), mem, prev, front.addr, end)
      ensures Load(mem, prev + 8) == front.addr
      ensures NodeAt(mem, front.addr, front.size, back.addr) && NodeAt(mem, back.addr, back.size, next)
    {
      mem := mem[back.addr := back.size][back.addr + 8 := next];
      mem := mem[front.addr := front.size][front.addr + 8 := back.addr];
      mem := mem[prev + 8 := front.addr];
    }

    /** Cuts a block out of the current hole if that leaves no unusable remainder. */
    method SplitCurrent(prev: int, hole: int, l: Layout, ghost k: int) returns (r: Option<int>)
      requires Chain() && CursorAt(prev, hole, k) && BlockLayout(l)
      modifies `mem, `holes
      ensures r == Place(old(holes[k]), l)
      ensures r.None? ==> mem == old(mem) && holes == old(holes)
      ensures r.Some? ==> holes == Splice(old(holes), k, 1, Pieces(old(holes[k]), Span(r.value, l.size)))
      ensures Linked(mem, holes)
      ensures Untouched(old(mem), mem, old(holes))
    {
      ghost var h := holes[k];
      assert NodeOk(mem, holes, k) && InAddressSpace(h);
      var plan := PlanSplit(Span(hole, Load(mem, hole)), l);
      if plan.None? {
        return None;
      }
      var SplitPlan(front, addr, back) := plan.value;
      ghost var ps := Pieces(h, Span(addr, l.size));
      PrevBelow(holes, k);
      PlanFits(h, l, plan.value);
      Stitch(prev, hole, front, back, h.End(), ps);
      SplitLinked(old(mem), mem, holes, k, ps, AddrAt(holes, k + 1));
      holes := Splice(holes, k, 1, ps);
      return Some(addr);
    }

    /** Makes the memory at `addr` a node on its own. */
    method MakeHole(addr: int, size: int)
      requires addr % 8 == 0
      modifies `mem
      ensures NodeAt(mem, addr, size, 0) && HeaderOnly(old(mem), mem, addr)
    {
      assert addr % HOLE_ALIGN == 0;
      mem := mem[addr := size];
      mem := mem[addr + 8 := 0];
    }

    /** Grows the last hole to the top if the rest is too small for a hole of its own. */
    method CheckMergeTop(node: int)
      requires 0 <= node && 0 <= Load(mem, node) && node + Load(mem, node) <= HEAP_LIMIT
      requires (node + Load(mem, node)) % 8 == 0
      modifies `mem
      ensures TopClear(top, node + old(Load(mem, node))) ==> mem == old(mem)
      ensures !TopClear(top, node + old(Load(mem, node))) ==> mem == old(mem)[node := top - node]
    {
      var size := Load(mem, node);
      var end := WrappingAdd(node, size);
      if end < top {
        BackPadding(end);
        var nextHoleEnd := WrappingAdd(AlignUp(end, HOLE_ALIGN), MIN_SIZE);
        if nextHoleEnd > top {
          mem := mem[node := size + (top - end)];
        }
      }
    }

    /** Moves a hole down to the bottom if the bytes in between are too few for a hole of their own. */
    method CheckMergeBottom(node: int) returns (merged: int)
      requires 0 <= bottom <= node && bottom <= HEAP_LIMIT && bottom % 8 == 0
      modifies `mem
      ensures bottom + MIN_SIZE <= node ==> merged == node && mem == old(mem)
      ensures node < bottom + MIN_SIZE ==>
                && merged == bottom && NodeAt(mem, bottom, old(Load(mem, node)) + (node - bottom), 0)
                && HeaderOnly(old(mem), mem, bottom)
    {
      assert bottom % HOLE_ALIGN == 0;
      if WrappingAdd(bottom, MIN_SIZE) > node {
        var offset := node - bottom;
        var size := Load(mem, node) + offset;
        MakeHole(bottom, size);
        merged := bottom;
      } else {
        merged := node;
      }
    }

    /** Tries to link `node` in front of the current hole, which succeeds only at the head of the list. */
    method TryInsertBack(prev: int, hole: int, node: int, ghost b: Span) returns (ok: bool, current: int)
      requires Chain() && CursorAt(prev, hole, 0)
      requires b.addr == node && InAddressSpace(b) && Disjoint(holes, b) && NodeAt(mem, node, b.size, 0)
      requires 0 <= bottom <= HEAP_LIMIT && bottom % 8 == 0
      requires node < hole ==> BottomClear(bottom, node)
      modifies `mem, `holes
      ensures ok <==> node < hole
      ensures !ok ==> mem == old(mem) && holes == old(holes) && current == hole
      ensures ok ==> current == node && Between(old(holes), 0, b)
      ensures ok ==> holes == Splice(old(holes), 0, 0, [b]) && Linked(mem, holes)
      ensures ok ==> Untouched(old(mem), mem, holes)
    {
      if node < hole {
        assert NodeOk(mem, holes, 0) && Apart(holes[0], b);
        var size := Load(mem, node);
        assert WrappingAdd(node, size) <= hole;
        assert Load(mem, prev) == 0;
        var merged := CheckMergeBottom(node);
        assert merged == node && NodeAt(mem, node, b.size, 0);
        LinkWrites(old(mem), mem, prev, b, hole);
        mem := mem[prev + 8 := merged];
        mem := mem[merged + 8 := hole];
        AllPositive(holes);
        InsertLinked(old(mem), mem, holes, 0, b);
        holes := Splice(holes, 0, 0, [b]);
        return true, node;
      } else {
        return false, hole;
      }
    }

    /** Tries to link `node` in right behind the current hole. */
    method TryInsertAfter(hole: int, node: int, ghost k: int, ghost b: Span) returns (ok: bool)
      requires Chain() && 0 <= k < |holes| && hole == holes[k].addr && hole < node
      requires b.addr == node && InAddressSpace(b) && Disjoint(holes, b) && NodeAt(mem, node, b.size, 0)
      modifies `mem, `holes
      ensures ok <==> k + 1 == |old(holes)| || node < old(holes)[k + 1].addr
      ensures !ok ==> mem == old(mem) && holes == old(holes)
      ensures ok ==> Between(old(holes), k + 1, b)
      ensures ok ==> holes == Splice(old(holes), k + 1, 0, [b]) && Linked(mem, holes)
      ensures ok ==> Untouched(old(mem), mem, holes)
    {
      var size := Load(mem, node);
      var next := Load(mem, hole + 8);
      assert NodeOk(mem, holes, k) && InAddressSpace(holes[k]) && Apart(holes[k], b);
      if next != 0 {
        if node < next {
          assert InAddressSpace(holes[k + 1]) && Apart(holes[k + 1], b);
          assert WrappingAdd(node, size) <= next;
        } else {
          return false;
        }
      }
      assert hole < node;
      assert WrappingAdd(hole, Load(mem, hole)) <= node;
      LinkWrites(mem, mem, hole, b, next);
      mem := mem[hole + 8 := node];
      mem := mem[node + 8 := next];
      AllPositive(holes);
      InsertLinked(old(mem), mem, holes, k + 1, b);
      holes := Splice(holes, k + 1, 0, [b]);
      return true;
    }

    /** Merges the current hole with up to `n` following ones where they touch. */
    method TryMergeNextN(start: int, n: int, ghost first: int)
      requires Chain() && 0 <= first < |holes| && start == holes[first].addr && 0 <= n
      requires TopClear(top, holes[|holes| - 1].End())
      requires TouchingOnly(holes, first, first + n)
      modifies `mem, `holes
      ensures Chain() && Separated(holes)
      ensures forall x :: Covers(holes, x) <==> Covers(old(holes), x)
      ensures Untouched(old(mem), mem, old(holes))
    {
      var hole := start;
      ghost var k, last := first, holes[|holes| - 1].End();
      for i := 0 to n
        invariant Chain() && 0 <= k < |holes| && hole == holes[k].addr
        invariant holes[|holes| - 1].End() == last
        invariant TouchingOnly(holes, k, k + n - i)
        invariant Untouched(old(mem), mem, old(holes))
        invariant forall x :: Covers(holes, x) <==> Covers(old(holes), x)
      {
        var next := Load(mem, hole + 8);
        assert NodeOk(mem, holes, k);
        LastNode(holes, k);
        if next == 0 {
          CheckMergeLast(hole);
          NoneTouchingAfter(holes, k, k + n - i);
          return;
        }
        hole, k := MergeOrMoveOn(hole, next, k, k + n - i);
      }
      NoneTouchingAfter(holes, k, k);
    }

    /** Joins the current hole with the next one if they touch, else moves to the next one. */
    method MergeOrMoveOn(hole: int, next: int, ghost k: int, ghost hi: int) returns (current: int, ghost j: int)
      requires Chain() && 0 <= k < |holes| - 1 && hole == holes[k].addr && next == holes[k + 1].addr
      requires TouchingOnly(holes, k, hi)
      modifies `mem, `holes
      ensures Chain() && 0 <= j < |holes| && current == holes[j].addr
      ensures TouchingOnly(holes, j, j + (hi - k) - 1)
      ensures holes[|holes| - 1].End() == old(holes[|holes| - 1].End())
      ensures Untouched(old(mem), mem, old(holes))
      ensures forall x :: Covers(holes, x) <==> Covers(old(holes), x)
    {
      assert NodeOk(mem, holes, k) && InAddressSpace(holes[k]);
      var size := Load(mem, hole);
      var end := WrappingAdd(hole, size);
      if end == next {
        MergeWithNext(hole, next, k, hi);
        return hole, k;
      } else {
        SkippedTouching(holes, k, hi);
        return next, k + 1;
      }
    }

    /** At the last hole of a heap whose top is clear, the merge with the top changes nothing. */
    method CheckMergeLast(hole: int)
      requires Chain() && holes != [] && hole == holes[|holes| - 1].addr
      requires TopClear(top, holes[|holes| - 1].End())
      modifies `mem
      ensures mem == old(mem)
    {
      assert NodeOk(mem, holes, |holes| - 1) && InAddressSpace(holes[|holes| - 1]);
      CheckMergeTop(hole);
    }

    /** The surgery of one merge. */
    method MergeWithNext(hole: int, next: int, ghost k: int, ghost hi: int)
      requires Chain() && Touching(holes, k) && hole == holes[k].addr && next == holes[k + 1].addr
      requires TouchingOnly(holes, k, hi)
      modifies `mem, `holes
      ensures Chain() && k < |holes| && hole == holes[k].addr
      ensures TouchingOnly(holes, k, hi - 1)
      ensures holes[|holes| - 1].End() == old(holes[|holes| - 1].End())
      ensures Untouched(old(mem), mem, old(holes))
      ensures forall x :: Covers(holes, x) <==> Covers(old(holes), x)
    {
      HeadersApart(holes, k, k + 1);
      assert NodeOk(mem, holes, k) && NodeOk(mem, holes, k + 1);
      MergeWrites(mem, hole, next);
      AllPositive(holes);
      MergePairKeeps(holes, k, hi);
      var nextSize := Load(mem, next);
      var nextNext := Load(mem, next + 8);
      mem := mem[next + 8 := 0];
      mem := mem[hole + 8 := nextNext];
      mem := mem[hole := Load(mem, hole) + nextSize];
      MergeLinked(old(mem), mem, holes, k);
      holes := MergePair(holes, k);
    }

    /** Finds the place of the freed node and links it in; the cursor is left where merging has to start. */
    method Link(node: int, ghost b: Span) returns (current: int, merges: int, ghost k: int)
      requires Chain() && Separated(holes) && holes != []
      requires b.addr == node && InAddressSpace(b) && Disjoint(holes, b) && NodeAt(mem, node, b.size, 0)
      requires 0 <= bottom <= HEAP_LIMIT && bottom % 8 == 0
      requires EdgesClear(holes, b, bottom, top)
      modifies `mem, `holes
      ensures Between(old(holes), k, b) && holes == Splice(old(holes), k, 0, [b])
      ensures merges == (if k == 0 then 1 else 2)
      ensures current == if k == 0 then node else old(holes)[k - 1].addr
      ensures Linked(mem, holes) && Untouched(old(mem), mem, holes)
    {
      ghost var hs := holes;
      var prev, hole := STUB, Load(mem, STUB + 8);
      var back;
      back, current := TryInsertBack(prev, hole, node, b);
      if back {
        return current, 1, 0;
      }
      assert Apart(hs[0], b) && InAddressSpace(hs[0]);
      current, k := LinkAfter(hole, node, b);
      return current, 2, k + 1;
    }

    /** Advances the cursor until the freed node belongs right behind it. */
    method LinkAfter(start: int, node: int, ghost b: Span) returns (hole: int, ghost k: int)
      requires Chain() && holes != [] && start == holes[0].addr && start < node
      requires b.addr == node && InAddressSpace(b) && Disjoint(holes, b) && NodeAt(mem, node, b.size, 0)
      modifies `mem, `holes
      ensures 0 <= k < |old(holes)| && hole == old(holes)[k].addr && Between(old(holes), k + 1, b)
      ensures holes == Splice(old(holes), k + 1, 0, [b]) && Linked(mem, holes) && Untouched(old(mem), mem, holes)
    {
      ghost var hs := holes;
      hole, k := start, 0;
      var ok := TryInsertAfter(hole, node, k, b);
      while !ok
        invariant 0 <= k < |hs| && hole == hs[k].addr && hole < node
        invariant !ok ==> holes == hs && mem == old(mem) && k + 1 < |hs| && hs[k + 1].addr <= node
        invariant ok ==> Between(hs, k + 1, b) && holes == Splice(hs, k + 1, 0, [b])
        invariant ok ==> Linked(mem, holes) && Untouched(old(mem), mem, holes)
        decreases |hs| - k, !ok
      {
        var next := Load(mem, hole + 8);
        NextHole(mem, hs, k, b);
        assert next != 0;
        hole, k := next, k + 1;
        ok := TryInsertAfter(hole, node, k, b);
      }
    }

    /** The freed node becomes the only hole. */
    method LinkOnly(node: int, ghost b: Span)
      requires holes == [] && Linked(mem, []) && b.addr == node && InAddressSpace(b) && NodeAt(mem, node, b.size, 0)
      requires 0 <= bottom <= HEAP_LIMIT && bottom % 8 == 0
      requires BottomClear(bottom, node) && TopClear(top, b.End())
      modifies `mem, `holes
      ensures holes == [b] && Linked(mem, holes) && Untouched(old(mem), mem, holes)
    {
      var hole := CheckMergeBottom(node);
      assert hole == node && NodeAt(mem, node, b.size, 0);
      CheckMergeTop(hole);
      mem := mem[STUB + 8 := hole];
      OnlyHoleLinked(old(mem), mem, b);
      holes := [b];
    }

    /** The freed node is linked in where it belongs and merged with what it touches. */
    method LinkAndMerge(node: int, ghost b: Span)
      requires Chain() && Separated(holes) && holes != []
      requires b.addr == node && InAddressSpace(b) && Disjoint(holes, b) && NodeAt(mem, node, b.size, 0)
      requires 0 <= bottom <= HEAP_LIMIT && bottom % 8 == 0
      requires EdgesClear(holes, b, bottom, top)
      modifies `mem, `holes
      ensures holes == Insert(old(holes), b) && Linked(mem, holes) && Untouched(old(mem), mem, holes)
    {
      ghost var hs := holes;
      var current, merges, k := Link(node, b);
      ghost var m, first := mem, if k == 0 then 0 else k - 1;
      SplicedReady(hs, k, b, top);
      SpliceInAt(hs, k, b, first);
      TryMergeNextN(current, merges, first);
      MergedIsInsert(hs, k, b, holes);
      UntouchedTransitive(old(mem), m, mem, Splice(hs, k, 0, [b]), holes);
    }

    /** Makes `[addr, addr + size)` a hole and coalesces it with the holes it touches. */
    method FreeRegion(addr: int, size: int)
      requires Chain() && Separated(holes)
      requires var b := Span(addr, size);
               InAddressSpace(b) && Disjoint(holes, b) && EdgesClear(holes, b, bottom, top)
      requires 0 <= bottom <= HEAP_LIMIT && bottom % 8 == 0
      modifies `mem, `holes
      ensures Linked(mem, holes) && holes == Insert(old(holes), Span(addr, size))
      ensures Untouched(old(mem), mem, holes)
    {
      ghost var b, hs := Span(addr, size), holes;
      MakeHole(addr, size);
      WriteElsewhere(old(mem), mem, hs, b);
      ghost var m := mem;
      var first := Load(mem, STUB + 8);
      if first == 0 {
        OnlyHole(hs, b);
        LinkOnly(addr, b);
      } else {
        LinkAndMerge(addr, b);
      }
      HeaderUntouched(old(mem), m, mem, hs, b);
    }

    /** An empty list, as before initialization. */
    constructor ()
      ensures Valid() && View() == EMPTY
    {
      mem, bottom, top, pendingExtend := map[], 0, 0, 0;
      holes, live := [], map[];
    }

    /** Takes over `size` bytes at `addr`; `ok` is false where initialization panics, with nothing changed. */
    method InitWithHole(addr: int, size: int) returns (ok: bool)
      requires 0 < addr && 0 <= size && addr + size <= HEAP_LIMIT
      modifies this
      ensures ok <==> MIN_SIZE <= UsableSize(addr, size)
      ensures ok ==> Valid() && View() == Initial(addr, size)
      ensures !ok ==> unchanged(this)
    {
      InitialMinimum(addr, size);
      if size < MIN_SIZE {
        return false;
      }
      AlignUpEight(addr);
      var start := AlignUp(addr, HOLE_ALIGN);
      var requested := size - (start - addr);
      var usable := AlignDownSize(requested, HOLE_ALIGN);
      if usable < MIN_SIZE {
        return false;
      }
      assert WrappingAdd(addr, size) == WrappingAdd(start, requested);
      mem := mem[start := usable][start + 8 := 0];
      mem := mem[STUB := 0][STUB + 8 := start];
      bottom, top := start, WrappingAdd(start, usable);
      pendingExtend := requested - usable;
      holes, live := [Span(start, usable)], map[];
      InitialInv(addr, size);
      assert NodeOk(mem, holes, 0);
      return true;
    }

    /** First fit over the hole list. */
    method AllocateFirstFit(l: Layout) returns (r: AllocResult, aligned: Option<Layout>)
      requires Valid() && ValidLayout(l)
      modifies `mem, `holes, `live
      ensures Valid() && View() == Apply(old(View()), Alloc(l))
      ensures r == Outcome(old(View()), l) && aligned == AlignLayout(l)
      ensures Untouched(old(mem), mem, old(holes))
    {
      aligned := AlignLayout(l);
      if aligned.None? {
        return Panicked, aligned;
      }
      r := AllocateBlock(l, aligned.value);
    }

    /** The search for a block of the rounded layout `al`. */
    method AllocateBlock(ghost l: Layout, al: Layout) returns (r: AllocResult)
      requires Valid() && ValidLayout(l) && AlignLayout(l) == Some(al)
      modifies `mem, `holes, `live
      ensures Valid() && View() == Apply(old(View()), Alloc(l))
      ensures r == Outcome(old(View()), l)
      ensures Untouched(old(mem), mem, old(holes))
    {
      AlignLayoutShape(l);
      ValidChain();
      ghost var h := View();
      var p := Search(al);
      AllocationOf(h, l, al, p);
      if p.None? {
        return Null;
      }
      live := live[p.value := al.size];
      return Placed(p.value);
    }

    /** Walks the cursor until some hole can be split. */
    method Search(l: Layout) returns (p: Option<int>)
      requires Chain() && Separated(holes) && BlockLayout(l)
      modifies `mem, `holes
      ensures p == FirstFit(old(holes), l)
      ensures p.None? ==> mem == old(mem) && holes == old(holes)
      ensures p.Some? ==> holes == Carve(old(holes), Span(p.value, l.size)) && Linked(mem, holes)
      ensures Untouched(old(mem), mem, old(holes))
    {
      ghost var hs, k := holes, 0;
      var prev, hole := STUB, Load(mem, STUB + 8);
      if hole == 0 {
        FirstIsNull(hs);
        return None;
      }
      p := SplitCurrent(prev, hole, l, k);
      while p.None?
        invariant 0 <= k < |hs| && p == Place(hs[k], l) && NoneBefore(hs, k, l)
        invariant p.None? ==> hole == hs[k].addr && mem == old(mem) && holes == hs
        invariant p.Some? ==> holes == Splice(hs, k, 1, Pieces(hs[k], Span(p.value, l.size)))
        invariant Linked(mem, holes) && Untouched(old(mem), mem, hs)
        decreases |hs| - k, p.None?
      {
        var next := Load(mem, hole + 8);
        assert NodeOk(mem, hs, k);
        LastNode(hs, k);
        if next == 0 {
          FirstFitFrom(hs, |hs|, l);
          return None;
        }
        prev, hole := hole, next;
        k := k + 1;
        p := SplitCurrent(prev, hole, l, k);
      }
      FirstFitFound(hs, k, l);
    }

    /** Gives a block back. */
    method Deallocate(addr: int, l: Layout) returns (aligned: Layout)
      requires Valid() && Legal(View(), Free(addr, l))
      modifies `mem, `holes, `live
      ensures Valid() && View() == Freed(old(View()), addr)
      ensures Some(aligned) == AlignLayout(l)
      ensures Untouched(old(mem), mem, holes)
    {
      aligned := AlignLayout(l).value;
      ValidChain();
      BlockDisjoint(View(), addr);
      EdgesInert(View(), addr);
      FreedInv(View(), addr);
      SumLiveRemove(live, addr);
      FreeRegion(addr, aligned.size);
      live := live - {addr};
    }

    /** Adds `amount` bytes above the top; false is the panic of an uninitialized heap. */
    method Extend(amount: int) returns (ok: bool)
      requires Valid() && 0 <= amount && top + pendingExtend + amount <= HEAP_LIMIT
      modifies this
      ensures ok <==> old(top) != 0
      ensures ok ==> Valid() && View() == Extended(old(View()), amount)
      ensures !ok ==> unchanged(this)
      ensures ok ==> Untouched(old(mem), mem, holes)
    {
      if top == 0 {
        return false;
      }
      assert top % HOLE_ALIGN == 0;
      assert pendingExtend < MIN_SIZE;
      ExtendedInv(View(), amount);
      var extendBy := pendingExtend + amount;
      if extendBy < MIN_SIZE {
        pendingExtend := extendBy;
      } else {
        Grow(extendBy, amount);
      }
      return true;
    }

    /** The usable part of the new memory becomes a hole by being released. */
    method Grow(extendBy: int, ghost amount: int)
      requires Valid() && View() != EMPTY && 0 <= amount && extendBy == pendingExtend + amount
      requires MIN_SIZE <= extendBy && top + extendBy <= HEAP_LIMIT
      modifies this
      ensures Valid() && View() == Extended(old(View()), amount)
      ensures Untouched(old(mem), mem, holes)
    {
      ghost var h := View();
      var newSize := AlignDownSize(extendBy, HOLE_ALIGN);
      GrownRegion(h, extendBy);
      var blockSize := BlockSize(newSize);
      ValidChain();
      FreeRegion(top, blockSize);
      top := top + newSize;
      pendingExtend := extendBy - newSize;
      GrownView(h, amount, View());
    }

    /** A write by the owner of a block: no header of the list is affected. */
    method StoreWord(w: int, v: int)
      requires Valid() && LiveAt(live, w) && w % 8 == 0
      modifies `mem
      ensures Valid() && View() == old(View()) && mem == old(mem)[w := v]
    {
      OwnedWord(View(), w);
      ghost var written := mem[w := v];
      forall i | 0 <= i < |holes| ensures NodeOk(written, holes, i) {
        assert NodeOk(mem, holes, i) && holes[i].Regular();
        assert holes[i].Contains(holes[i].addr) && holes[i].Contains(holes[i].addr + 8);
        assert Covers(holes, holes[i].addr) && Covers(holes, holes[i].addr + 8);
      }
      mem := mem[w := v];
    }
  }

  lemma OwnedWord(h: Heap, w: int)
    requires Inv(h) && LiveAt(h.live, w)
    ensures 0 < h.bottom <= w < h.top && !Covers(h.holes, w)
  {
    var a :| a in h.live && Block(h.live, a).Contains(w);
    assert Block(h.live, a).Regular() && h.bottom <= a;
  }

  /** What a search result means for the heap as a whole. */
  lemma AllocationOf(h: Heap, l: Layout, al: Layout, p: Option<int>)
    requires Inv(h) && ValidLayout(l) && AlignLayout(l) == Some(al) && 0 < al.align && p == FirstFit(h.holes, al)
    ensures p.None? ==> Apply(h, Alloc(l)) == h && Outcome(h, l) == Null
    ensures p.Some? ==> Apply(h, Alloc(l)) == Allocated(h, Span(p.value, al.size)) && Outcome(h, l) == Placed(p.value)
    ensures p.Some? ==> SumLive(h.live[p.value := al.size]) == SumLive(h.live) + al.size
    ensures Inv(Apply(h, Alloc(l)))
  {
    ApplyInv(h, Alloc(l));
    if p.Some? {
      ChosenFits(h, l);
      AllocatedInv(h, Span(p.value, al.size));
      SumLiveAdd(h.live, p.value, al.size);
    }
  }

  /** The three writes of a merge. */
  lemma MergeWrites(m: Memory, hole: int, next: int)
    requires hole + 16 <= next
    ensures var n0 := m[next + 8 := 0][hole + 8 := Load(m, next + 8)];
            var n := n0[hole := Load(n0, hole) + Load(m, next)];
            && NodeAt(n, hole, Load(m, hole) + Load(m, next), Load(m, next + 8))
            && forall w :: w != hole && w != hole + 8 && w != next + 8 ==> Load(n, w) == Load(m, w)
  {
  }

  lemma FirstIsNull(hs: seq<Span>)
    requires AllInAddressSpace(hs) && AddrAt(hs, 0) == 0
    ensures hs == []
  {
  }

  /** None of the first `k` holes has room. */
  ghost predicate NoneBefore(hs: seq<Span>, k: int, l: Layout)
    requires 0 <= k <= |hs| && 0 < l.align
  {
    forall j :: 0 <= j < k ==> Place(hs[j], l).None?
  }

  lemma {:induction false} FirstFitFrom(hs: seq<Span>, k: int, l: Layout)
    requires 0 <= k <= |hs| && 0 < l.align && NoneBefore(hs, k, l)
    ensures FirstFit(hs, l) == if k < |hs| then FirstFit(hs[k..], l) else None
    decreases k
  {
    if k == 0 {
      assert hs[0..] == hs;
    } else {
      FirstFitFrom(hs, k - 1, l);
      assert hs[k - 1..][0] == hs[k - 1] && hs[k - 1..][1..] == hs[k..];
    }
  }

  lemma FirstFitFound(hs: seq<Span>, k: int, l: Layout)
    requires AllInAddressSpace(hs) && Separated(hs) && 0 <= k < |hs| && BlockLayout(l)
    requires Place(hs[k], l).Some? && NoneBefore(hs, k, l)
    ensures FirstFit(hs, l) == Place(hs[k], l)
    ensures var b := Span(Place(hs[k], l).value, l.size);
            b.Regular() && Fits(hs[k], b) && Splice(hs, k, 1, Pieces(hs[k], b)) == Carve(hs, b)
  {
    FirstFitFrom(hs, k, l);
    assert hs[k..][0] == hs[k];
    PlaceSound(hs[k], l);
    CarveIsSplice(hs, k, Span(Place(hs[k], l).value, l.size));
  }

  /** The memory above the top that becomes a hole overlaps nothing and leaves no gap. */
  lemma GrownRegion(h: Heap, n: int)
    requires Inv(h) && h != EMPTY && MIN_SIZE <= n && h.top + n <= HEAP_LIMIT
    ensures var size := AlignDownSize(n, HOLE_ALIGN);
            && MIN_SIZE <= size < HEAP_LIMIT && size % 8 == 0
            && InAddressSpace(Span(h.top, size)) && Disjoint(h.holes, Span(h.top, size))
            && EdgesClear(h.holes, Span(h.top, size), h.bottom, h.top)
  {
    var size := AlignDownSize(n, HOLE_ALIGN);
    RoundDown(n);
    BeyondTop(h, size);
    BeyondTopClear(h, size);
  }

  lemma GrownView(h: Heap, amount: int, g: Heap)
    requires Inv(h) && h != EMPTY && 0 <= amount && MIN_SIZE <= h.pending + amount
    requires h.top + h.pending + amount <= HEAP_LIMIT
    requires var size := AlignDownSize(h.pending + amount, HOLE_ALIGN);
             && g.bottom == h.bottom && g.top == h.top + size && g.pending == h.pending + amount - size
             && g.holes == Insert(h.holes, Span(h.top, size)) && g.live == h.live && g.used == h.used
    ensures g == Extended(h, amount) && Inv(g)
  {
    ExtendedInv(h, amount);
  }

  lemma BeyondTopClear(h: Heap, n: int)
    requires Inv(h) && h != EMPTY && MIN_SIZE <= n
    ensures EdgesClear(h.holes, Span(h.top, n), h.bottom, h.top)
  {
    if h.holes != [] {
      assert h.holes[0].Regular();
      assert h.holes[|h.holes| - 1].End() <= h.top;
    }
  }

  lemma OnlyHole(hs: seq<Span>, b: Span)
    requires AllInAddressSpace(hs) && AddrAt(hs, 0) == 0
    ensures hs == [] && Insert(hs, b) == [b]
  {
  }

  lemma OnlyHoleLinked(m: Memory, n: Memory, b: Span)
    requires InAddressSpace(b) && Linked(m, []) && NodeAt(n, b.addr, b.size, 0) && Load(n, STUB + 8) == b.addr
    requires forall w :: w != b.addr && w != b.addr + 8 && w != STUB + 8 ==> Load(n, w) == Load(m, w)
    ensures Linked(n, [b]) && Untouched(m, n, [b])
  {
    assert [b][0] == b;
    forall x ensures Covers([b], x) <==> b.Contains(x) {
      CoversOne(b, x);
    }
  }

  lemma HeaderUntouched(m: Memory, n: Memory, o: Memory, hs: seq<Span>, b: Span)
    requires Separated(hs) && b.Regular() && Disjoint(hs, b)
    requires HeaderOnly(m, n, b.addr) && Untouched(n, o, Insert(hs, b))
    ensures Untouched(m, o, Insert(hs, b))
  {
    InsertCovers(hs, b, b.addr);
    InsertCovers(hs, b, b.addr + 8);
  }

  /** The link of a hole that is not the last leads to the next one. */
  lemma NextHole(m: Memory, hs: seq<Span>, k: int, b: Span)
    requires Linked(m, hs) && AllInAddressSpace(hs) && Disjoint(hs, b) && InAddressSpace(b) && 0 <= k < |hs| - 1
    ensures Load(m, hs[k].addr + 8) == hs[k + 1].addr != 0 && (hs[k + 1].addr <= b.addr ==> hs[k + 1].addr < b.addr)
  {
    assert NodeOk(m, hs, k);
    LastNode(hs, k + 1);
    assert Apart(hs[k + 1], b);
  }

  lemma LastNode(hs: seq<Span>, k: int)
    requires AllInAddressSpace(hs) && 0 <= k < |hs|
    ensures AddrAt(hs, k + 1) == 0 <==> k + 1 == |hs|
    ensures InAddressSpace(hs[k])
  {
  }

  lemma AllPositive(hs: seq<Span>)
    requires AllInAddressSpace(hs)
    ensures Positive(hs)
  {
    forall i | 0 <= i < |hs| ensures 0 < hs[i].addr {
      assert InAddressSpace(hs[i]);
    }
  }

  /** Pointing `prev` at the node of `b` and that node at `next`. */
  lemma LinkWrites(m: Memory, m': Memory, prev: int, b: Span, next: int)
    requires b.Regular() && prev + 16 <= b.addr && NodeAt(m', b.addr, b.size, 0)
    requires forall w :: w != b.addr && w != b.addr + 8 ==> Load(m', w) == Load(m, w)
    ensures var n := m'[prev + 8 := b.addr][b.addr + 8 := next];
            LocalWrites(m, n, prev, b.addr, b.End()) && Load(n, prev + 8) == b.addr && NodeAt(n, b.addr, b.size, next)
  {
  }

  lemma PrevBelow(hs: seq<Span>, k: int)
    requires Ordered(hs) && AllInAddressSpace(hs) && 0 <= k < |hs|
    ensures NodeBefore(hs, k) + 16 <= hs[k].addr
  {
    assert InAddressSpace(hs[k]);
    if k > 0 {
      HeadersApart(hs, k - 1, k);
    }
  }

  lemma PlanFits(h: Span, l: Layout, plan: SplitPlan)
    requires InAddressSpace(h) && BlockLayout(l) && Place(h, l) == Some(plan.addr)
    requires plan.front == Pad(h.addr, plan.addr) && plan.back == Pad(plan.addr + l.size, h.End())
    ensures Pieces(h, Span(plan.addr, l.size)) == Listed(plan.front) + Listed(plan.back)
    ensures plan.front.Some? ==> plan.front.value.addr == h.addr
    ensures plan.back.Some? ==> h.addr + 16 <= plan.back.value.addr && plan.back.value.addr + 16 <= h.End()
  {
  }

  lemma SplitLinked(m: Memory, n: Memory, hs: seq<Span>, k: int, ps: seq<Span>, next: int)
    requires Linked(m, hs) && Ordered(hs) && AllInAddressSpace(hs) && 0 <= k < |hs|
    requires LocalWrites(m, n, NodeBefore(hs, k), hs[k].addr, hs[k].End())
    requires next == AddrAt(hs, k + 1) && PiecesWritten(n, NodeBefore(hs, k), ps, next)
    ensures Linked(n, Splice(hs, k, 1, ps))
    ensures Untouched(m, n, hs)
  {
    var t := Splice(hs, k, 1, ps);
    assert AddrAt(t, k + |ps|) == next;
    SurgeryLinked(m, n, hs, k, 1, ps, hs[k].addr, hs[k].End());
    forall x | hs[k].addr <= x < hs[k].End() ensures Covers(hs, x) {
      assert hs[k].Contains(x);
    }
    SurgeryUntouched(m, n, hs, k, hs[k].addr, hs[k].End(), hs);
  }

  /** The allocator around the hole list, which keeps count of the bytes in use. */
  class LinkedListAllocator {
    var used: int
    const holes: HoleList

    ghost predicate Valid()
      reads this, holes
    {
      holes.Valid() && used == SumLive(holes.live)
    }

    ghost function View(): Heap
      reads this, holes
    {
      holes.View()
    }

    constructor ()
      ensures Valid() && View() == EMPTY && fresh(holes)
    {
      used := 0;
      holes := new HoleList();
    }

    method Init(addr: int, size: int) returns (ok: bool)
      requires 0 < addr && 0 <= size && addr + size <= HEAP_LIMIT
      modifies this, holes
      ensures ok <==> MIN_SIZE <= UsableSize(addr, size)
      ensures ok ==> Valid() && View() == Initial(addr, size)
    {
      used := 0;
      ok := holes.InitWithHole(addr, size);
    }

    method AllocateFirstFit(l: Layout) returns (r: AllocResult)
      requires Valid() && ValidLayout(l)
      modifies this, holes
      ensures Valid() && View() == Apply(old(View()), Alloc(l))
      ensures r == Outcome(old(View()), l)
      ensures Untouched(old(holes.mem), holes.mem, old(holes.holes))
    {
      var aligned;
      r, aligned := holes.AllocateFirstFit(l);
      if r.Placed? {
        used := used + aligned.value.size;
      }
    }

    method Deallocate(addr: int, l: Layout)
      requires Valid() && Legal(View(), Free(addr, l))
      modifies this, holes
      ensures Valid() && View() == Freed(old(View()), addr)
      ensures Untouched(old(holes.mem), holes.mem, holes.holes)
    {
      var aligned := holes.Deallocate(addr, l);
      used := used - aligned.size;
    }

    method Extend(amount: int) returns (ok: bool)
      requires Valid() && 0 <= amount && View().top + View().pending + amount <= HEAP_LIMIT
      modifies this, holes
      ensures ok <==> old(View()) != EMPTY
      ensures ok ==> Valid() && View() == Extended(old(View()), amount)
      ensures !ok ==> Valid() && View() == old(View())
    {
      ok := holes.Extend(amount);
    }

    /** The number of free bytes, computed from the bounds alone, is what the holes add up to. */
    method FreeBytes() returns (n: int)
      requires Valid()
      ensures n == Total(holes.holes) && 0 <= n
    {
      TotalNonNegative(holes.holes);
      n := (holes.top - holes.bottom) - used;
    }
  }
}
