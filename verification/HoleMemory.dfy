/**
  Hole headers in memory: what it means for the words of memory to hold a given
  list of holes, and what each kind of pointer surgery does to that list.
 */
module HoleMemory {
  import opened Alignment
  import opened Spans
  import opened HeapModel

  /** Word-addressed memory. A header is a size word at `a` and a next word at `a + 8`; next 0 is `None`. */
  type Memory = map<int, int>

  /** Address of the stub node `first`, which lives in the allocator itself and not in the heap. */
  const STUB: int := -16

  function Load(m: Memory, w: int): int {
    if w in m then m[w] else 0
  }

  predicate NodeAt(m: Memory, a: int, size: int, next: int) {
    Load(m, a) == size && Load(m, a + 8) == next
  }

  /** Address of the i-th hole, or 0 past the end. */
  function AddrAt(hs: seq<Span>, i: int): int
    requires 0 <= i
  {
    if i < |hs| then hs[i].addr else 0
  }

  /** Address of the node in front of position `i`. */
  function NodeBefore(hs: seq<Span>, i: int): int
    requires 0 <= i <= |hs|
  {
    if i == 0 then STUB else hs[i - 1].addr
  }

  /** The header of the i-th hole holds its size and the address of the next one. */
  predicate NodeOk(m: Memory, hs: seq<Span>, i: int)
    requires 0 <= i < |hs|
  {
    NodeAt(m, hs[i].addr, hs[i].size, AddrAt(hs, i + 1))
  }

  predicate Linked(m: Memory, hs: seq<Span>) {
    && NodeAt(m, STUB, 0, AddrAt(hs, 0))
    && forall i :: 0 <= i < |hs| ==> NodeOk(m, hs, i)
  }

  predicate SameNode(m: Memory, n: Memory, a: int) {
    Load(n, a) == Load(m, a) && Load(n, a + 8) == Load(m, a + 8)
  }

  /** Heap words outside the ranges `hs` are the same in both memories. */
  ghost predicate Untouched(m: Memory, n: Memory, hs: seq<Span>) {
    forall w :: 0 <= w && !Covers(hs, w) ==> Load(n, w) == Load(m, w)
  }

  /** `hs` with `r` entries from position `k` replaced by `ps`. */
  function Splice(hs: seq<Span>, k: int, r: int, ps: seq<Span>): seq<Span>
    requires 0 <= k && 0 <= r && k + r <= |hs|
  {
    hs[..k] + ps + hs[k + r..]
  }

  /**
    Every surgery is a splice: the new nodes are written, the node in front is
    pointed at the first of them, and the headers of all other nodes stay intact.
   */
  lemma SpliceLinked(m: Memory, n: Memory, hs: seq<Span>, k: int, r: int, ps: seq<Span>)
    requires 0 <= k && 0 <= r && k + r <= |hs| && Linked(m, hs)
    requires NodeAt(n, NodeBefore(hs, k), Load(m, NodeBefore(hs, k)), AddrAt(Splice(hs, k, r, ps), k))
    requires forall j :: 0 <= j < |ps| ==> NodeAt(n, ps[j].addr, ps[j].size, AddrAt(Splice(hs, k, r, ps), k + j + 1))
    requires forall i :: (0 <= i < k - 1 || k + r <= i < |hs|) ==> SameNode(m, n, hs[i].addr)
    requires k > 0 ==> SameNode(m, n, STUB)
    ensures Linked(n, Splice(hs, k, r, ps))
  {
    var t := Splice(hs, k, r, ps);
    forall i | 0 <= i < |t| ensures NodeOk(n, t, i) {
      if i < k - 1 {
        assert NodeOk(m, hs, i);
        assert t[i] == hs[i] && t[i + 1] == hs[i + 1];
      } else if i == k - 1 {
        assert NodeOk(m, hs, i);
        assert t[i] == hs[i];
      } else if i < k + |ps| {
        assert t[i] == ps[i - k];
      } else {
        var j := i - |ps| + r;
        assert NodeOk(m, hs, j);
        assert t[i] == hs[j];
        assert AddrAt(t, i + 1) == AddrAt(hs, j + 1);
      }
    }
    if k > 0 {
      assert t[0] == hs[0];
    }
  }

  /** The headers of an ordered list do not share words. */
  lemma HeadersApart(hs: seq<Span>, i: int, j: int)
    requires Ordered(hs) && 0 <= i < |hs| && 0 <= j < |hs| && i != j
    ensures hs[i].addr + 16 <= hs[j].addr || hs[j].addr + 16 <= hs[i].addr
  {
    if i < j {
      assert hs[i].End() <= hs[j].addr;
    } else {
      assert hs[j].End() <= hs[i].addr;
    }
  }

  lemma SeparatedIsOrdered(hs: seq<Span>)
    requires Separated(hs)
    ensures Ordered(hs)
  {
  }

  predicate Positive(hs: seq<Span>) {
    forall i :: 0 <= i < |hs| ==> 0 < hs[i].addr
  }

  /** The two memories agree outside the header at `a`. */
  ghost predicate HeaderOnly(m: Memory, n: Memory, a: int) {
    forall w :: w != a && w != a + 8 ==> Load(n, w) == Load(m, w)
  }

  /** Writing the header of a block that is not in the list leaves the list intact. */
  lemma WriteElsewhere(m: Memory, n: Memory, hs: seq<Span>, b: Span)
    requires Linked(m, hs) && AllRegular(hs) && Disjoint(hs, b) && b.Regular() && 0 < b.addr
    requires HeaderOnly(m, n, b.addr)
    ensures Linked(n, hs)
  {
    forall i | 0 <= i < |hs| ensures NodeOk(n, hs, i) {
      assert NodeOk(m, hs, i);
      assert Apart(hs[i], b) && hs[i].Regular();
    }
  }

  /** All writes fall in `[lo, hi)`, which holds no other header, or on the next word of the node in front. */
  ghost predicate LocalWrites(m: Memory, n: Memory, front: int, lo: int, hi: int) {
    forall w :: !(lo <= w < hi) && w != front + 8 ==> Load(n, w) == Load(m, w)
  }

  predicate RegionFree(hs: seq<Span>, k: int, r: int, lo: int, hi: int) {
    && 0 <= k && 0 <= r && k + r <= |hs| && 0 <= lo
    && (forall i :: 0 <= i < k ==> hs[i].End() <= lo)
    && (forall i :: k + r <= i < |hs| ==> hi <= hs[i].addr)
  }

  lemma SurgeryKeepsOthers(m: Memory, n: Memory, hs: seq<Span>, k: int, r: int, lo: int, hi: int, i: int)
    requires Ordered(hs) && Positive(hs) && RegionFree(hs, k, r, lo, hi)
    requires LocalWrites(m, n, NodeBefore(hs, k), lo, hi)
    requires 0 <= i < k - 1 || k + r <= i < |hs|
    ensures SameNode(m, n, hs[i].addr)
  {
    assert hs[i].Regular();
    if k > 0 {
      HeadersApart(hs, i, k - 1);
    }
  }

  lemma SurgeryLinked(m: Memory, n: Memory, hs: seq<Span>, k: int, r: int, ps: seq<Span>, lo: int, hi: int)
    requires Linked(m, hs) && Ordered(hs) && Positive(hs) && RegionFree(hs, k, r, lo, hi)
    requires LocalWrites(m, n, NodeBefore(hs, k), lo, hi)
    requires Load(n, NodeBefore(hs, k) + 8) == AddrAt(Splice(hs, k, r, ps), k)
    requires forall j :: 0 <= j < |ps| ==> NodeAt(n, ps[j].addr, ps[j].size, AddrAt(Splice(hs, k, r, ps), k + j + 1))
    ensures Linked(n, Splice(hs, k, r, ps))
  {
    forall i | 0 <= i < k - 1 || k + r <= i < |hs| ensures SameNode(m, n, hs[i].addr) {
      SurgeryKeepsOthers(m, n, hs, k, r, lo, hi, i);
    }
    if k > 0 {
      assert hs[k - 1].Regular() && hs[k - 1].End() <= lo;
    }
    SpliceLinked(m, n, hs, k, r, ps);
  }

  /** Writes inside listed ranges and to listed headers touch nothing else. */
  lemma SurgeryUntouched(m: Memory, n: Memory, hs: seq<Span>, k: int, lo: int, hi: int, all: seq<Span>)
    requires AllRegular(hs) && 0 <= k <= |hs| && LocalWrites(m, n, NodeBefore(hs, k), lo, hi)
    requires forall x :: lo <= x < hi ==> Covers(all, x)
    requires forall x :: Covers(hs, x) ==> Covers(all, x)
    ensures Untouched(m, n, all)
  {
    if k > 0 {
      assert hs[k - 1].Regular();
      assert hs[k - 1].Contains(hs[k - 1].addr + 8);
      assert Covers(hs, hs[k - 1].addr + 8);
    }
  }

  // ---------- carving is a splice ----------

  /** Cutting a block out of hole `k` splices the remaining pieces into its place. */
  lemma {:induction false} CarveIsSplice(hs: seq<Span>, k: int, b: Span)
    requires Separated(hs) && 0 <= k < |hs| && b.Regular() && Fits(hs[k], b)
    ensures Carve(hs, b) == Splice(hs, k, 1, Pieces(hs[k], b))
    decreases k
  {
    if k == 0 {
      assert hs[..0] + Pieces(hs[0], b) == Pieces(hs[0], b);
    } else {
      assert hs[0].End() < hs[k].addr;
      assert hs[1..][k - 1] == hs[k];
      CarveIsSplice(hs[1..], k - 1, b);
      assert hs[1..][k..] == hs[k + 1..];
      assert [hs[0]] + hs[1..][..k - 1] == hs[..k];
    }
  }

  // ---------- one insertion and one merge in memory ----------

  /** Position `k` is where `b` belongs. */
  predicate Between(hs: seq<Span>, k: int, b: Span) {
    && 0 <= k <= |hs|
    && (k > 0 ==> hs[k - 1].End() <= b.addr)
    && (k < |hs| ==> b.End() <= hs[k].addr)
  }

  lemma BetweenRegion(hs: seq<Span>, k: int, b: Span)
    requires Ordered(hs) && Between(hs, k, b) && 0 <= b.addr
    ensures RegionFree(hs, k, 0, b.addr, b.End())
  {
    forall i | 0 <= i < k ensures hs[i].End() <= b.addr {
      if i < k - 1 {
        assert hs[i].End() <= hs[k - 1].addr && hs[k - 1].Regular();
      }
    }
    forall i | k <= i < |hs| ensures b.End() <= hs[i].addr {
      if k < i {
        assert hs[k].End() <= hs[i].addr && hs[k].Regular();
      }
    }
  }

  lemma SpliceInOrdered(hs: seq<Span>, k: int, b: Span)
    requires Ordered(hs) && Between(hs, k, b) && b.Regular() && 0 <= b.addr
    ensures Ordered(Splice(hs, k, 0, [b]))
  {
    BetweenRegion(hs, k, b);
    var t := Splice(hs, k, 0, [b]);
    forall i, j | 0 <= i < j < |t| ensures t[i].End() <= t[j].addr {
      SpliceInAt(hs, k, b, i);
      SpliceInAt(hs, k, b, j);
    }
  }

  lemma SpliceInCovers(hs: seq<Span>, k: int, b: Span, x: int)
    requires 0 <= k <= |hs|
    ensures Covers(Splice(hs, k, 0, [b]), x) <==> Covers(hs, x) || b.Contains(x)
  {
    CoversConcat(hs[..k] + [b], hs[k..], x);
    CoversConcat(hs[..k], [b], x);
    CoversOne(b, x);
    CoversConcat(hs[..k], hs[k..], x);
    assert hs[..k] + hs[k..] == hs;
  }

  /** Linking the node of `b` in at position `k`. */
  lemma InsertLinked(m: Memory, n: Memory, hs: seq<Span>, k: int, b: Span)
    requires Linked(m, hs) && Ordered(hs) && Positive(hs) && Between(hs, k, b) && b.Regular() && 0 < b.addr
    requires LocalWrites(m, n, NodeBefore(hs, k), b.addr, b.End())
    requires Load(n, NodeBefore(hs, k) + 8) == b.addr && NodeAt(n, b.addr, b.size, AddrAt(hs, k))
    ensures Linked(n, Splice(hs, k, 0, [b]))
    ensures Untouched(m, n, Splice(hs, k, 0, [b]))
  {
    BetweenRegion(hs, k, b);
    var t := Splice(hs, k, 0, [b]);
    assert AddrAt(t, k + 1) == AddrAt(hs, k);
    SurgeryLinked(m, n, hs, k, 0, [b], b.addr, b.End());
    forall x ensures Covers(t, x) <==> Covers(hs, x) || b.Contains(x) {
      SpliceInCovers(hs, k, b, x);
    }
    SurgeryUntouched(m, n, hs, k, b.addr, b.End(), t);
  }

  /** Entry `k` joined with the entry after it. */
  function MergePair(hs: seq<Span>, k: int): seq<Span>
    requires 0 <= k && k + 1 < |hs|
  {
    Splice(hs, k, 2, [Span(hs[k].addr, hs[k].size + hs[k + 1].size)])
  }

  predicate Touching(hs: seq<Span>, k: int) {
    0 <= k && k + 1 < |hs| && hs[k].End() == hs[k + 1].addr
  }

  /** Neighbours touch at most at positions `lo` up to `hi`. */
  ghost predicate TouchingOnly(hs: seq<Span>, lo: int, hi: int) {
    forall j :: Touching(hs, j) ==> lo <= j < hi
  }

  lemma NoneTouchingAfter(hs: seq<Span>, k: int, hi: int)
    requires Ordered(hs) && TouchingOnly(hs, k, hi) && (k + 1 == |hs| || hi <= k)
    ensures Separated(hs)
  {
    forall i, j | 0 <= i < j < |hs| ensures hs[i].End() < hs[j].addr {
      assert !Touching(hs, i);
      assert hs[i].End() <= hs[i + 1].addr;
      if i + 1 < j {
        assert hs[i + 1].Regular() && hs[i + 1].End() <= hs[j].addr;
      }
    }
  }

  /** A newly inserted range can only touch its two neighbours. */
  lemma InsertedTouching(hs: seq<Span>, k: int, b: Span)
    requires Separated(hs) && 0 <= k <= |hs|
    ensures TouchingOnly(Splice(hs, k, 0, [b]), k - 1, k + 1)
  {
    var t := Splice(hs, k, 0, [b]);
    forall j | Touching(t, j) ensures k - 1 <= j < k + 1 {
      SpliceInAt(hs, k, b, j);
      SpliceInAt(hs, k, b, j + 1);
    }
  }

  lemma SpliceInAt(hs: seq<Span>, k: int, b: Span, i: int)
    requires 0 <= k <= |hs| && 0 <= i <= |hs|
    ensures Splice(hs, k, 0, [b])[i] == if i < k then hs[i] else if i == k then b else hs[i - 1]
  {
  }

  lemma SkippedTouching(hs: seq<Span>, k: int, hi: int)
    requires TouchingOnly(hs, k, hi) && !Touching(hs, k)
    ensures TouchingOnly(hs, k + 1, hi)
  {
  }

  lemma MergedTouching(hs: seq<Span>, k: int, hi: int)
    requires Touching(hs, k) && TouchingOnly(hs, k, hi)
    ensures TouchingOnly(MergePair(hs, k), k, hi - 1)
  {
    var t := MergePair(hs, k);
    forall j | Touching(t, j) ensures k <= j < hi - 1 {
      MergePairAt(hs, k, j);
      MergePairAt(hs, k, j + 1);
      if j < k {
        assert Touching(hs, j);
      } else {
        assert Touching(hs, j + 1);
      }
    }
  }

  lemma MergePairAt(hs: seq<Span>, k: int, i: int)
    requires 0 <= k && k + 1 < |hs| && 0 <= i < |hs| - 1
    ensures |MergePair(hs, k)| == |hs| - 1
    ensures MergePair(hs, k)[i] ==
            if i < k then hs[i] else if i == k then Span(hs[k].addr, hs[k].size + hs[k + 1].size) else hs[i + 1]
  {
  }

  lemma MergePairOrdered(hs: seq<Span>, k: int)
    requires Ordered(hs) && AllInAddressSpace(hs) && Touching(hs, k)
    ensures Ordered(MergePair(hs, k)) && AllInAddressSpace(MergePair(hs, k))
    ensures MergePair(hs, k)[|hs| - 2].End() == hs[|hs| - 1].End()
  {
    var t := MergePair(hs, k);
    assert hs[k].Regular() && hs[k + 1].Regular() && InAddressSpace(hs[k]) && InAddressSpace(hs[k + 1]);
    forall i | 0 <= i < |t| ensures InAddressSpace(t[i]) {
      MergePairAt(hs, k, i);
    }
    forall i, j | 0 <= i < j < |t| ensures t[i].End() <= t[j].addr {
      MergePairAt(hs, k, i);
      MergePairAt(hs, k, j);
    }
    MergePairAt(hs, k, |hs| - 2);
  }

  lemma MergePairCovers(hs: seq<Span>, k: int, x: int)
    requires Ordered(hs) && Touching(hs, k)
    ensures Covers(MergePair(hs, k), x) <==> Covers(hs, x)
  {
    var j := Span(hs[k].addr, hs[k].size + hs[k + 1].size);
    assert hs[k].Regular() && hs[k + 1].Regular();
    CoversConcat(hs[..k] + [j], hs[k + 2..], x);
    CoversConcat(hs[..k], [j], x);
    CoversOne(j, x);
    CoversConcat(hs[..k] + [hs[k], hs[k + 1]], hs[k + 2..], x);
    CoversConcat(hs[..k], [hs[k], hs[k + 1]], x);
    CoversConcat([hs[k]], [hs[k + 1]], x);
    CoversOne(hs[k], x);
    CoversOne(hs[k + 1], x);
    assert [hs[k]] + [hs[k + 1]] == [hs[k], hs[k + 1]];
    assert hs[..k] + [hs[k], hs[k + 1]] + hs[k + 2..] == hs;
  }

  /** Everything one merge of touching neighbours keeps. */
  lemma MergePairKeeps(hs: seq<Span>, k: int, hi: int)
    requires Ordered(hs) && AllInAddressSpace(hs) && Touching(hs, k) && TouchingOnly(hs, k, hi)
    ensures var t := MergePair(hs, k);
            && |t| == |hs| - 1 && Ordered(t) && AllInAddressSpace(t) && TouchingOnly(t, k, hi - 1)
            && t[k].addr == hs[k].addr && t[|t| - 1].End() == hs[|hs| - 1].End()
    ensures forall x :: Covers(MergePair(hs, k), x) <==> Covers(hs, x)
  {
    MergePairOrdered(hs, k);
    MergedTouching(hs, k, hi);
    MergePairAt(hs, k, k);
    forall x ensures Covers(MergePair(hs, k), x) <==> Covers(hs, x) {
      MergePairCovers(hs, k, x);
    }
  }

  lemma MergeLinked(m: Memory, n: Memory, hs: seq<Span>, k: int)
    requires Linked(m, hs) && Ordered(hs) && Positive(hs) && Touching(hs, k)
    requires forall w :: w != hs[k].addr && w != hs[k].addr + 8 && w != hs[k + 1].addr + 8 ==> Load(n, w) == Load(m, w)
    requires NodeAt(n, hs[k].addr, hs[k].size + hs[k + 1].size, AddrAt(hs, k + 2))
    ensures Linked(n, MergePair(hs, k))
    ensures Untouched(m, n, hs)
  {
    var j := Span(hs[k].addr, hs[k].size + hs[k + 1].size);
    assert hs[k].Regular() && hs[k + 1].Regular();
    assert AddrAt(MergePair(hs, k), k + 1) == AddrAt(hs, k + 2);
    assert AddrAt(MergePair(hs, k), k) == hs[k].addr;
    if k > 0 {
      HeadersApart(hs, k - 1, k);
      HeadersApart(hs, k - 1, k + 1);
      assert NodeOk(m, hs, k - 1);
    }
    MergeRegion(hs, k);
    SurgeryLinked(m, n, hs, k, 2, [j], hs[k].addr, hs[k + 1].End());
    forall x | hs[k].addr <= x < hs[k + 1].End() ensures Covers(hs, x) {
      assert hs[k].Contains(x) || hs[k + 1].Contains(x);
    }
    SurgeryUntouched(m, n, hs, k, hs[k].addr, hs[k + 1].End(), hs);
  }

  lemma MergeRegion(hs: seq<Span>, k: int)
    requires Ordered(hs) && Positive(hs) && Touching(hs, k)
    ensures RegionFree(hs, k, 2, hs[k].addr, hs[k + 1].End())
  {
  }

  // ---------- heap edges ----------

  /** A range ending at `e` reaches the top, or leaves room for a hole below it. */
  predicate TopClear(top: int, e: int) {
    top <= e || e + MIN_SIZE <= top
  }

  predicate BottomClear(bottom: int, a: int) {
    a == bottom || bottom + MIN_SIZE <= a
  }

  /** Where the ranges `hs` together with `b` end. */
  function LastEnd(hs: seq<Span>, b: Span): int {
    if hs == [] || hs[|hs| - 1].End() <= b.addr then b.End() else hs[|hs| - 1].End()
  }

  /** What inertness of the edge merges takes when `b` is released. */
  predicate EdgesClear(hs: seq<Span>, b: Span, bottom: int, top: int) {
    && (hs == [] || b.addr < hs[0].addr ==> BottomClear(bottom, b.addr))
    && TopClear(top, LastEnd(hs, b))
  }

  /** A list with `b` just linked in is ready for merging. */
  lemma SplicedReady(hs: seq<Span>, k: int, b: Span, top: int)
    requires Separated(hs) && AllInAddressSpace(hs) && InAddressSpace(b) && Between(hs, k, b)
    requires TopClear(top, LastEnd(hs, b))
    ensures var t := Splice(hs, k, 0, [b]);
            Ordered(t) && AllInAddressSpace(t) && TopClear(top, t[|t| - 1].End()) && TouchingOnly(t, k - 1, k + 1)
  {
    var t := Splice(hs, k, 0, [b]);
    SeparatedIsOrdered(hs);
    SpliceInOrdered(hs, k, b);
    InsertedTouching(hs, k, b);
    forall i | 0 <= i < |t| ensures InAddressSpace(t[i]) {
      SpliceInAt(hs, k, b, i);
    }
    SpliceInAt(hs, k, b, |t| - 1);
    if 0 < k == |hs| {
      assert hs[k - 1].End() <= b.addr;
    } else if k < |hs| {
      BetweenRegion(hs, k, b);
      assert b.End() <= hs[|hs| - 1].addr;
      assert hs[|hs| - 1].Regular();
    }
  }

  /** Once merging has separated the list it is exactly the abstract insertion. */
  lemma {:induction false} MergedIsInsert(hs: seq<Span>, k: int, b: Span, final: seq<Span>)
    requires Separated(hs) && b.Regular() && Disjoint(hs, b) && 0 <= k <= |hs| && Separated(final)
    requires forall x :: Covers(final, x) <==> Covers(Splice(hs, k, 0, [b]), x)
    ensures final == Insert(hs, b)
  {
    InsertSeparated(hs, b);
    forall x ensures Covers(final, x) <==> Covers(Insert(hs, b), x) {
      InsertCovers(hs, b, x);
      SpliceInCovers(hs, k, b, x);
    }
    Unique(final, Insert(hs, b));
  }

  lemma UntouchedTransitive(m: Memory, n: Memory, o: Memory, hs: seq<Span>, ks: seq<Span>)
    requires Untouched(m, n, hs) && Untouched(n, o, hs)
    requires forall x :: Covers(hs, x) ==> Covers(ks, x)
    ensures Untouched(m, o, ks)
  {
  }

  lemma BottomEdge(h: Heap, a: int)
    requires Inv(h) && a in h.live && (h.holes == [] || a < h.holes[0].addr)
    ensures BottomClear(h.bottom, a)
  {
    if h.bottom < a {
      assert !Covers(h.holes, h.bottom);
      assert LiveAt(h.live, h.bottom);
      var c :| c in h.live && Block(h.live, c).Contains(h.bottom);
      assert Apart(Block(h.live, c), Block(h.live, a));
    }
  }

  lemma LastByte(h: Heap, a: int)
    requires Inv(h) && a in h.live
    ensures var e := LastEnd(h.holes, Block(h.live, a));
            && (Covers(h.holes, e - 1) || Block(h.live, a).Contains(e - 1))
            && !Covers(h.holes, e) && !Block(h.live, a).Contains(e)
  {
    var hs, b := h.holes, Block(h.live, a);
    BlockDisjoint(h, a);
    if hs != [] {
      var l := hs[|hs| - 1];
      assert Apart(l, b) && l.Regular();
      assert forall i :: 0 <= i < |hs| ==> hs[i].End() <= l.End();
      if b.addr < l.End() {
        assert l.Contains(l.End() - 1);
      }
    }
  }

  lemma TopEdge(h: Heap, a: int)
    requires Inv(h) && a in h.live
    ensures TopClear(h.top, LastEnd(h.holes, Block(h.live, a)))
  {
    var b := Block(h.live, a);
    var e := LastEnd(h.holes, b);
    LastByte(h, a);
    if e < h.top {
      LastEndInside(h, a);
      assert LiveAt(h.live, e);
      var c :| c in h.live && Block(h.live, c).Contains(e);
      assert c != a;
      assert Apart(Block(h.live, c), b);
      LiveBefore(h.live, c, e);
    }
  }

  lemma LiveBefore(live: map<int, int>, c: int, e: int)
    requires c in live && Block(live, c).Contains(e)
    ensures c < e ==> LiveAt(live, e - 1) && Block(live, c).Contains(e - 1)
  {
    if c < e {
      assert Block(live, c).Contains(e - 1);
    }
  }

  lemma LastEndInside(h: Heap, a: int)
    requires Inv(h) && a in h.live
    ensures h.bottom < LastEnd(h.holes, Block(h.live, a))
  {
    if h.holes != [] {
      assert h.holes[|h.holes| - 1].Regular();
    }
  }

  /**
    Edge merges are inert: releasing a live block never leaves fewer bytes than a
    hole between the outermost free range and an end of the heap.
   */
  lemma EdgesInert(h: Heap, a: int)
    requires Inv(h) && a in h.live
    ensures EdgesClear(h.holes, Block(h.live, a), h.bottom, h.top)
  {
    if h.holes == [] || a < h.holes[0].addr {
      BottomEdge(h, a);
    }
    TopEdge(h, a);
  }
}
