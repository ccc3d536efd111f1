/**
  Lists of address ranges: what a hole list means as a set of bytes, and how
  ranges are added to it and cut out of it.
 */
module Spans {
  import opened Alignment

  /** `size` bytes from `addr` on: a hole, or a block. */
  datatype Span = Span(addr: int, size: int) {
    function End(): int { addr + size }

    predicate Contains(x: int) { addr <= x < addr + size }

    /** The shape every hole and block has. */
    predicate Regular() { addr % 8 == 0 && size % 8 == 0 && MIN_SIZE <= size }
  }

  /** Byte `x` lies in one of the ranges. */
  predicate Covers(hs: seq<Span>, x: int) {
    exists i :: 0 <= i < |hs| && hs[i].Contains(x)
  }

  predicate AllRegular(hs: seq<Span>) {
    forall i :: 0 <= i < |hs| ==> hs[i].Regular()
  }

  /** Address-sorted without overlap; neighbours may touch. */
  predicate Ordered(hs: seq<Span>) {
    && AllRegular(hs)
    && forall i, j :: 0 <= i < j < |hs| ==> hs[i].End() <= hs[j].addr
  }

  /** Address-sorted and no two ranges touch: fully coalesced. */
  predicate Separated(hs: seq<Span>) {
    && AllRegular(hs)
    && forall i, j :: 0 <= i < j < |hs| ==> hs[i].End() < hs[j].addr
  }

  predicate Within(hs: seq<Span>, lo: int, hi: int) {
    forall i :: 0 <= i < |hs| ==> lo <= hs[i].addr && hs[i].End() <= hi
  }

  predicate Apart(h: Span, b: Span) {
    h.End() <= b.addr || b.End() <= h.addr
  }

  /** No range shares a byte with `b`. */
  predicate Disjoint(hs: seq<Span>, b: Span) {
    forall i :: 0 <= i < |hs| ==> Apart(hs[i], b)
  }

  function Total(hs: seq<Span>): int {
    if hs == [] then 0 else hs[0].size + Total(hs[1..])
  }

  /** Adds `b`, joining it with a range that ends or begins where `b` does. */
  function Insert(hs: seq<Span>, b: Span): seq<Span>
    decreases |hs|
  {
    if hs == [] then [b]
    else if b.End() < hs[0].addr then [b] + hs
    else if b.End() == hs[0].addr then [Span(b.addr, b.size + hs[0].size)] + hs[1..]
    else if hs[0].End() == b.addr then Insert(hs[1..], Span(hs[0].addr, hs[0].size + b.size))
    else [hs[0]] + Insert(hs[1..], b)
  }

  predicate Inside(b: Span, h: Span) {
    h.addr <= b.addr && b.End() <= h.End()
  }

  /** What is left of `h` once `b` is cut out. */
  function Pieces(h: Span, b: Span): seq<Span> {
    (if h.addr < b.addr then [Span(h.addr, b.addr - h.addr)] else []) +
    (if b.End() < h.End() then [Span(b.End(), h.End() - b.End())] else [])
  }

  /** Cuts `b` out of the range that contains it. */
  function Carve(hs: seq<Span>, b: Span): seq<Span>
    decreases |hs|
  {
    if hs == [] then []
    else if Inside(b, hs[0]) then Pieces(hs[0], b) + hs[1..]
    else [hs[0]] + Carve(hs[1..], b)
  }

  // ---------- coverage ----------

  lemma CoversConcat(s: seq<Span>, t: seq<Span>, x: int)
    ensures Covers(s + t, x) <==> Covers(s, x) || Covers(t, x)
  {
    if Covers(s, x) {
      var i :| 0 <= i < |s| && s[i].Contains(x);
      assert (s + t)[i].Contains(x);
    }
    if Covers(t, x) {
      var i :| 0 <= i < |t| && t[i].Contains(x);
      assert (s + t)[|s| + i].Contains(x);
    }
  }

  lemma CoversTail(hs: seq<Span>, x: int)
    requires hs != []
    ensures Covers(hs, x) <==> hs[0].Contains(x) || Covers(hs[1..], x)
  {
    CoversConcat([hs[0]], hs[1..], x);
    assert [hs[0]] + hs[1..] == hs;
    assert [hs[0]][0] == hs[0];
  }

  lemma CoversOne(b: Span, x: int)
    ensures Covers([b], x) <==> b.Contains(x)
  {
    assert [b][0] == b;
  }

  lemma TotalConcat(s: seq<Span>, t: seq<Span>)
    ensures Total(s + t) == Total(s) + Total(t)
  {
    if s == [] {
      assert s + t == t;
    } else {
      assert (s + t)[1..] == s[1..] + t;
      TotalConcat(s[1..], t);
    }
  }

  // ---------- uniqueness: a separated list is determined by the bytes it covers ----------

  lemma FirstByteLeast(hs: seq<Span>, x: int)
    requires Separated(hs) && hs != [] && Covers(hs, x)
    ensures hs[0].addr <= x
  {
  }

  lemma FirstEndsNoLater(a: seq<Span>, b: seq<Span>)
    requires Separated(a) && Separated(b) && a != [] && b != []
    requires forall x :: Covers(a, x) <==> Covers(b, x)
    ensures a[0].addr <= b[0].addr
    ensures a[0].addr == b[0].addr ==> b[0].End() <= a[0].End()
  {
    assert b[0].Contains(b[0].addr);
    assert Covers(b, b[0].addr);
    FirstByteLeast(a, b[0].addr);
    if a[0].addr == b[0].addr && a[0].End() < b[0].End() {
      assert b[0].Contains(a[0].End());
      assert Covers(b, a[0].End()) && !Covers(a, a[0].End());
      assert false;
    }
  }

  lemma TailCovers(hs: seq<Span>, x: int)
    requires Separated(hs) && hs != []
    ensures Covers(hs[1..], x) <==> Covers(hs, x) && hs[0].End() <= x
  {
    CoversTail(hs, x);
  }

  /** Two fully coalesced lists over the same bytes are the same list. */
  lemma {:induction false} Unique(a: seq<Span>, b: seq<Span>)
    requires Separated(a) && Separated(b)
    requires forall x :: Covers(a, x) <==> Covers(b, x)
    ensures a == b
  {
    if a == [] {
      if b != [] {
        assert b[0].Contains(b[0].addr);
        assert Covers(b, b[0].addr);
        assert false;
      }
    } else if b == [] {
      assert a[0].Contains(a[0].addr);
      assert Covers(a, a[0].addr);
      assert false;
    } else {
      FirstEndsNoLater(a, b);
      FirstEndsNoLater(b, a);
      forall x ensures Covers(a[1..], x) <==> Covers(b[1..], x) {
        TailCovers(a, x);
        TailCovers(b, x);
      }
      Unique(a[1..], b[1..]);
      assert a == [a[0]] + a[1..];
      assert b == [b[0]] + b[1..];
    }
  }

  // ---------- insertion ----------

  lemma DisjointTail(hs: seq<Span>, b: Span)
    requires hs != [] && Disjoint(hs, b)
    ensures Disjoint(hs[1..], b) && Apart(hs[0], b)
  {
  }

  lemma JoinedDisjoint(hs: seq<Span>, b: Span)
    requires Separated(hs) && hs != [] && b.Regular() && Disjoint(hs, b) && hs[0].End() == b.addr
    ensures Span(hs[0].addr, hs[0].size + b.size).Regular()
    ensures Disjoint(hs[1..], Span(hs[0].addr, hs[0].size + b.size))
    ensures Separated(hs[1..])
  {
  }

  lemma SeparatedCons(h: Span, t: seq<Span>)
    requires h.Regular() && Separated(t) && (t != [] ==> h.End() < t[0].addr)
    ensures Separated([h] + t)
  {
    var s := [h] + t;
    forall i, j | 0 <= i < j < |s| ensures s[i].End() < s[j].addr {
      assert s[j] == t[j - 1];
      if i == 0 && 1 < j {
        assert t[0].End() < t[j - 1].addr;
      } else if 0 < i {
        assert s[i] == t[i - 1];
      }
    }
  }

  lemma InsertHead(hs: seq<Span>, b: Span)
    requires Separated(hs) && b.Regular() && Disjoint(hs, b)
    ensures Insert(hs, b) != []
    ensures hs == [] || b.addr < hs[0].addr ==> Insert(hs, b)[0].addr == b.addr
    ensures hs != [] && hs[0].addr < b.addr ==> Insert(hs, b)[0].addr == hs[0].addr
    decreases |hs|
  {
    if hs != [] && hs[0].End() == b.addr {
      JoinedDisjoint(hs, b);
      InsertHead(hs[1..], Span(hs[0].addr, hs[0].size + b.size));
    }
  }

  lemma {:induction false} InsertWithin(hs: seq<Span>, b: Span, lo: int, hi: int)
    requires Separated(hs) && b.Regular() && Disjoint(hs, b)
    requires Within(hs, lo, hi) && lo <= b.addr && b.End() <= hi
    ensures Within(Insert(hs, b), lo, hi)
    decreases |hs|
  {
    if hs == [] || b.End() < hs[0].addr {
      WithinCons(b, hs, lo, hi);
      assert [b] + [] == [b];
    } else if b.End() == hs[0].addr {
      WithinTail(hs, lo, hi);
      WithinCons(Span(b.addr, b.size + hs[0].size), hs[1..], lo, hi);
    } else if hs[0].End() == b.addr {
      JoinedDisjoint(hs, b);
      WithinTail(hs, lo, hi);
      InsertWithin(hs[1..], Span(hs[0].addr, hs[0].size + b.size), lo, hi);
    } else {
      DisjointTail(hs, b);
      WithinTail(hs, lo, hi);
      InsertWithin(hs[1..], b, lo, hi);
      WithinCons(hs[0], Insert(hs[1..], b), lo, hi);
    }
  }

  lemma WithinTail(hs: seq<Span>, lo: int, hi: int)
    requires hs != [] && Within(hs, lo, hi)
    ensures Within(hs[1..], lo, hi) && lo <= hs[0].addr && hs[0].End() <= hi
  {
  }

  lemma WithinCons(h: Span, t: seq<Span>, lo: int, hi: int)
    requires Within(t, lo, hi) && lo <= h.addr && h.End() <= hi
    ensures Within([h] + t, lo, hi)
  {
  }

  /** Inserting keeps the list fully coalesced. */
  lemma {:induction false} InsertSeparated(hs: seq<Span>, b: Span)
    requires Separated(hs) && b.Regular() && Disjoint(hs, b)
    ensures Separated(Insert(hs, b))
    decreases |hs|
  {
    if hs == [] || b.End() < hs[0].addr {
      SeparatedCons(b, hs);
      assert [b] + [] == [b];
    } else if b.End() == hs[0].addr {
      SeparatedCons(Span(b.addr, b.size + hs[0].size), hs[1..]);
    } else if hs[0].End() == b.addr {
      JoinedDisjoint(hs, b);
      InsertSeparated(hs[1..], Span(hs[0].addr, hs[0].size + b.size));
    } else {
      DisjointTail(hs, b);
      InsertSeparated(hs[1..], b);
      InsertHead(hs[1..], b);
      SeparatedCons(hs[0], Insert(hs[1..], b));
    }
  }

  /** Inserting adds exactly the bytes of the new range. */
  lemma {:induction false} InsertCovers(hs: seq<Span>, b: Span, x: int)
    requires Separated(hs) && b.Regular() && Disjoint(hs, b)
    ensures Covers(Insert(hs, b), x) <==> Covers(hs, x) || b.Contains(x)
    decreases |hs|
  {
    if hs == [] {
      CoversOne(b, x);
    } else if b.End() < hs[0].addr {
      CoversConcat([b], hs, x);
      CoversOne(b, x);
    } else if b.End() == hs[0].addr {
      CoversTail(hs, x);
      var j := Span(b.addr, b.size + hs[0].size);
      CoversConcat([j], hs[1..], x);
      CoversOne(j, x);
    } else if hs[0].End() == b.addr {
      CoversTail(hs, x);
      JoinedDisjoint(hs, b);
      InsertCovers(hs[1..], Span(hs[0].addr, hs[0].size + b.size), x);
    } else {
      CoversTail(hs, x);
      DisjointTail(hs, b);
      InsertCovers(hs[1..], b, x);
      CoversConcat([hs[0]], Insert(hs[1..], b), x);
      CoversOne(hs[0], x);
    }
  }

  lemma {:induction false} InsertTotal(hs: seq<Span>, b: Span)
    ensures Total(Insert(hs, b)) == Total(hs) + b.size
    decreases |hs|
  {
    if hs == [] || b.End() < hs[0].addr {
      TotalConcat([b], hs);
      assert [b] + [] == [b];
    } else if b.End() == hs[0].addr {
      TotalConcat([Span(b.addr, b.size + hs[0].size)], hs[1..]);
    } else if hs[0].End() == b.addr {
      InsertTotal(hs[1..], Span(hs[0].addr, hs[0].size + b.size));
    } else {
      InsertTotal(hs[1..], b);
      TotalConcat([hs[0]], Insert(hs[1..], b));
    }
  }

  // ---------- carving ----------

  /** `b` fits in `h` and each remainder is empty or large enough for a hole. */
  predicate Fits(h: Span, b: Span) {
    && Inside(b, h)
    && (h.addr == b.addr || h.addr + MIN_SIZE <= b.addr)
    && (b.End() == h.End() || b.End() + MIN_SIZE <= h.End())
  }

  predicate FitsSome(hs: seq<Span>, b: Span) {
    exists i :: 0 <= i < |hs| && Fits(hs[i], b)
  }

  lemma FitsTail(hs: seq<Span>, b: Span)
    requires Separated(hs) && hs != [] && b.Regular() && FitsSome(hs, b)
    ensures Inside(b, hs[0]) ==> Fits(hs[0], b)
    ensures !Inside(b, hs[0]) ==> FitsSome(hs[1..], b) && hs[0].End() < b.addr
  {
    var i :| 0 <= i < |hs| && Fits(hs[i], b);
    if i > 0 {
      assert hs[1..][i - 1] == hs[i];
    }
  }

  lemma {:induction false} CarveWithin(hs: seq<Span>, b: Span, lo: int, hi: int)
    requires Separated(hs) && b.Regular() && FitsSome(hs, b) && Within(hs, lo, hi)
    ensures Within(Carve(hs, b), lo, hi)
    decreases |hs|
  {
    FitsTail(hs, b);
    WithinTail(hs, lo, hi);
    if !Inside(b, hs[0]) {
      CarveWithin(hs[1..], b, lo, hi);
      WithinCons(hs[0], Carve(hs[1..], b), lo, hi);
    }
  }

  lemma PiecesSeparated(h: Span, b: Span, t: seq<Span>)
    requires h.Regular() && b.Regular() && Fits(h, b) && Separated(t) && (t != [] ==> h.End() < t[0].addr)
    ensures Separated(Pieces(h, b) + t)
    ensures Pieces(h, b) + t != [] ==> h.addr <= (Pieces(h, b) + t)[0].addr
  {
    var f := Span(h.addr, b.addr - h.addr);
    var k := Span(b.End(), h.End() - b.End());
    var rest := if b.End() < h.End() then [k] + t else t;
    if b.End() < h.End() {
      SeparatedCons(k, t);
    }
    if h.addr < b.addr {
      SeparatedCons(f, rest);
      assert Pieces(h, b) + t == [f] + rest;
    } else {
      assert Pieces(h, b) + t == rest;
    }
  }

  /** Cutting out a fitting range keeps the list sorted, coalesced and of regular holes. */
  lemma {:induction false} CarveSeparated(hs: seq<Span>, b: Span)
    requires Separated(hs) && b.Regular() && FitsSome(hs, b)
    ensures Separated(Carve(hs, b))
    ensures Carve(hs, b) != [] ==> hs[0].addr <= Carve(hs, b)[0].addr
    decreases |hs|
  {
    FitsTail(hs, b);
    if Inside(b, hs[0]) {
      PiecesSeparated(hs[0], b, hs[1..]);
    } else {
      CarveSeparated(hs[1..], b);
      SeparatedCons(hs[0], Carve(hs[1..], b));
    }
  }

  lemma PiecesCover(h: Span, b: Span, x: int)
    requires Inside(b, h) && 0 < b.size
    ensures Covers(Pieces(h, b), x) <==> h.Contains(x) && !b.Contains(x)
  {
    var f := if h.addr < b.addr then [Span(h.addr, b.addr - h.addr)] else [];
    var t := if b.End() < h.End() then [Span(b.End(), h.End() - b.End())] else [];
    CoversConcat(f, t, x);
    CoversOne(Span(h.addr, b.addr - h.addr), x);
    CoversOne(Span(b.End(), h.End() - b.End()), x);
  }

  lemma {:induction false} CarveCovers(hs: seq<Span>, b: Span, x: int)
    requires Separated(hs) && b.Regular() && FitsSome(hs, b)
    ensures Covers(Carve(hs, b), x) <==> Covers(hs, x) && !b.Contains(x)
    ensures b.Contains(x) ==> Covers(hs, x)
    decreases |hs|
  {
    FitsTail(hs, b);
    CoversTail(hs, x);
    if Inside(b, hs[0]) {
      PiecesCover(hs[0], b, x);
      CoversConcat(Pieces(hs[0], b), hs[1..], x);
      if b.Contains(x) && Covers(hs[1..], x) {
        TailCovers(hs, x);
        assert false;
      }
    } else {
      CarveCovers(hs[1..], b, x);
      CoversConcat([hs[0]], Carve(hs[1..], b), x);
      CoversOne(hs[0], x);
    }
  }

  lemma {:induction false} CarveTotal(hs: seq<Span>, b: Span)
    requires Separated(hs) && b.Regular() && FitsSome(hs, b)
    ensures Total(Carve(hs, b)) == Total(hs) - b.size
    decreases |hs|
  {
    FitsTail(hs, b);
    if Inside(b, hs[0]) {
      TotalConcat(Pieces(hs[0], b), hs[1..]);
      PiecesTotal(hs[0], b);
    } else {
      CarveTotal(hs[1..], b);
      TotalConcat([hs[0]], Carve(hs[1..], b));
    }
  }

  lemma PiecesTotal(h: Span, b: Span)
    requires Inside(b, h)
    ensures Total(Pieces(h, b)) == h.size - b.size
  {
    var f := if h.addr < b.addr then [Span(h.addr, b.addr - h.addr)] else [];
    var t := if b.End() < h.End() then [Span(b.End(), h.End() - b.End())] else [];
    TotalConcat(f, t);
  }

  /** Cutting a range out and putting it back restores the list exactly. */
  lemma InsertUndoesCarve(hs: seq<Span>, b: Span)
    requires Separated(hs) && b.Regular() && FitsSome(hs, b)
    ensures Disjoint(Carve(hs, b), b)
    ensures Insert(Carve(hs, b), b) == hs
  {
    var c := Carve(hs, b);
    CarveSeparated(hs, b);
    forall i | 0 <= i < |c| ensures Apart(c[i], b) {
      if !Apart(c[i], b) {
        var x := if c[i].addr < b.addr then b.addr else c[i].addr;
        assert c[i].Contains(x);
        CarveCovers(hs, b, x);
        assert false;
      }
    }
    InsertSeparated(c, b);
    forall x ensures Covers(Insert(c, b), x) <==> Covers(hs, x) {
      InsertCovers(c, b, x);
      CarveCovers(hs, b, x);
    }
    Unique(Insert(c, b), hs);
  }
}
