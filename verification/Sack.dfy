/** SACK block generation from the held out-of-order fragments (tcp/transport/sack.go). */
module Sack {
  import opened SeqNum
  import opened Reassembly

  /** A block [left, right) in sequence space. */
  datatype Block = Block(left: u32, right: u32)

  /** Extend the last block when the fragment starts exactly where it ends. */
  function AddFragment(blocks: seq<Block>, f: Fragment): (bs: seq<Block>)
    ensures |blocks| <= |bs| && bs != []
  {
    var n := |blocks|;
    if n > 0 && blocks[n - 1].right == f.start then
      blocks[..n - 1] + [Block(blocks[n - 1].left, FragEnd(f))]
    else blocks + [Block(f.start, FragEnd(f))]
  }

  function MergeFrom(blocks: seq<Block>, ooo: seq<Fragment>): (bs: seq<Block>)
    ensures ooo != [] || blocks != [] ==> bs != []
    decreases |ooo|
  {
    if ooo == [] then blocks else MergeFrom(AddFragment(blocks, ooo[0]), ooo[1..])
  }

  predicate Contains(b: Block, s: u32) {
    SeqLEQ(b.left, s) && SeqLT(s, b.right)
  }

  /** Index of the first block that contains s, or the number of blocks. */
  function FindBlock(blocks: seq<Block>, s: u32, from: nat): (i: nat)
    requires from <= |blocks|
    ensures from <= i <= |blocks|
    ensures i < |blocks| ==> Contains(blocks[i], s)
    ensures forall j :: from <= j < i ==> !Contains(blocks[j], s)
    decreases |blocks| - from
  {
    if from == |blocks| || Contains(blocks[from], s) then from else FindBlock(blocks, s, from + 1)
  }

  /** Swap the block that contains s to the front. */
  function ToFront(blocks: seq<Block>, s: u32): (bs: seq<Block>)
    ensures |bs| == |blocks|
  {
    var i := FindBlock(blocks, s, 0);
    if i < |blocks| then blocks[0 := blocks[i]][i := blocks[0]] else blocks
  }

  function SackBlocks(ooo: seq<Fragment>, last: u32, max: int): seq<Block> {
    if ooo == [] || max <= 0 then []
    else
      var bs := ToFront(MergeFrom([], ooo), last);
      if |bs| > max then bs[..max] else bs
  }

  lemma {:induction false} MergePasses(blocks: seq<Block>, ooo: seq<Fragment>, i: nat)
    requires i < |ooo|
    ensures MergeFrom(blocks, ooo[i..]) == MergeFrom(AddFragment(blocks, ooo[i]), ooo[i + 1..])
  {
    assert ooo[i..][1..] == ooo[i + 1..];
  }

  /** Merge adjacent fragments into regions. */
  method MergeFragments(ooo: seq<Fragment>) returns (blocks: seq<Block>)
    ensures blocks == MergeFrom([], ooo)
  {
    blocks := [];
    assert ooo[0..] == ooo;
    var i := 0;
    while i < |ooo|
      invariant i <= |ooo|
      invariant MergeFrom(blocks, ooo[i..]) == MergeFrom([], ooo)
    {
      MergePasses(blocks, ooo, i);
      var left, right, n := ooo[i].start, FragEnd(ooo[i]), |blocks|;
      if n > 0 && blocks[n - 1].right == left {
        blocks := blocks[..n - 1] + [Block(blocks[n - 1].left, right)];
      } else {
        blocks := blocks + [Block(left, right)];
      }
      i := i + 1;
    }
    assert ooo[i..] == [];
  }

  /** Regions of held bytes, that of the latest arrival first, at most max of them. */
  method BuildSackBlocks(ooo: seq<Fragment>, last: u32, max: int) returns (blocks: seq<Block>)
    ensures blocks == SackBlocks(ooo, last, max)
  {
    if ooo == [] || max <= 0 {
      return [];
    }
    blocks := MergeFragments(ooo);
    var i := 0;
    while i < |blocks| && !Contains(blocks[i], last)
      invariant i <= |blocks|
      invariant FindBlock(blocks, last, 0) == FindBlock(blocks, last, i)
    {
      i := i + 1;
    }
    if i < |blocks| {
      blocks := blocks[0 := blocks[i]][i := blocks[0]];
    }
    if |blocks| > max {
      blocks := blocks[..max];
    }
  }

  // ----- positions of blocks -----

  predicate BlockSpans(b: Block, nxt: u32, N: int, x: int) {
    N + Dist(nxt, b.left) <= x < N + Dist(nxt, b.right)
  }

  ghost predicate Reported(bs: seq<Block>, nxt: u32, N: int, x: int) {
    exists b :: b in bs && BlockSpans(b, nxt, N, x)
  }

  predicate BlockPlaced(b: Block, nxt: u32, hi: int) {
    0 < Dist(nxt, b.left) < Dist(nxt, b.right) <= hi
  }

  ghost predicate BlocksPlaced(bs: seq<Block>, nxt: u32, hi: int) {
    forall b :: b in bs ==> BlockPlaced(b, nxt, hi)
  }

  lemma {:induction false} FragmentEnds(f: Fragment, nxt: u32, N: int, wnd: int)
    requires Placed(f, nxt, N, N, N + wnd) && wnd <= MAX_WINDOW
    ensures Dist(nxt, FragEnd(f)) == Dist(nxt, f.start) + |f.data|
  {
  }

  lemma {:induction false} AddFragmentUnion(bs: seq<Block>, f: Fragment, nxt: u32, N: int, wnd: int, x: int)
    requires BlocksPlaced(bs, nxt, wnd) && wnd <= MAX_WINDOW && Placed(f, nxt, N, N, N + wnd)
    ensures BlocksPlaced(AddFragment(bs, f), nxt, wnd)
    ensures Reported(AddFragment(bs, f), nxt, N, x) <==> Reported(bs, nxt, N, x) || Spans(f, nxt, N, x)
  {
    FragmentEnds(f, nxt, N, wnd);
    var n := |bs|;
    if n > 0 && bs[n - 1].right == f.start {
      var init, prev, grown := bs[..n - 1], bs[n - 1], Block(bs[n - 1].left, FragEnd(f));
      assert prev in bs && BlockPlaced(prev, nxt, wnd);
      assert bs == init + [prev] && AddFragment(bs, f) == init + [grown];
      assert BlockSpans(grown, nxt, N, x) <==> BlockSpans(prev, nxt, N, x) || Spans(f, nxt, N, x);
      ReportedSnoc(init, prev, nxt, N, x);
      ReportedSnoc(init, grown, nxt, N, x);
    } else {
      ReportedSnoc(bs, Block(f.start, FragEnd(f)), nxt, N, x);
    }
  }

  lemma {:induction false} ReportedSnoc(bs: seq<Block>, b: Block, nxt: u32, N: int, x: int)
    ensures Reported(bs + [b], nxt, N, x) <==> Reported(bs, nxt, N, x) || BlockSpans(b, nxt, N, x)
  {
    assert b in bs + [b];
    assert forall c :: c in bs ==> c in bs + [b];
  }

  /** Merging reports exactly the held positions. */
  lemma {:induction false} MergeUnion(bs: seq<Block>, ooo: seq<Fragment>, nxt: u32, N: int, wnd: int, x: int)
    requires BlocksPlaced(bs, nxt, wnd) && wnd <= MAX_WINDOW && AllPlaced(ooo, nxt, N, N, N + wnd)
    ensures BlocksPlaced(MergeFrom(bs, ooo), nxt, wnd)
    ensures Reported(MergeFrom(bs, ooo), nxt, N, x) <==> Reported(bs, nxt, N, x) || Held(ooo, nxt, N, x)
    decreases |ooo|
  {
    if ooo != [] {
      var f := ooo[0];
      assert ooo == [f] + ooo[1..] && f in ooo;
      assert Held(ooo, nxt, N, x) <==> Spans(f, nxt, N, x) || Held(ooo[1..], nxt, N, x);
      AddFragmentUnion(bs, f, nxt, N, wnd, x);
      MergeUnion(AddFragment(bs, f), ooo[1..], nxt, N, wnd, x);
    }
  }

  lemma {:induction false} ToFrontMembers(bs: seq<Block>, s: u32)
    ensures forall b :: b in ToFront(bs, s) <==> b in bs
  {
    var i := FindBlock(bs, s, 0);
    if i < |bs| {
      var k := ToFront(bs, s);
      assert k[0] == bs[i] && k[i] == bs[0];
      forall b | b in bs ensures b in k {
        var j :| 0 <= j < |bs| && bs[j] == b;
        assert j == 0 || j == i || k[j] == b;
      }
      forall b | b in k ensures b in bs {
        var j :| 0 <= j < |k| && k[j] == b;
        assert j == 0 || j == i || bs[j] == b;
      }
    }
  }

  // ----- soundness -----

  /** Every reported position is a held one strictly beyond RCV.NXT; with no truncation
      the reported positions are exactly the held ones. */
  lemma {:induction false} SackSound(r: Receiver, N: int, max: int, x: int)
    requires Ok(r, N)
    ensures var bs := SackBlocks(r.ooo, r.lastOoo, max);
      && |bs| <= Max(0, max) && (r.ooo != [] && max > 0 ==> bs != [])
      && (Reported(bs, r.nxt, N, x) ==> Held(r.ooo, r.nxt, N, x) && x > N)
      && (|MergeFrom([], r.ooo)| <= max ==> (Reported(bs, r.nxt, N, x) <==> Held(r.ooo, r.nxt, N, x)))
  {
    MergeUnion([], r.ooo, r.nxt, N, r.wnd, x);
    var m := MergeFrom([], r.ooo);
    ToFrontMembers(m, r.lastOoo);
    var bs := SackBlocks(r.ooo, r.lastOoo, max);
    assert forall b :: b in bs ==> b in m;
    assert Reported(bs, r.nxt, N, x) ==> Reported(m, r.nxt, N, x);
  }

  lemma {:induction false} ContainsSpans(b: Block, s: u32, nxt: u32, N: int, hi: int)
    requires BlockPlaced(b, nxt, hi) && hi <= MAX_WINDOW && 0 < Dist(nxt, s) <= hi
    ensures Contains(b, s) <==> BlockSpans(b, nxt, N, N + Dist(nxt, s))
  {
  }

  /** The block search finds the block that reports the number it is given. */
  lemma {:induction false} FindsReported(bs: seq<Block>, s: u32, nxt: u32, N: int, hi: int)
    requires BlocksPlaced(bs, nxt, hi) && hi <= MAX_WINDOW && 0 < Dist(nxt, s) <= hi
    requires Reported(bs, nxt, N, N + Dist(nxt, s))
    ensures var i := FindBlock(bs, s, 0);
      i < |bs| && BlockSpans(bs[i], nxt, N, N + Dist(nxt, s))
  {
    var b :| b in bs && BlockSpans(b, nxt, N, N + Dist(nxt, s));
    ContainsSpans(b, s, nxt, N, hi);
    var i := FindBlock(bs, s, 0);
    var j :| 0 <= j < |bs| && bs[j] == b;
    assert i <= j && bs[i] in bs;
    ContainsSpans(bs[i], s, nxt, N, hi);
  }

  lemma {:induction false} FrontIsFound(bs: seq<Block>, s: u32)
    requires FindBlock(bs, s, 0) < |bs|
    ensures ToFront(bs, s)[0] == bs[FindBlock(bs, s, 0)]
  {
  }

  lemma {:induction false} SackHead(ooo: seq<Fragment>, last: u32, max: int)
    requires ooo != [] && max > 0 && FindBlock(MergeFrom([], ooo), last, 0) < |MergeFrom([], ooo)|
    ensures var m, bs := MergeFrom([], ooo), SackBlocks(ooo, last, max);
      bs != [] && bs[0] == m[FindBlock(m, last, 0)]
  {
    FrontIsFound(MergeFrom([], ooo), last);
  }

  /** If the position of lastOoo is held, the first block reports it. */
  lemma {:induction false} FirstBlockIsLatest(r: Receiver, N: int, max: int)
    requires Ok(r, N) && max > 0
    requires 0 < Dist(r.nxt, r.lastOoo) <= r.wnd
    requires Held(r.ooo, r.nxt, N, N + Dist(r.nxt, r.lastOoo))
    ensures var bs := SackBlocks(r.ooo, r.lastOoo, max);
      bs != [] && BlockSpans(bs[0], r.nxt, N, N + Dist(r.nxt, r.lastOoo))
  {
    var m := MergeFrom([], r.ooo);
    MergeUnion([], r.ooo, r.nxt, N, r.wnd, N + Dist(r.nxt, r.lastOoo));
    FindsReported(m, r.lastOoo, r.nxt, N, r.wnd);
    SackHead(r.ooo, r.lastOoo, max);
  }

  /** After an out-of-order arrival the first block of the list contains the arrival's first
      new byte, at position p. */
  lemma {:induction false} SackAnswersArrival(r: Receiver, N: int, start: u32, payload: Payload, p: int, T: seq<u8>,
                                              max: int)
    requires Inv(r, N, T) && max > 0
    requires Near(r.nxt, start) && p == N + Dist(r.nxt, start) && FitsAt(payload, p, T)
    requires payload != [] && N < p < N + r.wnd
    ensures var r' := Accept(r, start, payload);
      && r'.nxt == r.nxt && r'.lastOoo == start
      && var bs := SackBlocks(r'.ooo, r'.lastOoo, max);
         bs != [] && BlockSpans(bs[0], r'.nxt, N, p)
  {
    var r' := Accept(r, start, payload);
    TrimRefines(r, N, start, payload, p, T);
    var M := AcceptRefines(r, N, start, payload, p, T, p);
    FirstBlockIsLatest(r', N, max);
  }

  // ----- disjointness -----

  /** Fragments are sorted and do not overlap. */
  ghost predicate Disjoint(ooo: seq<Fragment>, nxt: u32) {
    forall i, j :: 0 <= i < j < |ooo| ==> Dist(nxt, ooo[i].start) + |ooo[i].data| <= Dist(nxt, ooo[j].start)
  }

  /** Neither overlapping nor touching. */
  predicate Apart(a: Block, b: Block, nxt: u32) {
    Dist(nxt, a.right) < Dist(nxt, b.left) || Dist(nxt, b.right) < Dist(nxt, a.left)
  }

  ghost predicate AllApart(bs: seq<Block>, nxt: u32) {
    forall i, j :: 0 <= i < |bs| && 0 <= j < |bs| && i != j ==> Apart(bs[i], bs[j], nxt)
  }

  ghost predicate EndBy(bs: seq<Block>, nxt: u32, at: int) {
    forall b :: b in bs ==> Dist(nxt, b.right) <= at
  }

  lemma {:induction false} AddFragmentApart(bs: seq<Block>, f: Fragment, nxt: u32, N: int, wnd: int)
    requires BlocksPlaced(bs, nxt, wnd) && wnd <= MAX_WINDOW && Placed(f, nxt, N, N, N + wnd)
    requires AllApart(bs, nxt) && EndBy(bs, nxt, Dist(nxt, f.start))
    requires forall i :: 0 <= i < |bs| - 1 ==> Dist(nxt, bs[i].right) < Dist(nxt, bs[|bs| - 1].left)
    ensures var k := AddFragment(bs, f);
      && AllApart(k, nxt) && EndBy(k, nxt, Dist(nxt, f.start) + |f.data|)
      && forall i :: 0 <= i < |k| - 1 ==> Dist(nxt, k[i].right) < Dist(nxt, k[|k| - 1].left)
  {
    FragmentEnds(f, nxt, N, wnd);
    var k, n := AddFragment(bs, f), |bs|;
    forall i | 0 <= i < |k| - 1
      ensures k[i] == bs[i] && k[i] in bs && Dist(nxt, k[i].right) < Dist(nxt, k[|k| - 1].left)
    {
      assert bs[i] in bs;
      if n > 0 && i == n - 1 {
        assert bs[i].right != f.start;
        assert Dist(nxt, bs[i].right) <= Dist(nxt, f.start);
      } else {
        assert Dist(nxt, bs[i].right) < Dist(nxt, bs[n - 1].left);
        assert bs[n - 1] in bs && BlockPlaced(bs[n - 1], nxt, wnd);
      }
    }
  }

  lemma {:induction false} MergeApart(bs: seq<Block>, ooo: seq<Fragment>, nxt: u32, N: int, wnd: int)
    requires BlocksPlaced(bs, nxt, wnd) && wnd <= MAX_WINDOW && AllPlaced(ooo, nxt, N, N, N + wnd)
    requires Disjoint(ooo, nxt) && AllApart(bs, nxt)
    requires ooo != [] ==> EndBy(bs, nxt, Dist(nxt, ooo[0].start))
    requires forall i :: 0 <= i < |bs| - 1 ==> Dist(nxt, bs[i].right) < Dist(nxt, bs[|bs| - 1].left)
    ensures AllApart(MergeFrom(bs, ooo), nxt)
    decreases |ooo|
  {
    if ooo != [] {
      var f := ooo[0];
      assert f in ooo;
      AddFragmentUnion(bs, f, nxt, N, wnd, 0);
      AddFragmentApart(bs, f, nxt, N, wnd);
      MergeApart(AddFragment(bs, f), ooo[1..], nxt, N, wnd);
    }
  }

  /** If held fragments do not overlap, the reported blocks are pairwise disjoint and
      never adjacent. */
  lemma {:induction false} SackDisjoint(r: Receiver, N: int, max: int)
    requires Ok(r, N) && Disjoint(r.ooo, r.nxt)
    ensures AllApart(SackBlocks(r.ooo, r.lastOoo, max), r.nxt)
  {
    MergeApart([], r.ooo, r.nxt, N, r.wnd);
    var m := MergeFrom([], r.ooo);
    var i := FindBlock(m, r.lastOoo, 0);
    var k := ToFront(m, r.lastOoo);
    forall a, b | 0 <= a < |k| && 0 <= b < |k| && a != b ensures Apart(k[a], k[b], r.nxt) {
      if i < |m| {
        var a' := if a == 0 then i else if a == i then 0 else a;
        var b' := if b == 0 then i else if b == i then 0 else b;
        assert k[a] == m[a'] && k[b] == m[b'] && a' != b';
      }
    }
  }

  /** Adding a fragment never parts blocks that were not apart. */
  lemma {:induction false} ApartBefore(bs: seq<Block>, f: Fragment, nxt: u32, N: int, wnd: int)
    requires BlocksPlaced(bs, nxt, wnd) && wnd <= MAX_WINDOW && Placed(f, nxt, N, N, N + wnd)
    requires AllApart(AddFragment(bs, f), nxt)
    ensures AllApart(bs, nxt)
  {
    FragmentEnds(f, nxt, N, wnd);
    var k, n := AddFragment(bs, f), |bs|;
    forall i, j | 0 <= i < n && 0 <= j < n && i != j ensures Apart(bs[i], bs[j], nxt) {
      assert Apart(k[i], k[j], nxt);
    }
  }

  lemma {:induction false} MergeApartBefore(bs: seq<Block>, ooo: seq<Fragment>, nxt: u32, N: int, wnd: int)
    requires BlocksPlaced(bs, nxt, wnd) && wnd <= MAX_WINDOW && AllPlaced(ooo, nxt, N, N, N + wnd)
    requires AllApart(MergeFrom(bs, ooo), nxt)
    ensures AllApart(bs, nxt)
    decreases |ooo|
  {
    if ooo != [] {
      assert ooo[0] in ooo;
      AddFragmentUnion(bs, ooo[0], nxt, N, wnd, 0);
      MergeApartBefore(AddFragment(bs, ooo[0]), ooo[1..], nxt, N, wnd);
      ApartBefore(bs, ooo[0], nxt, N, wnd);
    }
  }

  /** A fragment that starts inside the last block makes a block that is not apart from it. */
  lemma {:induction false} ApartMeansBeyond(bs: seq<Block>, f: Fragment, nxt: u32, N: int, wnd: int)
    requires BlocksPlaced(bs, nxt, wnd) && wnd <= MAX_WINDOW && Placed(f, nxt, N, N, N + wnd)
    requires bs != [] && Dist(nxt, bs[|bs| - 1].left) <= Dist(nxt, f.start)
    requires AllApart(AddFragment(bs, f), nxt)
    ensures Dist(nxt, bs[|bs| - 1].right) <= Dist(nxt, f.start)
  {
    FragmentEnds(f, nxt, N, wnd);
    var k, n := AddFragment(bs, f), |bs|;
    if bs[n - 1].right != f.start {
      assert k[n - 1] == bs[n - 1] && Apart(k[n - 1], k[n], nxt);
    }
  }

  lemma {:induction false} DisjointCons(f: Fragment, ooo: seq<Fragment>, nxt: u32)
    requires Disjoint(ooo, nxt) && Sorted(ooo, nxt)
    requires ooo != [] ==> Dist(nxt, f.start) + |f.data| <= Dist(nxt, ooo[0].start)
    ensures Disjoint([f] + ooo, nxt)
  {
    var k := [f] + ooo;
    forall i, j | 0 <= i < j < |k| ensures Dist(nxt, k[i].start) + |k[i].data| <= Dist(nxt, k[j].start) {
      assert k[j] == ooo[j - 1] && (i > 0 ==> k[i] == ooo[i - 1]);
      assert j > 1 ==> Dist(nxt, ooo[0].start) <= Dist(nxt, ooo[j - 1].start);
    }
  }

  lemma {:induction false} ApartMeansDisjoint(bs: seq<Block>, ooo: seq<Fragment>, nxt: u32, N: int, wnd: int)
    requires BlocksPlaced(bs, nxt, wnd) && wnd <= MAX_WINDOW && AllPlaced(ooo, nxt, N, N, N + wnd) && Sorted(ooo, nxt)
    requires bs != [] && ooo != [] ==> Dist(nxt, bs[|bs| - 1].left) <= Dist(nxt, ooo[0].start)
    requires AllApart(MergeFrom(bs, ooo), nxt)
    ensures Disjoint(ooo, nxt)
    ensures bs != [] && ooo != [] ==> Dist(nxt, bs[|bs| - 1].right) <= Dist(nxt, ooo[0].start)
    decreases |ooo|
  {
    if ooo != [] {
      var f, rest := ooo[0], ooo[1..];
      assert f in ooo && [f] + rest == ooo;
      var k := AddFragment(bs, f);
      AddFragmentUnion(bs, f, nxt, N, wnd, 0);
      FragmentEnds(f, nxt, N, wnd);
      SortedUncons(ooo, nxt);
      assert rest != [] ==> rest[0] in ooo;
      ApartMeansDisjoint(k, rest, nxt, N, wnd);
      DisjointCons(f, rest, nxt);
      MergeApartBefore(k, rest, nxt, N, wnd);
      if bs != [] { ApartMeansBeyond(bs, f, nxt, N, wnd); }
    }
  }

  lemma {:induction false} ToFrontApart(m: seq<Block>, s: u32, nxt: u32)
    requires AllApart(ToFront(m, s), nxt)
    ensures AllApart(m, nxt)
  {
    var i, k := FindBlock(m, s, 0), ToFront(m, s);
    forall a, b | 0 <= a < |m| && 0 <= b < |m| && a != b ensures Apart(m[a], m[b], nxt) {
      var a' := if i == |m| then a else if a == 0 then i else if a == i then 0 else a;
      var b' := if i == |m| then b else if b == 0 then i else if b == i then 0 else b;
      assert m[a] == k[a'] && m[b] == k[b'] && a' != b';
    }
  }

  /** With no block cut off, the blocks are pairwise disjoint and never adjacent if and only
      if no held fragments overlap. */
  lemma {:induction false} SackDisjointIff(r: Receiver, N: int, max: int)
    requires Ok(r, N) && |MergeFrom([], r.ooo)| <= max
    ensures AllApart(SackBlocks(r.ooo, r.lastOoo, max), r.nxt) <==> Disjoint(r.ooo, r.nxt)
  {
    if Disjoint(r.ooo, r.nxt) {
      SackDisjoint(r, N, max);
    } else if AllApart(SackBlocks(r.ooo, r.lastOoo, max), r.nxt) && r.ooo != [] {
      ToFrontApart(MergeFrom([], r.ooo), r.lastOoo, r.nxt);
      ApartMeansDisjoint([], r.ooo, r.nxt, N, r.wnd);
    }
  }
}
