/** Byte ranges: coalescing, splitting, and collapsing of sectors. */
module Ranges {
  import opened Consts
  import opened Layouts
  import opened Sets
  import opened Sorting

  const MAX_PREFETCH: int := 64 * 1024

  predicate CoveredBy(ranges: seq<Range>, at: int) {
    exists i :: 0 <= i < |ranges| && ranges[i].Has(at)
  }

  predicate RangeLe(a: Range, b: Range) {
    a.start < b.start || (a.start == b.start && a.length <= b.length)
  }

  function NonEmpty(ranges: seq<Range>): (r: seq<Range>)
    ensures forall x :: x in r <==> x in ranges && x.length > 0
  {
    if ranges == [] then []
    else (if ranges[0].length > 0 then [ranges[0]] else []) + NonEmpty(ranges[1..])
  }

  /** Non-empty ranges in ascending order, each ending before the next one starts. */
  predicate Separated(ranges: seq<Range>) {
    && (forall i :: 0 <= i < |ranges| ==> ranges[i].length > 0)
    && (forall i, j :: 0 <= i < j < |ranges| ==> ranges[i].start + ranges[i].length < ranges[j].start)
  }

  /** Pieces of bounded size, in ascending order and disjoint; a short piece is followed by a gap. */
  predicate Bounded(pieces: seq<Range>) {
    && (forall i :: 0 <= i < |pieces| ==> 1 <= pieces[i].length <= 65536)
    && (forall i, j :: 0 <= i < j < |pieces| ==> pieces[i].start + pieces[i].length <= pieces[j].start)
    && (forall i, j :: 0 <= i < j < |pieces| && pieces[i].length < 65536 ==>
          pieces[i].start + pieces[i].length < pieces[j].start)
  }

  lemma CoveredAppend(a: seq<Range>, b: seq<Range>, at: int)
    ensures CoveredBy(a + b, at) <==> CoveredBy(a, at) || CoveredBy(b, at)
  {
    var c := a + b;
    if i :| 0 <= i < |c| && c[i].Has(at) {
      assert if i < |a| then a[i].Has(at) else b[i - |a|].Has(at);
    }
    if i :| 0 <= i < |a| && a[i].Has(at) {
      assert c[i].Has(at);
    }
    if i :| 0 <= i < |b| && b[i].Has(at) {
      assert c[|a| + i].Has(at);
    }
  }

  lemma CoveredOne(r: Range, at: int)
    ensures CoveredBy([r], at) <==> r.Has(at)
  {
    assert r.Has(at) ==> [r][0].Has(at);
  }

  lemma CoveredMembers(a: seq<Range>, b: seq<Range>, at: int)
    requires forall x :: x in a && x.length > 0 <==> x in b && x.length > 0
    ensures CoveredBy(a, at) <==> CoveredBy(b, at)
  {
    if i :| 0 <= i < |a| && a[i].Has(at) {
      assert a[i] in b;
      var j :| 0 <= j < |b| && b[j] == a[i];
      assert b[j].Has(at);
    }
    if i :| 0 <= i < |b| && b[i].Has(at) {
      assert b[i] in a;
      var j :| 0 <= j < |a| && a[j] == b[i];
      assert a[j].Has(at);
    }
  }

  /** Sorted non-empty input, as the coalescing loop sees it. */
  function Prepared(ranges: seq<Range>): seq<Range> {
    Sort(NonEmpty(ranges), RangeLe)
  }

  lemma PreparedInput(ranges: seq<Range>)
    ensures var s := Prepared(ranges);
      && (forall i :: 0 <= i < |s| ==> s[i].length > 0)
      && (forall i, j :: 0 <= i < j < |s| ==> s[i].start <= s[j].start)
      && (forall at :: CoveredBy(s, at) <==> CoveredBy(ranges, at))
  {
    var s := Prepared(ranges);
    var n := NonEmpty(ranges);
    SortAscending(n, RangeLe);
    forall x ensures x in s <==> x in n {
      assert x in multiset(s) <==> x in multiset(n);
    }
    forall at ensures CoveredBy(s, at) <==> CoveredBy(ranges, at) {
      CoveredMembers(s, ranges, at);
    }
  }

  /** Extends the last merged range over `next`, or starts a new one. */
  function Merge(merged: seq<Range>, next: Range): seq<Range> {
    if merged != [] && next.start <= merged[|merged| - 1].start + merged[|merged| - 1].length then
      var last := merged[|merged| - 1];
      merged[|merged| - 1 := Range(last.start, Max(last.start + last.length, next.start + next.length) - last.start)]
    else merged + [next]
  }

  predicate StartsBefore(merged: seq<Range>, start: int) {
    forall i :: 0 <= i < |merged| ==> merged[i].start <= start
  }

  lemma MergeShape(merged: seq<Range>, next: Range)
    requires Separated(merged) && next.length > 0 && StartsBefore(merged, next.start)
    ensures Separated(Merge(merged, next)) && StartsBefore(Merge(merged, next), next.start)
  {
    if merged != [] {
      var last := merged[|merged| - 1];
      assert forall i :: 0 <= i < |merged| ==> merged[i].start + merged[i].length <= last.start + last.length;
    }
  }

  lemma MergeCovers(merged: seq<Range>, next: Range, at: int)
    requires StartsBefore(merged, next.start)
    ensures CoveredBy(Merge(merged, next), at) <==> CoveredBy(merged, at) || next.Has(at)
  {
    hide CoveredBy;
    CoveredOne(next, at);
    if merged != [] && next.start <= merged[|merged| - 1].start + merged[|merged| - 1].length {
      var n := |merged| - 1;
      var last := merged[n];
      var wide := Merge(merged, next)[n];
      assert merged == merged[..n] + [last];
      assert Merge(merged, next) == merged[..n] + [wide];
      CoveredAppend(merged[..n], [last], at);
      CoveredAppend(merged[..n], [wide], at);
      CoveredOne(last, at);
      CoveredOne(wide, at);
    } else {
      CoveredAppend(merged, [next], at);
    }
  }

  ghost predicate SameCover(a: seq<Range>, b: seq<Range>) {
    forall at :: CoveredBy(a, at) <==> CoveredBy(b, at)
  }

  lemma MergeStep(merged: seq<Range>, s: seq<Range>, k: nat)
    requires k < |s| && SameCover(merged, s[..k]) && StartsBefore(merged, s[k].start)
    ensures SameCover(Merge(merged, s[k]), s[..k + 1])
  {
    hide CoveredBy, Merge;
    assert s[..k + 1] == s[..k] + [s[k]];
    forall at ensures CoveredBy(Merge(merged, s[k]), at) <==> CoveredBy(s[..k + 1], at) {
      MergeCovers(merged, s[k], at);
      CoveredAppend(s[..k], [s[k]], at);
      CoveredOne(s[k], at);
    }
  }

  /** The coalescing loop: sorted ranges are merged when they touch or overlap. */
  method Coalesce(ranges: seq<Range>) returns (merged: seq<Range>)
    ensures Separated(merged)
    ensures SameCover(merged, ranges)
  {
    hide CoveredBy, Separated, Sort, NonEmpty, Prepared;
    var s := Prepared(ranges);
    PreparedInput(ranges);
    merged := [];
    NothingMerged(s);
    for k := 0 to |s|
      invariant Separated(merged) && SameCover(merged, s[..k])
      invariant k < |s| ==> StartsBefore(merged, s[k].start)
    {
      var next := s[k];
      MergeShape(merged, next);
      MergeStep(merged, s, k);
      if merged != [] && next.start <= merged[|merged| - 1].start + merged[|merged| - 1].length {
        var last := merged[|merged| - 1];
        merged := merged[|merged| - 1 := Range(last.start,
            Max(last.start + last.length, next.start + next.length) - last.start)];
      } else {
        merged := merged + [next];
      }
    }
    assert s[..|s|] == s;
  }

  lemma NothingMerged(s: seq<Range>)
    ensures Separated([]) && SameCover([], s[..0])
  {
    assert s[..0] == [];
  }

  // Splitting.

  /** The pieces of one range: full ones, then the rest. */
  function Pieces(start: int, length: int): seq<Range>
    decreases length
  {
    if length <= 0 then []
    else if length > MAX_PREFETCH then
      [Range(start, MAX_PREFETCH)] + Pieces(start + MAX_PREFETCH, length - MAX_PREFETCH)
    else [Range(start, length)]
  }

  /** The pieces tile the range; only the last one may be short. */
  lemma {:induction false} PiecesTile(start: int, length: int)
    ensures var p := Pieces(start, length);
      && Bounded(p)
      && (forall i :: 0 <= i < |p| ==> start <= p[i].start && p[i].start + p[i].length <= start + length)
      && (forall i :: 0 <= i < |p| - 1 ==> p[i].length == MAX_PREFETCH)
    decreases length
  {
    if length > MAX_PREFETCH {
      PiecesTile(start + MAX_PREFETCH, length - MAX_PREFETCH);
      PrependPiece(Range(start, MAX_PREFETCH), Pieces(start + MAX_PREFETCH, length - MAX_PREFETCH));
    }
  }

  lemma PrependPiece(first: Range, p: seq<Range>)
    requires first.length == MAX_PREFETCH && Bounded(p)
    requires forall i :: 0 <= i < |p| ==> first.start + first.length <= p[i].start
    ensures Bounded([first] + p)
  {
  }

  lemma {:induction false} PiecesCover(start: int, length: int, at: int)
    ensures CoveredBy(Pieces(start, length), at) <==> start <= at < start + length
    decreases length
  {
    hide CoveredBy;
    if length <= 0 {
      NotCovered(at);
    } else if length > MAX_PREFETCH {
      PiecesCover(start + MAX_PREFETCH, length - MAX_PREFETCH, at);
      CoveredAppend([Range(start, MAX_PREFETCH)], Pieces(start + MAX_PREFETCH, length - MAX_PREFETCH), at);
      CoveredOne(Range(start, MAX_PREFETCH), at);
    } else {
      CoveredOne(Range(start, length), at);
    }
  }

  lemma NotCovered(at: int)
    ensures !CoveredBy([], at)
  {
  }

  predicate EndsBefore(pieces: seq<Range>, start: int) {
    forall i :: 0 <= i < |pieces| ==> pieces[i].start + pieces[i].length < start
  }

  lemma AppendPieces(a: seq<Range>, r: Range)
    requires Bounded(a) && EndsBefore(a, r.start)
    ensures Bounded(a + Pieces(r.start, r.length))
    ensures forall i :: 0 <= i < |a + Pieces(r.start, r.length)| ==>
      var x := (a + Pieces(r.start, r.length))[i];
      x.start + x.length <= Max(r.start, r.start + r.length)
  {
    PiecesTile(r.start, r.length);
    hide Pieces;
    var p := Pieces(r.start, r.length);
    var c := a + p;
    forall i, j | 0 <= i < j < |c|
      ensures c[i].start + c[i].length <= c[j].start
      ensures c[i].length < MAX_PREFETCH ==> c[i].start + c[i].length < c[j].start
    {
      if i < |a| <= j {
        assert c[i] == a[i] && c[j] == p[j - |a|];
      } else if |a| <= i {
        assert c[i] == p[i - |a|] && c[j] == p[j - |a|];
      }
    }
  }

  lemma AppendCovers(a: seq<Range>, merged: seq<Range>, k: nat)
    requires k < |merged| && SameCover(a, merged[..k])
    ensures SameCover(a + Pieces(merged[k].start, merged[k].length), merged[..k + 1])
  {
    hide CoveredBy, Pieces;
    var r := merged[k];
    assert merged[..k + 1] == merged[..k] + [r];
    forall at ensures CoveredBy(a + Pieces(r.start, r.length), at) <==> CoveredBy(merged[..k + 1], at) {
      CoveredAppend(a, Pieces(r.start, r.length), at);
      PiecesCover(r.start, r.length, at);
      CoveredAppend(merged[..k], [r], at);
      CoveredOne(r, at);
    }
  }

  lemma NextSeparated(merged: seq<Range>, k: nat, pieces: seq<Range>)
    requires Separated(merged) && k < |merged|
    requires forall i :: 0 <= i < |pieces| ==> pieces[i].start + pieces[i].length <= merged[k].start + merged[k].length
    ensures k + 1 < |merged| ==> EndsBefore(pieces, merged[k + 1].start)
  {
  }

  /** Coalesces the ranges and splits them at the request limit. */
  method BoundedRanges(ranges: seq<Range>) returns (bounded: seq<Range>)
    ensures Bounded(bounded)
    ensures SameCover(bounded, ranges)
  {
    hide CoveredBy, Bounded, Pieces, Separated;
    var merged := Coalesce(ranges);
    bounded := [];
    NothingBounded(merged);
    for k := 0 to |merged|
      invariant Bounded(bounded) && SameCover(bounded, merged[..k])
      invariant k < |merged| ==> EndsBefore(bounded, merged[k].start)
    {
      var start, length := merged[k].start, merged[k].length;
      ghost var before := bounded;
      AppendPieces(before, merged[k]);
      AppendCovers(before, merged, k);
      PositiveLength(merged, k);
      while length > MAX_PREFETCH
        invariant length > 0
        invariant bounded + Pieces(start, length) == before + Pieces(merged[k].start, merged[k].length)
      {
        UnfoldPieces(start, length);
        bounded := bounded + [Range(start, MAX_PREFETCH)];
        start := start + MAX_PREFETCH;
        length := length - MAX_PREFETCH;
      }
      UnfoldPieces(start, length);
      if length != 0 {
        bounded := bounded + [Range(start, length)];
      }
      NextSeparated(merged, k, bounded);
    }
    assert merged[..|merged|] == merged;
  }

  lemma NothingBounded(merged: seq<Range>)
    ensures Bounded([]) && SameCover([], merged[..0])
  {
    assert merged[..0] == [];
  }

  lemma PositiveLength(merged: seq<Range>, k: nat)
    requires Separated(merged) && k < |merged|
    ensures merged[k].length > 0
  {
  }

  lemma UnfoldPieces(start: int, length: int)
    requires length > 0
    ensures Pieces(start, length) ==
      if length > MAX_PREFETCH then [Range(start, MAX_PREFETCH)] + Pieces(start + MAX_PREFETCH, length - MAX_PREFETCH)
      else [Range(start, length)]
  {
  }

  // Collapsing sectors.

  predicate IntLe(a: int, b: int) {
    a <= b
  }

  /** Python's `sorted` of the keys of a dictionary. */
  method SortedKeys(keys: set<int>) returns (s: seq<int>)
    ensures forall x :: x in s <==> x in keys
    ensures forall i, j :: 0 <= i < j < |s| ==> s[i] < s[j]
  {
    s := [];
    var rest := keys;
    while rest != {}
      invariant rest <= keys && Ascending(s, IntLe)
      invariant forall x :: x in s <==> x in keys && x !in rest
      invariant forall i, j :: 0 <= i < j < |s| ==> s[i] != s[j]
      decreases rest
    {
      var x := Pick(rest);
      InsertAscending(x, s, IntLe);
      InsertNew(x, s);
      s := Insert(x, s, IntLe);
      rest := rest - {x};
    }
  }

  lemma {:induction false} InsertNew(x: int, s: seq<int>)
    requires x !in s && forall i, j :: 0 <= i < j < |s| ==> s[i] != s[j]
    ensures var r := Insert(x, s, IntLe);
      && (forall y :: y in r <==> y == x || y in s)
      && forall i, j :: 0 <= i < j < |r| ==> r[i] != r[j]
  {
    if s != [] && x > s[0] {
      InsertNew(x, s[1..]);
      var t := Insert(x, s[1..], IntLe);
      assert forall y :: y in s <==> y == s[0] || y in s[1..];
      assert s[0] !in s[1..] && s[0] !in t;
      assert Insert(x, s, IntLe) == [s[0]] + t;
      assert forall j :: 0 <= j < |t| ==> t[j] in t;
    }
  }

  /** The ranges are the maximal stretches of the given sectors. */
  ghost predicate ExactlySectors(ranges: seq<Range>, keys: set<int>) {
    && Separated(ranges)
    && forall at :: CoveredBy(ranges, at) <==> at / SECTOR_SIZE in keys
  }

  ghost predicate CoversSectors(ranges: seq<Range>, sectors: seq<int>) {
    forall at :: CoveredBy(ranges, at) <==> at / SECTOR_SIZE in sectors
  }

  lemma CollapseStep(ranges: seq<Range>, s: seq<int>, k: nat)
    requires k < |s| && CoversSectors(ranges, s[..k])
    requires StartsBefore(ranges, s[k] * SECTOR_SIZE)
    ensures CoversSectors(Merge(ranges, Range(s[k] * SECTOR_SIZE, SECTOR_SIZE)), s[..k + 1])
  {
    hide CoveredBy, Merge;
    var next := Range(s[k] * SECTOR_SIZE, SECTOR_SIZE);
    assert s[..k + 1] == s[..k] + [s[k]];
    forall at ensures CoveredBy(Merge(ranges, next), at) <==> at / SECTOR_SIZE in s[..k + 1] {
      MergeCovers(ranges, next, at);
      assert next.Has(at) <==> at / SECTOR_SIZE == s[k];
    }
  }

  /** Collapses contiguous metadata sectors into byte ranges. */
  method Collapse(keys: set<int>) returns (ranges: seq<Range>)
    ensures ExactlySectors(ranges, keys)
  {
    hide CoveredBy, Separated;
    var s := SortedKeys(keys);
    ranges := [];
    NothingCollapsed(s);
    for k := 0 to |s|
      invariant Separated(ranges) && CoversSectors(ranges, s[..k])
      invariant k < |s| ==> StartsBefore(ranges, s[k] * SECTOR_SIZE)
      invariant k < |s| && ranges != [] ==>
        ranges[|ranges| - 1].start + ranges[|ranges| - 1].length <= s[k] * SECTOR_SIZE
    {
      var sector := s[k];
      CollapseStep(ranges, s, k);
      MergeShape(ranges, Range(sector * SECTOR_SIZE, SECTOR_SIZE));
      if ranges != [] && ranges[|ranges| - 1].start + ranges[|ranges| - 1].length == sector * SECTOR_SIZE {
        var last := ranges[|ranges| - 1];
        ranges := ranges[|ranges| - 1 := Range(last.start, last.length + SECTOR_SIZE)];
      } else {
        ranges := ranges + [Range(sector * SECTOR_SIZE, SECTOR_SIZE)];
      }
    }
    assert s[..|s|] == s;
  }

  lemma NothingCollapsed(s: seq<int>)
    ensures Separated([]) && CoversSectors([], s[..0])
  {
    assert s[..0] == [];
  }

  // Counting.

  function TotalLength(pieces: seq<Range>): int {
    if pieces == [] then 0 else TotalLength(pieces[..|pieces| - 1]) + pieces[|pieces| - 1].length
  }

  /** The bytes from `low` on and below `high` that the ranges cover. */
  function CoveredBytes(pieces: seq<Range>, low: int, high: int): set<int> {
    set at: int | low <= at < high && CoveredBy(pieces, at)
  }

  /** The last piece adds its length to the count. */
  lemma CountLastPiece(pieces: seq<Range>, low: int, high: int)
    requires Bounded(pieces) && pieces != []
    requires low <= pieces[|pieces| - 1].start && pieces[|pieces| - 1].start + pieces[|pieces| - 1].length <= high
    ensures |CoveredBytes(pieces, low, high)|
      == |CoveredBytes(pieces[..|pieces| - 1], low, high)| + pieces[|pieces| - 1].length
  {
    var last := pieces[|pieces| - 1];
    var init := pieces[..|pieces| - 1];
    var all, before, own := CoveredBytes(pieces, low, high), CoveredBytes(init, low, high),
      Interval(last.start, last.start + last.length);
    PieceLength(pieces);
    hide Bounded, CoveredBy;
    IntervalSize(last.start, last.start + last.length);
    assert pieces == init + [last];
    forall at: int ensures at in all <==> at in before || at in own {
      CoveredAppend(init, [last], at);
      CoveredOne(last, at);
    }
    forall at: int | at in before ensures at !in own {
      EarlierPiece(pieces, at);
    }
    UnionSize(all, before, own);
  }

  lemma PieceLength(pieces: seq<Range>)
    requires Bounded(pieces) && pieces != []
    ensures pieces[|pieces| - 1].length >= 1
  {
  }

  lemma EarlierPiece(pieces: seq<Range>, at: int)
    requires Bounded(pieces) && pieces != [] && CoveredBy(pieces[..|pieces| - 1], at)
    ensures !pieces[|pieces| - 1].Has(at)
  {
    var i :| 0 <= i < |pieces| - 1 && pieces[..|pieces| - 1][i].Has(at);
    assert pieces[i].start + pieces[i].length <= pieces[|pieces| - 1].start;
  }

  /** The summed length of disjoint pieces is the number of distinct bytes in them. */
  lemma {:induction false} TotalLengthCounts(pieces: seq<Range>, low: int, high: int)
    requires Bounded(pieces)
    requires forall i :: 0 <= i < |pieces| ==> low <= pieces[i].start && pieces[i].start + pieces[i].length <= high
    ensures |CoveredBytes(pieces, low, high)| == TotalLength(pieces)
  {
    hide CoveredBytes, Bounded;
    if pieces == [] {
      NoBytes(low, high);
    } else {
      var init := pieces[..|pieces| - 1];
      BoundedInit(pieces);
      TotalLengthCounts(init, low, high);
      CountLastPiece(pieces, low, high);
    }
  }

  lemma NoBytes(low: int, high: int)
    ensures |CoveredBytes([], low, high)| == 0
  {
    assert CoveredBytes([], low, high) == {};
  }

  lemma BoundedInit(pieces: seq<Range>)
    requires Bounded(pieces) && pieces != []
    ensures Bounded(pieces[..|pieces| - 1])
  {
  }

  predicate WithinBounds(ranges: seq<Range>, low: int, high: int) {
    forall i :: 0 <= i < |ranges| && ranges[i].length > 0 ==>
      low <= ranges[i].start && ranges[i].start + ranges[i].length <= high
  }

  lemma CoverWithin(ranges: seq<Range>, low: int, high: int, at: int)
    requires WithinBounds(ranges, low, high) && CoveredBy(ranges, at)
    ensures low <= at < high
  {
    var i :| 0 <= i < |ranges| && ranges[i].Has(at);
  }

  lemma PiecesWithin(ranges: seq<Range>, pieces: seq<Range>, low: int, high: int)
    requires SameCover(pieces, ranges) && WithinBounds(ranges, low, high)
    ensures WithinBounds(pieces, low, high)
  {
    forall i | 0 <= i < |pieces| && pieces[i].length > 0
      ensures low <= pieces[i].start && pieces[i].start + pieces[i].length <= high
    {
      assert pieces[i].Has(pieces[i].start) && pieces[i].Has(pieces[i].start + pieces[i].length - 1);
      hide CoveredBy;
      CoveredAt(pieces, i, pieces[i].start);
      CoveredAt(pieces, i, pieces[i].start + pieces[i].length - 1);
      CoverWithin(ranges, low, high, pieces[i].start);
      CoverWithin(ranges, low, high, pieces[i].start + pieces[i].length - 1);
    }
  }

  lemma CoveredAt(ranges: seq<Range>, i: nat, at: int)
    requires i < |ranges| && ranges[i].Has(at)
    ensures CoveredBy(ranges, at)
  {
  }

  /** The summed length of the pieces that are read ahead is the number of distinct bytes in the selected ranges,
      in whatever order they come and however they overlap. */
  lemma DistinctBytesCount(ranges: seq<Range>, pieces: seq<Range>, low: int, high: int)
    requires Bounded(pieces) && SameCover(pieces, ranges) && WithinBounds(ranges, low, high)
    ensures |CoveredBytes(ranges, low, high)| == TotalLength(pieces)
  {
    PiecesWithin(ranges, pieces, low, high);
    PositivePieces(pieces);
    TotalLengthCounts(pieces, low, high);
    hide CoveredBy, TotalLength, Bounded;
    SameSize(CoveredBytes(ranges, low, high), CoveredBytes(pieces, low, high));
  }

  lemma PositivePieces(pieces: seq<Range>)
    requires Bounded(pieces)
    ensures forall i :: 0 <= i < |pieces| ==> pieces[i].length > 0
  {
  }
}
