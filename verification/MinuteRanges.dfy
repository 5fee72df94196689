/** Half-open ranges of local wall-clock minutes: the overlap check and the subtraction of
    breaks from working hours. Minute 1440 is the next midnight. */
module MinuteRanges {
  import opened Basics
  import opened Sorting

  datatype Range = Range(start: int, end: int) {
    predicate Overlaps(other: Range) { start < other.end && other.start < end }
    predicate Covers(minute: int) { start <= minute < end }
  }

  predicate InDay(r: Range) { 0 <= r.start < r.end <= 1440 }

  type LocalMinuteRange = r: Range | InDay(r) witness Range(0, 1)

  /** Dataclass ordering: by start, then by end. */
  predicate Leq(a: LocalMinuteRange, b: LocalMinuteRange) {
    a.start < b.start || (a.start == b.start && a.end <= b.end)
  }

  predicate Covered(rs: seq<LocalMinuteRange>, minute: int) {
    exists r :: r in rs && r.Covers(minute)
  }

  ghost predicate PairwiseDisjoint(rs: seq<LocalMinuteRange>) {
    forall i, j :: 0 <= i < j < |rs| ==> !rs[i].Overlaps(rs[j])
  }

  /** Ascending with no overlap: each range ends before the next one starts. */
  ghost predicate Ascending(rs: seq<LocalMinuteRange>) {
    forall i, j :: 0 <= i < j < |rs| ==> rs[i].end <= rs[j].start
  }

  function Sorted(rs: seq<LocalMinuteRange>): seq<LocalMinuteRange> { Sort(Leq, rs) }

  lemma LeqIsTotal()
    ensures TotalPreorder(Leq)
  {
  }

  // ---------------------------------------------------------------------------
  // The overlap check

  /** No range of `rs` overlaps `x`. */
  ghost predicate Clear(x: LocalMinuteRange, rs: seq<LocalMinuteRange>) {
    forall r :: r in rs ==> !x.Overlaps(r)
  }

  lemma DisjointCons(x: LocalMinuteRange, rs: seq<LocalMinuteRange>)
    ensures PairwiseDisjoint([x] + rs) <==> PairwiseDisjoint(rs) && Clear(x, rs)
  {
    var all := [x] + rs;
    if PairwiseDisjoint(all) {
      forall i, j | 0 <= i < j < |rs| ensures !rs[i].Overlaps(rs[j]) {
        assert !all[i + 1].Overlaps(all[j + 1]);
      }
      forall r | r in rs ensures !x.Overlaps(r) {
        var k :| 0 <= k < |rs| && rs[k] == r;
        assert !all[0].Overlaps(all[k + 1]);
      }
    }
  }

  lemma ClearInsert(y: LocalMinuteRange, x: LocalMinuteRange, rs: seq<LocalMinuteRange>)
    ensures Clear(y, Insert(Leq, x, rs)) <==> !y.Overlaps(x) && Clear(y, rs)
  {
    InsertPermutes(Leq, x, rs);
    var inserted := Insert(Leq, x, rs);
    assert x in multiset(inserted);
    forall r ensures r in inserted <==> r == x || r in rs {
      assert r in inserted <==> r in multiset(inserted);
    }
  }

  lemma {:induction false} InsertKeepsDisjoint(x: LocalMinuteRange, rs: seq<LocalMinuteRange>)
    ensures PairwiseDisjoint(Insert(Leq, x, rs)) <==> PairwiseDisjoint(rs) && Clear(x, rs)
  {
    if rs == [] || Leq(x, rs[0]) {
      DisjointCons(x, rs);
    } else {
      var y, rest := rs[0], rs[1..];
      InsertKeepsDisjoint(x, rest);
      DisjointCons(y, Insert(Leq, x, rest));
      ClearInsert(y, x, rest);
      assert rs == [y] + rest;
      DisjointCons(y, rest);
      assert Clear(x, rs) <==> !x.Overlaps(y) && Clear(x, rest);
    }
  }

  /** Sorting neither creates nor hides an overlap. */
  lemma {:induction false} SortKeepsDisjoint(rs: seq<LocalMinuteRange>)
    ensures PairwiseDisjoint(Sorted(rs)) <==> PairwiseDisjoint(rs)
  {
    if rs != [] {
      SortKeepsDisjoint(rs[1..]);
      InsertKeepsDisjoint(rs[0], Sorted(rs[1..]));
      DisjointCons(rs[0], rs[1..]);
      SortPermutes(Leq, rs[1..]);
      assert rs == [rs[0]] + rs[1..];
    }
  }

  lemma DisjointIsAscending(rs: seq<LocalMinuteRange>)
    requires Ordered(Leq, rs)
    ensures PairwiseDisjoint(rs) <==> Ascending(rs)
  {
    if PairwiseDisjoint(rs) {
      forall i, j | 0 <= i < j < |rs| ensures rs[i].end <= rs[j].start {
        assert Leq(rs[i], rs[j]) && !rs[i].Overlaps(rs[j]);
      }
    }
  }

  /** The adjacent-pair check on the sorted list accepts exactly the lists in which no two
      ranges overlap. */
  method EnsureRangesDoNotOverlap(intervals: seq<LocalMinuteRange>) returns (accepted: bool)
    ensures accepted <==> PairwiseDisjoint(intervals)
  {
    var ordered := Sorted(intervals);
    SortKeepsDisjoint(intervals);
    LeqIsTotal();
    SortOrders(Leq, intervals);
    DisjointIsAscending(ordered);
    var k := 1;
    while k < |ordered|
      invariant 1 <= k && (k <= |ordered| || ordered == [])
      invariant k <= |ordered| ==> Ascending(ordered[..k])
    {
      if ordered[k - 1].Overlaps(ordered[k]) {
        return false;
      }
      AscendingExtends(ordered, k);
      k := k + 1;
    }
    if ordered != [] { assert ordered[..|ordered|] == ordered; }
    return true;
  }

  lemma AscendingExtends(rs: seq<LocalMinuteRange>, k: nat)
    requires 1 <= k < |rs| && Ordered(Leq, rs)
    requires Ascending(rs[..k]) && !rs[k - 1].Overlaps(rs[k])
    ensures Ascending(rs[..k + 1])
  {
    assert Leq(rs[k - 1], rs[k]);
    assert rs[..k + 1] == rs[..k] + [rs[k]];
    forall i | 0 <= i < k ensures rs[i].end <= rs[k].start {
      if i < k - 1 { assert rs[..k][i].end <= rs[..k][k - 1].start; }
    }
  }

  // ---------------------------------------------------------------------------
  // Subtraction

  /** What one exclusion leaves of one source. */
  function Cut(source: LocalMinuteRange, exclusion: LocalMinuteRange): seq<LocalMinuteRange> {
    if !source.Overlaps(exclusion) then [source]
    else
      (if source.start < exclusion.start then
         [Range(source.start, Min(source.end, exclusion.start))]
       else [])
      + (if exclusion.end < source.end then
           [Range(Max(source.start, exclusion.end), source.end)]
         else [])
  }

  function CutAll(sources: seq<LocalMinuteRange>, exclusion: LocalMinuteRange): seq<LocalMinuteRange> {
    if sources == [] then [] else Cut(sources[0], exclusion) + CutAll(sources[1..], exclusion)
  }

  function CutEach(sources: seq<LocalMinuteRange>, exclusions: seq<LocalMinuteRange>): seq<LocalMinuteRange>
    decreases exclusions
  {
    if exclusions == [] then sources else CutEach(CutAll(sources, exclusions[0]), exclusions[1..])
  }

  function Subtract(sources: seq<LocalMinuteRange>, exclusions: seq<LocalMinuteRange>): seq<LocalMinuteRange> {
    CutEach(Sorted(sources), Sorted(exclusions))
  }

  /** The inner loop: cut one exclusion out of every source in turn. */
  method CutOut(sources: seq<LocalMinuteRange>, exclusion: LocalMinuteRange)
      returns (remaining: seq<LocalMinuteRange>)
    ensures remaining == CutAll(sources, exclusion)
  {
    remaining := [];
    for j := 0 to |sources|
      invariant remaining == CutAll(sources[..j], exclusion)
    {
      var source := sources[j];
      ghost var before := remaining;
      if !source.Overlaps(exclusion) {
        remaining := remaining + [source];
      } else {
        if source.start < exclusion.start {
          remaining := remaining + [Range(source.start, Min(source.end, exclusion.start))];
        }
        if exclusion.end < source.end {
          remaining := remaining + [Range(Max(source.start, exclusion.end), source.end)];
        }
      }
      assert remaining == before + Cut(source, exclusion);
      CutAllLast(sources, exclusion, j);
    }
    assert sources[..|sources|] == sources;
  }

  method SubtractRanges(sources: seq<LocalMinuteRange>, exclusions: seq<LocalMinuteRange>)
      returns (result: seq<LocalMinuteRange>)
    ensures result == Subtract(sources, exclusions)
  {
    result := Sorted(sources);
    var ordered := Sorted(exclusions);
    for i := 0 to |ordered|
      invariant CutEach(result, ordered[i..]) == Subtract(sources, exclusions)
    {
      assert ordered[i..][1..] == ordered[i + 1..];
      result := CutOut(result, ordered[i]);
    }
  }

  lemma CutAllLast(sources: seq<LocalMinuteRange>, exclusion: LocalMinuteRange, j: nat)
    requires j < |sources|
    ensures CutAll(sources[..j + 1], exclusion) == CutAll(sources[..j], exclusion) + Cut(sources[j], exclusion)
  {
    assert sources[..j + 1] == sources[..j] + [sources[j]];
    CutAllConcat(sources[..j], [sources[j]], exclusion);
    assert [sources[j]][1..] == [];
    assert CutAll([sources[j]], exclusion) == Cut(sources[j], exclusion);
  }

  lemma CoveredConcat(xs: seq<LocalMinuteRange>, ys: seq<LocalMinuteRange>, minute: int)
    ensures Covered(xs + ys, minute) <==> Covered(xs, minute) || Covered(ys, minute)
  {
    if Covered(xs, minute) {
      var r :| r in xs && r.Covers(minute);
      assert r in xs + ys;
    }
    if Covered(ys, minute) {
      var r :| r in ys && r.Covers(minute);
      assert r in xs + ys;
    }
  }

  lemma CutCovers(source: LocalMinuteRange, exclusion: LocalMinuteRange, minute: int)
    ensures Covered(Cut(source, exclusion), minute) <==> source.Covers(minute) && !exclusion.Covers(minute)
  {
    var c := Cut(source, exclusion);
    if source.Covers(minute) && !exclusion.Covers(minute) {
      assert if minute < exclusion.start then c[0].Covers(minute) else c[|c| - 1].Covers(minute);
    }
  }

  lemma {:induction false} CutAllCovers(sources: seq<LocalMinuteRange>, exclusion: LocalMinuteRange, minute: int)
    ensures Covered(CutAll(sources, exclusion), minute) <==> Covered(sources, minute) && !exclusion.Covers(minute)
  {
    if sources != [] {
      CutAllCovers(sources[1..], exclusion, minute);
      CutCovers(sources[0], exclusion, minute);
      CoveredConcat(Cut(sources[0], exclusion), CutAll(sources[1..], exclusion), minute);
      assert sources == [sources[0]] + sources[1..];
      CoveredConcat([sources[0]], sources[1..], minute);
      assert [sources[0]][0] == sources[0];
    }
  }

  lemma {:induction false} CutEachCovers(sources: seq<LocalMinuteRange>, exclusions: seq<LocalMinuteRange>, minute: int)
    ensures Covered(CutEach(sources, exclusions), minute) <==>
            Covered(sources, minute) && !Covered(exclusions, minute)
    decreases exclusions
  {
    if exclusions != [] {
      CutAllCovers(sources, exclusions[0], minute);
      CutEachCovers(CutAll(sources, exclusions[0]), exclusions[1..], minute);
      assert exclusions == [exclusions[0]] + exclusions[1..];
      CoveredConcat([exclusions[0]], exclusions[1..], minute);
      assert [exclusions[0]][0] == exclusions[0];
    }
  }

  /** Subtraction is set difference, minute by minute, for any lists at all. */
  lemma SubtractIsDifference(sources: seq<LocalMinuteRange>, exclusions: seq<LocalMinuteRange>, minute: int)
    ensures Covered(Subtract(sources, exclusions), minute) <==>
            Covered(sources, minute) && !Covered(exclusions, minute)
  {
    CutEachCovers(Sorted(sources), Sorted(exclusions), minute);
    SortPermutes(Leq, sources);
    SortPermutes(Leq, exclusions);
  }

  // ---------------------------------------------------------------------------
  // Shape of the result

  /** Every range of `rs` lies within [lo, hi). */
  ghost predicate Within(rs: seq<LocalMinuteRange>, lo: int, hi: int) {
    forall r :: r in rs ==> lo <= r.start && r.end <= hi
  }

  lemma AscendingConcat(xs: seq<LocalMinuteRange>, ys: seq<LocalMinuteRange>, lo: int, mid: int, hi: int)
    requires Ascending(xs) && Ascending(ys) && Within(xs, lo, mid) && Within(ys, mid, hi) && lo <= mid <= hi
    ensures Ascending(xs + ys) && Within(xs + ys, lo, hi)
  {
    var all := xs + ys;
    forall i, j | 0 <= i < j < |all| ensures all[i].end <= all[j].start {
      if i < |xs| <= j {
        assert xs[i] in xs && ys[j - |xs|] in ys;
      }
    }
  }

  /** One exclusion splits at most one range of an ascending list. */
  lemma {:induction false} CutAllShape(sources: seq<LocalMinuteRange>, exclusion: LocalMinuteRange, lo: int)
    requires Ascending(sources) && 0 <= lo <= 1440 && Within(sources, lo, 1440)
    ensures Ascending(CutAll(sources, exclusion)) && Within(CutAll(sources, exclusion), lo, 1440)
    ensures |CutAll(sources, exclusion)| <= |sources| + 1
    ensures exclusion.start < lo ==> |CutAll(sources, exclusion)| <= |sources|
  {
    if sources != [] {
      var s, rest := sources[0], sources[1..];
      assert s in sources && Within([s], lo, s.end);
      forall r | r in rest ensures s.end <= r.start && r.end <= 1440 {
        assert r in sources;
      }
      CutAllShape(rest, exclusion, s.end);
      AscendingConcat(Cut(s, exclusion), CutAll(rest, exclusion), lo, s.end, 1440);
    }
  }

  lemma {:induction false} CutEachShape(sources: seq<LocalMinuteRange>, exclusions: seq<LocalMinuteRange>)
    requires Ascending(sources)
    ensures Ascending(CutEach(sources, exclusions))
    ensures |CutEach(sources, exclusions)| <= |sources| + |exclusions|
    decreases exclusions
  {
    if exclusions != [] {
      CutAllShape(sources, exclusions[0], 0);
      CutEachShape(CutAll(sources, exclusions[0]), exclusions[1..]);
    }
  }

  /** From disjoint sources, in any order and with any exclusions, subtraction yields an
      ascending disjoint list of at most |sources| + |exclusions| ranges. */
  lemma SubtractShape(sources: seq<LocalMinuteRange>, exclusions: seq<LocalMinuteRange>)
    requires PairwiseDisjoint(sources)
    ensures Ascending(Subtract(sources, exclusions))
    ensures |Subtract(sources, exclusions)| <= |sources| + |exclusions|
  {
    LeqIsTotal();
    SortOrders(Leq, sources);
    SortKeepsDisjoint(sources);
    DisjointIsAscending(Sorted(sources));
    SortPermutes(Leq, sources);
    SortPermutes(Leq, exclusions);
    CutEachShape(Sorted(sources), Sorted(exclusions));
  }

  // ---------------------------------------------------------------------------
  // The order of the exclusions

  lemma {:induction false} CutAllConcat(xs: seq<LocalMinuteRange>, ys: seq<LocalMinuteRange>, e: LocalMinuteRange)
    ensures CutAll(xs + ys, e) == CutAll(xs, e) + CutAll(ys, e)
  {
    if xs == [] {
      assert xs + ys == ys;
    } else {
      CutAllConcat(xs[1..], ys, e);
      assert (xs + ys)[1..] == xs[1..] + ys;
    }
  }

  function CutPair(s: LocalMinuteRange, a: LocalMinuteRange, b: LocalMinuteRange): seq<LocalMinuteRange> {
    CutAll(Cut(s, a), b)
  }

  lemma CutCommutes(s: LocalMinuteRange, a: LocalMinuteRange, b: LocalMinuteRange)
    ensures CutPair(s, a, b) == CutPair(s, b, a)
  {
    if Leq(a, b) {
      CutInOrder(s, a, b);
    } else {
      CutInOrder(s, b, a);
    }
  }

  lemma CutInOrder(s: LocalMinuteRange, a: LocalMinuteRange, b: LocalMinuteRange)
    requires Leq(a, b)
    ensures CutPair(s, a, b) == CutPair(s, b, a)
  {
    hide CutPair, CutAll;
    CutPairIs(s, a, b);
    CutPairIs(s, b, a);
    if !s.Overlaps(a) || !s.Overlaps(b) {
      assert CutPair(s, a, b) == CutPair(s, b, a);
    }
  }

  /** A list of at most two ranges is cut range by range. */
  lemma CutPairIs(s: LocalMinuteRange, a: LocalMinuteRange, b: LocalMinuteRange)
    ensures var c := Cut(s, a);
            && |c| <= 2
            && CutPair(s, a, b) == (if |c| >= 1 then Cut(c[0], b) else []) + (if |c| == 2 then Cut(c[1], b) else [])
  {
    var c := Cut(s, a);
    if |c| == 2 {
      assert c[1..] == [c[1]] && c[1..][1..] == [];
      assert CutAll(c[1..], b) == Cut(c[1], b);
    } else if |c| == 1 {
      assert c[1..] == [];
      assert CutAll(c, b) == Cut(c[0], b) + CutAll(c[1..], b);
    }
  }

  lemma {:induction false} CutAllCommutes(sources: seq<LocalMinuteRange>, a: LocalMinuteRange, b: LocalMinuteRange)
    ensures CutAll(CutAll(sources, a), b) == CutAll(CutAll(sources, b), a)
  {
    if sources != [] {
      var s, rest := sources[0], sources[1..];
      CutAllCommutes(rest, a, b);
      CutCommutes(s, a, b);
      CutAllConcat(Cut(s, a), CutAll(rest, a), b);
      CutAllConcat(Cut(s, b), CutAll(rest, b), a);
    }
  }

  lemma {:induction false} CutEachInsert(sources: seq<LocalMinuteRange>, x: LocalMinuteRange, es: seq<LocalMinuteRange>)
    ensures CutEach(sources, Insert(Leq, x, es)) == CutEach(CutAll(sources, x), es)
    decreases es
  {
    if es == [] || Leq(x, es[0]) {
      assert ([x] + es)[1..] == es;
    } else {
      var inner := Insert(Leq, x, es[1..]);
      assert ([es[0]] + inner)[1..] == inner;
      CutEachInsert(CutAll(sources, es[0]), x, es[1..]);
      CutAllCommutes(sources, es[0], x);
    }
  }

  /** Sorting the exclusions changes nothing. */
  lemma {:induction false} CutSorted(sources: seq<LocalMinuteRange>, exclusions: seq<LocalMinuteRange>)
    ensures CutEach(sources, Sorted(exclusions)) == CutEach(sources, exclusions)
    decreases exclusions
  {
    if exclusions != [] {
      CutEachInsert(sources, exclusions[0], Sorted(exclusions[1..]));
      CutSorted(CutAll(sources, exclusions[0]), exclusions[1..]);
    }
  }

  /** The order of the exclusions does not matter, even where they are not sorted first. */
  lemma ExclusionOrderIrrelevant(sources: seq<LocalMinuteRange>, a: seq<LocalMinuteRange>, b: seq<LocalMinuteRange>)
    requires multiset(a) == multiset(b)
    ensures CutEach(sources, a) == CutEach(sources, b)
  {
    CutSorted(sources, a);
    CutSorted(sources, b);
    SortForgetsOrder(Leq, a, b);
  }

  /** Subtraction depends on neither order. */
  lemma SubtractPermuted(s: seq<LocalMinuteRange>, t: seq<LocalMinuteRange>, a: seq<LocalMinuteRange>,
                         b: seq<LocalMinuteRange>)
    requires multiset(s) == multiset(t) && multiset(a) == multiset(b)
    ensures Subtract(s, a) == Subtract(t, b)
  {
    SortForgetsOrder(Leq, s, t);
    SortForgetsOrder(Leq, a, b);
  }
}
