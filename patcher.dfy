/**
 * `applyPatches`: a copy of the patch list is sorted by descending start
 * (JavaScript's sort is stable, so equal starts keep their input order) and
 * the splices are folded over the source from the end towards the beginning.
 */
module Patcher {
  import opened JsString
  import opened Types

  /** Non-increasing starts: the order the applier folds in. */
  predicate SortedDesc(ps: seq<Patch>) {
    forall i, j | 0 <= i < j < |ps| :: ps[i].start >= ps[j].start
  }

  /** Inserts `p` before the first entry whose start is not greater, so it precedes the equal starts that follow it in the input. */
  function Insert(p: Patch, sorted: seq<Patch>): seq<Patch> {
    if sorted == [] || sorted[0].start <= p.start then [p] + sorted
    else [sorted[0]] + Insert(p, sorted[1..])
  }

  /** Insertion adds exactly `p`. */
  lemma {:induction false} InsertMultiset(p: Patch, sorted: seq<Patch>)
    ensures multiset(Insert(p, sorted)) == multiset(sorted) + multiset{p}
  {
    if !(sorted == [] || sorted[0].start <= p.start) {
      InsertMultiset(p, sorted[1..]);
      assert sorted == [sorted[0]] + sorted[1..];
    }
  }

  /** Insertion keeps an upper bound every entry and `p` respect. */
  lemma {:induction false} InsertBounded(p: Patch, sorted: seq<Patch>, bound: nat)
    requires p.start <= bound
    requires forall q | q in sorted :: q.start <= bound
    ensures forall q | q in Insert(p, sorted) :: q.start <= bound
  {
    if !(sorted == [] || sorted[0].start <= p.start) {
      InsertBounded(p, sorted[1..], bound);
    }
  }

  /** Insertion keeps the list in non-increasing start order. */
  lemma {:induction false} InsertSorted(p: Patch, sorted: seq<Patch>)
    requires SortedDesc(sorted)
    ensures SortedDesc(Insert(p, sorted))
  {
    if !(sorted == [] || sorted[0].start <= p.start) {
      var head := sorted[0];
      var tail := Insert(p, sorted[1..]);
      InsertSorted(p, sorted[1..]);
      forall q | q in sorted[1..] ensures q.start <= head.start {
        var k :| 0 <= k < |sorted[1..]| && sorted[1..][k] == q;
        assert q == sorted[k + 1];
      }
      InsertBounded(p, sorted[1..], head.start);
      var r := [head] + tail;
      forall i, j | 0 <= i < j < |r| ensures r[i].start >= r[j].start {
        assert r[j] == tail[j - 1];
        if i > 0 {
          assert r[i] == tail[i - 1];
        } else {
          assert r[j] in tail;
        }
      }
    }
  }

  /** `[...patches].sort((a, b) => b.start - a.start)`: a stable sort by descending start. */
  function SortDesc(ps: seq<Patch>): (r: seq<Patch>)
    ensures SortedDesc(r)
    ensures multiset(r) == multiset(ps)
  {
    if ps == [] then []
    else
      var rest := SortDesc(ps[1..]);
      InsertSorted(ps[0], rest);
      InsertMultiset(ps[0], rest);
      assert ps == [ps[0]] + ps[1..];
      Insert(ps[0], rest)
  }

  /** One step of the fold: `acc.slice(0, p.start) + p.text + acc.slice(p.end)`. */
  function ApplyPatch(acc: string, p: Patch): string {
    Slice(acc, 0, p.start) + p.text + SliceFrom(acc, p.end)
  }

  /** `reduce` over an already ordered list. */
  function Fold(acc: string, ps: seq<Patch>): string
    decreases |ps|
  {
    if ps == [] then acc else Fold(ApplyPatch(acc, ps[0]), ps[1..])
  }

  function ApplyPatches(source: string, patches: seq<Patch>): string {
    Fold(source, SortDesc(patches))
  }

  // ---------------------------------------------------------------------------
  // Ordering

  /** The patches of one start, in list order. */
  function AtStart(ps: seq<Patch>, start: nat): seq<Patch> {
    if ps == [] then []
    else (if ps[0].start == start then [ps[0]] else []) + AtStart(ps[1..], start)
  }

  lemma {:induction false} AtStartInsert(p: Patch, sorted: seq<Patch>, start: nat)
    ensures AtStart(Insert(p, sorted), start)
         == (if p.start == start then [p] else []) + AtStart(sorted, start)
  {
    var mine := if p.start == start then [p] else [];
    if sorted == [] || sorted[0].start <= p.start {
      var r := [p] + sorted;
      assert r[0] == p && r[1..] == sorted;
    } else {
      var head := sorted[0];
      var tail := Insert(p, sorted[1..]);
      var r := [head] + tail;
      var theirs := if head.start == start then [head] else [];
      assert r[0] == head && r[1..] == tail;
      AtStartInsert(p, sorted[1..], start);
      assert AtStart(r, start) == theirs + (mine + AtStart(sorted[1..], start));
      assert AtStart(sorted, start) == theirs + AtStart(sorted[1..], start);
      assert theirs == [] || mine == [];
    }
  }

  /** The sort is stable: patches with equal starts keep their relative order. */
  lemma {:induction false} SortDescStable(ps: seq<Patch>, start: nat)
    ensures AtStart(SortDesc(ps), start) == AtStart(ps, start)
  {
    if ps != [] {
      SortDescStable(ps[1..], start);
      AtStartInsert(ps[0], SortDesc(ps[1..]), start);
    }
  }

  /** No two patches share a start. */
  predicate DistinctStarts(ps: seq<Patch>) {
    forall i, j | 0 <= i < j < |ps| :: ps[i].start != ps[j].start
  }

  predicate StrictlyDesc(ps: seq<Patch>) {
    forall i, j | 0 <= i < j < |ps| :: ps[i].start > ps[j].start
  }

  lemma {:induction false} SortDescStrict(ps: seq<Patch>)
    requires DistinctStarts(ps)
    ensures StrictlyDesc(SortDesc(ps))
  {
    if ps != [] {
      SortDescStrict(ps[1..]);
      var rest := SortDesc(ps[1..]);
      var r := SortDesc(ps);
      forall q | q in rest ensures q.start != ps[0].start {
        assert q in multiset(ps[1..]);
        var k :| 0 <= k < |ps[1..]| && ps[1..][k] == q;
      }
      InsertStrict(ps[0], rest);
    }
  }

  /** Insertion keeps a strict upper bound every entry and `p` respect. */
  lemma {:induction false} InsertBelow(p: Patch, sorted: seq<Patch>, bound: nat)
    requires p.start < bound
    requires forall q | q in sorted :: q.start < bound
    ensures forall q | q in Insert(p, sorted) :: q.start < bound
  {
    if !(sorted == [] || sorted[0].start <= p.start) {
      InsertBelow(p, sorted[1..], bound);
    }
  }

  /** A strictly sorted list stays strictly sorted under a head above all its entries. */
  lemma ConsStrict(head: Patch, tail: seq<Patch>)
    requires StrictlyDesc(tail)
    requires forall q | q in tail :: q.start < head.start
    ensures StrictlyDesc([head] + tail)
  {
    var r := [head] + tail;
    forall i, j | 0 <= i < j < |r| ensures r[i].start > r[j].start {
      assert r[j] == tail[j - 1];
      if i > 0 {
        assert r[i] == tail[i - 1];
      } else {
        assert r[j] in tail;
      }
    }
  }

  lemma {:induction false} InsertStrict(p: Patch, sorted: seq<Patch>)
    requires StrictlyDesc(sorted)
    requires forall q | q in sorted :: q.start != p.start
    ensures StrictlyDesc(Insert(p, sorted))
  {
    if sorted == [] || sorted[0].start <= p.start {
      forall q | q in sorted ensures q.start < p.start {
        var k :| 0 <= k < |sorted| && sorted[k] == q;
        assert sorted[0] in sorted;
        assert k == 0 || sorted[0].start > sorted[k].start;
      }
      ConsStrict(p, sorted);
    } else {
      var head := sorted[0];
      forall q | q in sorted[1..] ensures q.start < head.start && q.start != p.start {
        var k :| 0 <= k < |sorted[1..]| && sorted[1..][k] == q;
        assert q == sorted[k + 1];
      }
      InsertStrict(p, sorted[1..]);
      InsertBelow(p, sorted[1..], head.start);
      ConsStrict(head, Insert(p, sorted[1..]));
    }
  }

  /** In two strictly sorted lists holding the same patches, the first entries agree. */
  lemma HeadsAgree(a: seq<Patch>, b: seq<Patch>)
    requires StrictlyDesc(a) && StrictlyDesc(b)
    requires a != [] && b != []
    requires a[0] in b && b[0] in a
    ensures a[0] == b[0]
  {
    var i :| 0 <= i < |b| && b[i] == a[0];
    var j :| 0 <= j < |a| && a[j] == b[0];
  }

  /** Two lists sorted strictly by start that hold the same patches are the same list. */
  lemma {:induction false} StrictlyDescUnique(a: seq<Patch>, b: seq<Patch>)
    requires StrictlyDesc(a) && StrictlyDesc(b)
    requires multiset(a) == multiset(b)
    ensures a == b
    decreases |a|
  {
    if a == [] {
      assert |multiset(b)| == 0;
    } else {
      assert a[0] in multiset(b);
      assert b[0] in multiset(a);
      HeadsAgree(a, b);
      assert a == [a[0]] + a[1..];
      assert b == [b[0]] + b[1..];
      assert multiset(a[1..]) == multiset(b[1..]) by {
        assert multiset(a[1..]) == multiset(a) - multiset{a[0]};
        assert multiset(b[1..]) == multiset(b) - multiset{b[0]};
      }
      StrictlyDescUnique(a[1..], b[1..]);
    }
  }

  /** With distinct starts the result does not depend on the order of the input list. */
  lemma ApplyPatchesOrderIndependent(source: string, ps: seq<Patch>, qs: seq<Patch>)
    requires multiset(ps) == multiset(qs)
    requires DistinctStarts(ps) && DistinctStarts(qs)
    ensures ApplyPatches(source, ps) == ApplyPatches(source, qs)
  {
    SortDescStrict(ps);
    SortDescStrict(qs);
    StrictlyDescUnique(SortDesc(ps), SortDesc(qs));
  }

  // ---------------------------------------------------------------------------
  // Offset safety

  /**
   * Each span ends no later than the start of the span before it and within
   * `n`: the shape of a non-overlapping list in descending order.
   */
  predicate Chained(d: seq<Patch>, n: nat) {
    d == [] || (d[0].start <= d[0].end <= n && Chained(d[1..], d[0].start))
  }

  lemma {:induction false} ChainedWeaken(d: seq<Patch>, n: nat, m: nat)
    requires Chained(d, n) && n <= m
    ensures Chained(d, m)
  {
  }

  /**
   * The reference meaning of a descending non-overlapping list: each span of
   * `s` is replaced by its text and every character outside the spans is kept,
   * in order.
   */
  function Spliced(s: string, d: seq<Patch>): string
    requires Chained(d, |s|)
    decreases |d|
  {
    if d == [] then s
    else Spliced(s[..d[0].start], d[1..]) + d[0].text + s[d[0].end..]
  }

  /** Splices that lie entirely in `x` do not see what follows `x`. */
  lemma {:induction false} FoldAppend(x: string, y: string, d: seq<Patch>)
    requires Chained(d, |x|)
    ensures Fold(x + y, d) == Fold(x, d) + y
    decreases |d|
  {
    if d != [] {
      var p := d[0];
      assert (x + y)[..p.start] == x[..p.start];
      assert (x + y)[p.end..] == x[p.end..] + y;
      var x' := ApplyPatch(x, p);
      assert ApplyPatch(x + y, p) == x' + y;
      ChainedWeaken(d[1..], p.start, |x'|);
      FoldAppend(x', y, d[1..]);
    }
  }

  lemma {:induction false} FoldIsSpliced(s: string, d: seq<Patch>)
    requires Chained(d, |s|)
    ensures Fold(s, d) == Spliced(s, d)
    decreases |d|
  {
    if d != [] {
      var p := d[0];
      assert ApplyPatch(s, p) == s[..p.start] + (p.text + s[p.end..]);
      FoldAppend(s[..p.start], p.text + s[p.end..], d[1..]);
      FoldIsSpliced(s[..p.start], d[1..]);
    }
  }

  /** Pairwise non-overlapping spans with distinct starts, all within a text of length `n`. */
  predicate Disjoint(ps: seq<Patch>, n: nat) {
    DistinctStarts(ps)
    && (forall p | p in ps :: p.start <= p.end <= n)
    && (forall p, q | p in ps && q in ps && p.start < q.start :: p.end <= q.start)
  }

  lemma {:induction false} StrictlyDescChained(d: seq<Patch>, n: nat)
    requires StrictlyDesc(d)
    requires forall p | p in d :: p.start <= p.end <= n
    requires forall p, q | p in d && q in d && p.start < q.start :: p.end <= q.start
    ensures Chained(d, n)
  {
    if d != [] {
      forall p | p in d[1..] ensures p.start <= p.end <= d[0].start {
        var k :| 0 <= k < |d[1..]| && d[1..][k] == p;
        assert d[k + 1] == p;
      }
      StrictlyDescChained(d[1..], d[0].start);
    }
  }

  /** Sorting a disjoint list gives the chained shape `Spliced` describes. */
  lemma SortDescChained(ps: seq<Patch>, n: nat)
    requires Disjoint(ps, n)
    ensures Chained(SortDesc(ps), n)
  {
    var d := SortDesc(ps);
    SortDescStrict(ps);
    forall p | p in d ensures p in ps {
      assert p in multiset(d);
    }
    StrictlyDescChained(d, n);
  }

  /** For disjoint in-range patches each span is replaced by its text and the rest of the source is kept in order. */
  lemma ApplyPatchesSpliced(source: string, ps: seq<Patch>)
    requires Disjoint(ps, |source|)
    ensures Chained(SortDesc(ps), |source|)
    ensures ApplyPatches(source, ps) == Spliced(source, SortDesc(ps))
  {
    SortDescChained(ps, |source|);
    FoldIsSpliced(source, SortDesc(ps));
  }

  /** The length change of a list of patches: the sum of `|text| - (end - start)`. */
  function Delta(ps: seq<Patch>): int {
    if ps == [] then 0 else |ps[0].text| - (ps[0].end - ps[0].start) + Delta(ps[1..])
  }

  lemma {:induction false} DeltaInsert(p: Patch, sorted: seq<Patch>)
    requires SortedDesc(sorted)
    ensures Delta(Insert(p, sorted)) == Delta([p]) + Delta(sorted)
  {
    if !(sorted == [] || sorted[0].start <= p.start) {
      DeltaInsert(p, sorted[1..]);
      assert ([sorted[0]] + Insert(p, sorted[1..]))[1..] == Insert(p, sorted[1..]);
    } else {
      assert ([p] + sorted)[1..] == sorted;
    }
  }

  lemma {:induction false} DeltaSortDesc(ps: seq<Patch>)
    ensures Delta(SortDesc(ps)) == Delta(ps)
  {
    if ps != [] {
      DeltaSortDesc(ps[1..]);
      DeltaInsert(ps[0], SortDesc(ps[1..]));
    }
  }

  lemma {:induction false} SplicedLength(s: string, d: seq<Patch>)
    requires Chained(d, |s|)
    ensures |Spliced(s, d)| == |s| + Delta(d)
    decreases |d|
  {
    if d != [] {
      SplicedLength(s[..d[0].start], d[1..]);
    }
  }

  /** For disjoint in-range patches the result is `|source| + Σ(|text| − (end − start))` long. */
  lemma ApplyPatchesLength(source: string, ps: seq<Patch>)
    requires Disjoint(ps, |source|)
    ensures |ApplyPatches(source, ps)| == |source| + Delta(ps)
  {
    ApplyPatchesSpliced(source, ps);
    SplicedLength(source, SortDesc(ps));
    DeltaSortDesc(ps);
  }

  /** The text after the last span end `e` survives at the end of the result. */
  lemma {:induction false} SplicedKeepsSuffix(s: string, d: seq<Patch>, e: nat)
    requires Chained(d, e) && e <= |s|
    ensures Chained(d, |s|)
    ensures |Spliced(s, d)| >= |s| - e
    ensures Spliced(s, d)[|Spliced(s, d)| - (|s| - e)..] == s[e..]
  {
    ChainedWeaken(d, e, |s|);
    if d != [] {
      ChainedWeaken(d[1..], d[0].start, |s[..d[0].start]|);
      assert s[d[0].end..] == s[d[0].end..e] + s[e..];
    }
  }

  /** Patches that all start at or after `k` leave the first `k` characters alone, overlapping or not. */
  lemma {:induction false} FoldKeepsPrefix(acc: string, d: seq<Patch>, k: nat)
    requires k <= |acc|
    requires forall p | p in d :: k <= p.start
    ensures |Fold(acc, d)| >= k && Fold(acc, d)[..k] == acc[..k]
    decreases |d|
  {
    if d != [] {
      var next := ApplyPatch(acc, d[0]);
      var head := Slice(acc, 0, d[0].start);
      assert |head| >= k && head[..k] == acc[..k];
      assert next[..k] == head[..k];
      FoldKeepsPrefix(next, d[1..], k);
    }
  }

  lemma ApplyPatchesKeepsPrefix(source: string, ps: seq<Patch>, k: nat)
    requires k <= |source|
    requires forall p | p in ps :: k <= p.start
    ensures |ApplyPatches(source, ps)| >= k && ApplyPatches(source, ps)[..k] == source[..k]
  {
    forall p | p in SortDesc(ps) ensures k <= p.start {
      assert p in multiset(SortDesc(ps));
    }
    FoldKeepsPrefix(source, SortDesc(ps), k);
  }

  lemma ApplyPatchesEmpty(source: string)
    ensures ApplyPatches(source, []) == source
  {
  }

  /** One in-range patch gives `source[..start] + text + source[end..]`. */
  lemma ApplyPatchesSingle(source: string, p: Patch)
    requires p.start <= p.end <= |source|
    ensures ApplyPatches(source, [p]) == source[..p.start] + p.text + source[p.end..]
  {
    assert SortDesc([p]) == [p];
    assert Fold(source, [p]) == ApplyPatch(source, p);
  }
}
