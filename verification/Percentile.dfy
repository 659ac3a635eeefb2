/** The free-memory histograms of the controller's summary and the percentiles walked out of them. */
module Percentiles {
  import opened Words

  type Histogram = map<int, nat>

  datatype Gpu = Gpu(name: string, vram: Word64, vramUsed: Word64, utilization: Word32, powerDraw: Word32)

  /** The four figures that are summed. */
  datatype Metric = Vram | VramUsed | Utilization | PowerDraw

  function Figure(g: Gpu, m: Metric): Word64 {
    match m
    case Vram => g.vram
    case VramUsed => g.vramUsed
    case Utilization => g.utilization
    case PowerDraw => g.powerDraw
  }

  const GB: int := 0x4000_0000

  /** Whole free gigabytes of a GPU. The subtraction wraps when more is used than there is. */
  function FreeGb(g: Gpu): int {
    Wrap64(g.vram - g.vramUsed) / GB
  }

  function FreeGbs(gpus: seq<Gpu>): (s: seq<int>)
    ensures |s| == |gpus| && forall i :: 0 <= i < |s| ==> s[i] == FreeGb(gpus[i])
  {
    seq(|gpus|, i requires 0 <= i < |gpus| => FreeGb(gpus[i]))
  }

  /** `free` are the whole gigabytes that each GPU has and does not use, or of 2^64 bytes more when it uses more than it
      has. */
  ghost predicate AreFree(gpus: seq<Gpu>, free: seq<int>) {
    && |free| == |gpus|
    && forall i | 0 <= i < |gpus| ::
         var bytes := gpus[i].vram - gpus[i].vramUsed
                      + if gpus[i].vramUsed <= gpus[i].vram then 0 else 0x1_0000_0000_0000_0000;
         free[i] * 0x4000_0000 <= bytes < (free[i] + 1) * 0x4000_0000
  }

  lemma FreeGbIs(g: Gpu, n: int)
    ensures var bytes := g.vram - g.vramUsed + if g.vramUsed <= g.vram then 0 else 0x1_0000_0000_0000_0000;
      n * 0x4000_0000 <= bytes < (n + 1) * 0x4000_0000 <==> n == FreeGb(g)
  {
    var bytes: int := g.vram - g.vramUsed + if g.vramUsed <= g.vram then 0 else 0x1_0000_0000_0000_0000;
    assert Wrap64(g.vram - g.vramUsed) == bytes;
  }

  /** What is counted is the free memory. */
  lemma FreeGbsAre(gpus: seq<Gpu>, free: seq<int>)
    ensures AreFree(gpus, free) <==> free == FreeGbs(gpus)
  {
    hide FreeGb;
    if |free| == |gpus| {
      forall i | 0 <= i < |gpus| ensures
        var bytes := gpus[i].vram - gpus[i].vramUsed
                     + if gpus[i].vramUsed <= gpus[i].vram then 0 else 0x1_0000_0000_0000_0000;
        free[i] * 0x4000_0000 <= bytes < (free[i] + 1) * 0x4000_0000 <==> free[i] == FreeGb(gpus[i])
      {
        FreeGbIs(gpus[i], free[i]);
      }
    }
  }

  function Named(gpus: seq<Gpu>, name: string): seq<Gpu> {
    if gpus == [] then [] else
    var g := gpus[|gpus| - 1];
    Named(gpus[..|gpus| - 1], name) + if g.name == name then [g] else []
  }

  function SumOf(gpus: seq<Gpu>, m: Metric): nat {
    if gpus == [] then 0 else SumOf(gpus[..|gpus| - 1], m) + Figure(gpus[|gpus| - 1], m)
  }

  /** The count a map holds, zero when it holds none. */
  function CountOf<K>(m: map<K, nat>, k: K): nat {
    if k in m then m[k] else 0
  }

  function WordOf<K>(m: map<K, Word64>, k: K): Word64 {
    if k in m then m[k] else 0
  }

  /** `h` counts each value of `values` as often as it occurs, and has no other key. */
  ghost predicate IsHistogram(h: Histogram, values: seq<int>) {
    forall k: int :: CountOf(h, k) == multiset(values)[k] && (k in h ==> h[k] > 0)
  }

  // ----- the histogram as a sorted list -----

  function Copies(k: int, n: nat): (s: seq<int>)
    ensures |s| == n && forall i :: 0 <= i < n ==> s[i] == k
  {
    seq(n, _ => k)
  }

  /** Every key as often as it is counted, in the order of the keys. */
  function Expand(keys: seq<int>, counts: Histogram): seq<int> {
    if keys == [] then [] else
    Expand(keys[..|keys| - 1], counts) + Copies(keys[|keys| - 1], CountOf(counts, keys[|keys| - 1]))
  }

  ghost predicate Increasing(keys: seq<int>) {
    forall i, j :: 0 <= i < j < |keys| ==> keys[i] < keys[j]
  }

  ghost predicate Sorted(s: seq<int>) {
    forall i, j :: 0 <= i <= j < |s| ==> s[i] <= s[j]
  }

  /** The keys of a histogram in order. */
  ghost predicate KeysOf(keys: seq<int>, counts: Histogram) {
    Increasing(keys) && forall k :: k in keys <==> k in counts
  }

  lemma {:induction false} ExpandSorted(keys: seq<int>, counts: Histogram)
    requires Increasing(keys)
    ensures Sorted(Expand(keys, counts)) && forall x :: x in Expand(keys, counts) ==> x in keys
  {
    if keys != [] {
      var before := keys[..|keys| - 1];
      ExpandSorted(before, counts);
      var e := Expand(before, counts);
      assert forall x :: x in before ==> x in keys && x < keys[|keys| - 1];
      forall i | 0 <= i < |e| ensures e[i] < keys[|keys| - 1] {
        assert e[i] in e;
      }
      assert keys[|keys| - 1] in keys;
    }
  }

  lemma CopiesCount(k: int, n: nat, x: int)
    ensures multiset(Copies(k, n))[x] == if x == k then n else 0
  {
    if n > 0 {
      CopiesCount(k, n - 1, x);
      assert Copies(k, n) == Copies(k, n - 1) + [k];
    }
  }

  lemma {:induction false} ExpandCounts(keys: seq<int>, counts: Histogram, x: int)
    requires Increasing(keys)
    ensures multiset(Expand(keys, counts))[x] == if x in keys then CountOf(counts, x) else 0
  {
    if keys != [] {
      var before, last := keys[..|keys| - 1], keys[|keys| - 1];
      ExpandCounts(before, counts, x);
      CopiesCount(last, CountOf(counts, last), x);
      assert keys == before + [last];
      assert last !in before;
    }
  }

  /** A histogram expanded over its keys is its values sorted; its counts sum to how many values there are. */
  lemma ExpandIsSort(keys: seq<int>, counts: Histogram, values: seq<int>)
    requires KeysOf(keys, counts) && IsHistogram(counts, values)
    ensures Sorted(Expand(keys, counts)) && multiset(Expand(keys, counts)) == multiset(values)
    ensures |Expand(keys, counts)| == |values|
  {
    ExpandSorted(keys, counts);
    var e := Expand(keys, counts);
    forall x: int ensures multiset(e)[x] == multiset(values)[x] {
      ExpandCounts(keys, counts, x);
    }
    assert multiset(e) == multiset(values);
    assert |multiset(e)| == |multiset(values)|;
  }

  lemma {:induction false} ExpandPrefix(keys: seq<int>, counts: Histogram, n: nat)
    requires n <= |keys|
    ensures |Expand(keys[..n], counts)| <= |Expand(keys, counts)|
    ensures Expand(keys, counts)[..|Expand(keys[..n], counts)|] == Expand(keys[..n], counts)
  {
    if n == |keys| {
      assert keys[..n] == keys;
    } else {
      var before := keys[..|keys| - 1];
      ExpandPrefix(before, counts, n);
      assert before[..n] == keys[..n];
    }
  }

  lemma ExpandStep(keys: seq<int>, counts: Histogram, n: nat)
    requires n < |keys|
    ensures Expand(keys[..n + 1], counts) == Expand(keys[..n], counts) + Copies(keys[n], CountOf(counts, keys[n]))
  {
    assert keys[..n + 1][..n] == keys[..n];
  }

  // ----- the walk -----

  /** The value at a rank of the expanded list, `start` at rank zero. */
  function AtRank(sorted: seq<int>, start: int, rank: nat): int
    requires rank <= |sorted|
  {
    if rank == 0 then start else sorted[rank - 1]
  }

  /** Where the walk stands once it has served every rank up to `rank`. */
  ghost predicate Walking(keys: seq<int>, counts: Histogram, start: int, rank: nat, index: nat, keysIndex: nat,
                          key: int) {
    && keysIndex <= |keys| && index == |Expand(keys[..keysIndex], counts)|
    && (keysIndex == 0 ==> key == start)
    && (keysIndex > 0 ==> key == keys[keysIndex - 1] && |Expand(keys[..keysIndex - 1], counts)| < rank)
  }

  lemma WalkingAtRank(keys: seq<int>, counts: Histogram, start: int, rank: nat, index: nat, keysIndex: nat, key: int)
    requires Walking(keys, counts, start, rank, index, keysIndex, key) && rank <= index
    ensures rank <= |Expand(keys, counts)| && key == AtRank(Expand(keys, counts), start, rank)
  {
    ExpandPrefix(keys, counts, keysIndex);
    if keysIndex > 0 {
      ExpandStep(keys, counts, keysIndex - 1);
      assert Expand(keys, counts)[rank - 1] == Expand(keys, counts)[..index][rank - 1];
    }
  }

  /** Walk on to a rank no lower than the last one. */
  method Advance(keys: seq<int>, counts: Histogram, index: nat, keysIndex: nat, key: int, rank: nat,
                 ghost start: int, ghost last: nat)
    returns (index': nat, keysIndex': nat, key': int)
    requires Walking(keys, counts, start, last, index, keysIndex, key)
    requires last <= rank <= |Expand(keys, counts)|
    ensures Walking(keys, counts, start, rank, index', keysIndex', key')
    ensures key' == AtRank(Expand(keys, counts), start, rank)
  {
    index', keysIndex', key' := index, keysIndex, key;
    while keysIndex' < |keys| && index' < rank
      invariant Walking(keys, counts, start, rank, index', keysIndex', key')
    {
      ExpandStep(keys, counts, keysIndex');
      key' := keys[keysIndex'];
      index' := index' + CountOf(counts, key');
      keysIndex' := keysIndex' + 1;
    }
    assert keysIndex' == |keys| ==> keys[..keysIndex'] == keys;
    WalkingAtRank(keys, counts, start, rank, index', keysIndex', key');
  }

  datatype Percentile = Percentile(p100: int, p90: int, p75: int, p50: int, p25: int, p10: int)

  /** The ranks of the five percentiles below 100 in a list of some length. */
  datatype Ranks = Ranks(r90: nat, r75: nat, r50: nat, r25: nat, r10: nat)

  predicate RanksFit(r: Ranks, total: nat) {
    r.r10 <= r.r25 <= r.r50 <= r.r75 <= r.r90 <= total
  }

  function Max(a: nat, b: nat): (m: nat)
    ensures m >= a && m >= b && (m == a || m == b)
  {
    if a < b then b else a
  }

  /** `p` holds the largest of `values` and those at the ranks `r` of them sorted, rank zero read as one. */
  ghost predicate AreRanked(p: Percentile, values: seq<int>, r: Ranks)
    requires RanksFit(r, |values|)
  {
    exists s: seq<int> :: Sorted(s) && |s| == |values| > 0 && multiset(s) == multiset(values) && AtRanks(p, s, r)
  }

  /** The percentiles a walk that starts from `start` finds. */
  predicate AtRanksFrom(p: Percentile, s: seq<int>, start: int, r: Ranks)
    requires RanksFit(r, |s|) && s != []
  {
    && p.p100 == s[|s| - 1]
    && p.p90 == AtRank(s, start, r.r90) && p.p75 == AtRank(s, start, r.r75) && p.p50 == AtRank(s, start, r.r50)
    && p.p25 == AtRank(s, start, r.r25) && p.p10 == AtRank(s, start, r.r10)
  }

  /** What a walk from zero finds: a percentile of rank zero is zero, whatever the values are. */
  ghost predicate AreRankedFromZero(p: Percentile, values: seq<int>, r: Ranks)
    requires RanksFit(r, |values|)
  {
    exists s: seq<int> :: Sorted(s) && |s| == |values| > 0 && multiset(s) == multiset(values) && AtRanksFrom(p, s, 0, r)
  }

  predicate AtRanks(p: Percentile, s: seq<int>, r: Ranks)
    requires RanksFit(r, |s|) && s != []
  {
    && p.p100 == s[|s| - 1]
    && p.p90 == s[Max(r.r90, 1) - 1] && p.p75 == s[Max(r.r75, 1) - 1] && p.p50 == s[Max(r.r50, 1) - 1]
    && p.p25 == s[Max(r.r25, 1) - 1] && p.p10 == s[Max(r.r10, 1) - 1]
  }

  function Insert(keys: seq<int>, k: int): seq<int> {
    if keys == [] || keys[|keys| - 1] < k then keys + [k]
    else Insert(keys[..|keys| - 1], k) + [keys[|keys| - 1]]
  }

  /** Ordered numbers with a greater one behind them. */
  lemma IncreasingAppend(s: seq<int>, last: int)
    requires Increasing(s) && forall x :: x in s ==> x < last
    ensures Increasing(s + [last])
  {
    forall i | 0 <= i < |s| ensures s[i] < last {
      assert s[i] in s;
    }
  }

  lemma {:induction false} InsertSorts(keys: seq<int>, k: int)
    requires Increasing(keys) && k !in keys
    ensures Increasing(Insert(keys, k)) && forall x :: x in Insert(keys, k) <==> x in keys || x == k
  {
    if keys != [] && keys[|keys| - 1] >= k {
      var before, last := keys[..|keys| - 1], keys[|keys| - 1];
      assert keys == before + [last] && last in keys;
      InsertSorts(before, k);
      assert forall x :: x in before ==> x < last;
      hide Increasing;
      IncreasingAppend(Insert(before, k), last);
    } else {
      forall x | x in keys ensures x < k {
        var i :| 0 <= i < |keys| && keys[i] == x;
      }
      IncreasingAppend(keys, k);
    }
  }

  method Pick<T(==)>(rest: set<T>) returns (k: T)
    requires rest != {}
    ensures k in rest
  {
    k :| k in rest;
  }

  /** The keys collected in any order and sorted. */
  method SortedKeys(counts: Histogram) returns (keys: seq<int>)
    ensures KeysOf(keys, counts)
  {
    keys := [];
    var rest := counts.Keys;
    while rest != {}
      invariant rest <= counts.Keys && Increasing(keys)
      invariant forall k :: k in keys <==> k in counts && k !in rest
      decreases rest
    {
      var k := Pick(rest);
      InsertSorts(keys, k);
      keys := Insert(keys, k);
      rest := rest - {k};
    }
  }

  lemma SomeKey<K, V>(counts: map<K, V>) returns (k: K)
    requires counts != map[]
    ensures k in counts
  {
    assert counts.Keys != {};
    k :| k in counts.Keys;
  }

  lemma ExpandNonEmpty(keys: seq<int>, counts: Histogram, values: seq<int>)
    requires KeysOf(keys, counts) && IsHistogram(counts, values) && counts != map[]
    ensures keys != [] && values != [] && Expand(keys, counts) != []
    ensures Expand(keys, counts)[0] == keys[0]
    ensures Expand(keys, counts)[|Expand(keys, counts)| - 1] == keys[|keys| - 1]
  {
    var k := SomeKey(counts);
    assert k in keys && keys[0] in keys && keys[|keys| - 1] in keys;
    var e := Expand(keys, counts);
    ExpandIsSort(keys, counts, values);
    ExpandPrefix(keys, counts, 1);
    ExpandStep(keys, counts, 0);
    assert e[..CountOf(counts, keys[0])] == Copies(keys[0], CountOf(counts, keys[0]));
    assert e[0] == e[..CountOf(counts, keys[0])][0];
    forall y | y in values ensures keys[0] <= y && y in keys {
      assert multiset(values)[y] > 0;
      assert y in counts;
    }
    assert multiset(values)[keys[0]] > 0;
  }

  lemma EmptyExpand(counts: Histogram)
    ensures Expand([], counts) == []
  {
  }

  lemma NoKeysNoValues(counts: Histogram, values: seq<int>)
    requires IsHistogram(counts, values)
    ensures counts == map[] <==> values == []
  {
    if counts != map[] {
      var k := SomeKey(counts);
      assert CountOf(counts, k) == multiset(values)[k];
    }
    if values != [] {
      assert CountOf(counts, values[0]) == multiset(values)[values[0]];
    }
  }

  method CalculatePercentiles(counts: Histogram, r: Ranks, ghost values: seq<int>) returns (p: Percentile)
    requires IsHistogram(counts, values) && RanksFit(r, |values|)
    ensures if values == [] then p == Percentile(0, 0, 0, 0, 0, 0) else AreRanked(p, values, r)
  {
    NoKeysNoValues(counts, values);
    if |counts| == 0 {
      return Percentile(0, 0, 0, 0, 0, 0);
    }
    var keys := SortedKeys(counts);
    ExpandIsSort(keys, counts, values);
    ExpandNonEmpty(keys, counts, values);
    RanksFromStart(Expand(keys, counts), r);
    hide IsHistogram, KeysOf, Expand, Sorted, AtRank, Max;
    p := WalkAll(keys, counts, r, keys[0]);
  }

  /** The walk of the in-memory driver, which starts from zero. None is the panic of taking the last of no keys. */
  method CalculateFromZero(counts: Histogram, r: Ranks, ghost values: seq<int>) returns (p: Option<Percentile>)
    requires IsHistogram(counts, values) && RanksFit(r, |values|)
    ensures if values == [] then p == None else p.Some? && AreRankedFromZero(p.value, values, r)
  {
    NoKeysNoValues(counts, values);
    var keys := SortedKeys(counts);
    ExpandIsSort(keys, counts, values);
    if |keys| == 0 {
      EmptyExpand(counts);
      return None;
    }
    assert keys[0] in keys && keys[0] in counts;
    ExpandNonEmpty(keys, counts, values);
    hide IsHistogram, KeysOf, Expand, Sorted, AtRanksFrom;
    var found := WalkAll(keys, counts, r, 0);
    p := Some(found);
  }

  lemma RanksFromStart(e: seq<int>, r: Ranks)
    requires e != [] && RanksFit(r, |e|)
    ensures forall p :: AtRanks(p, e, r) <==> AtRanksFrom(p, e, e[0], r)
  {
  }

  /** The five walks, each going on from where the last one stood. */
  method WalkAll(keys: seq<int>, counts: Histogram, r: Ranks, start: int) returns (p: Percentile)
    requires keys != [] && Expand(keys, counts) != []
    requires Expand(keys, counts)[|Expand(keys, counts)| - 1] == keys[|keys| - 1]
    requires RanksFit(r, |Expand(keys, counts)|)
    ensures AtRanksFrom(p, Expand(keys, counts), start, r)
  {
    assert keys[..0] == [];
    EmptyExpand(counts);
    var index, keysIndex, key := 0, 0, start;
    assert Walking(keys, counts, start, 0, index, keysIndex, key);
    hide Walking, Expand, AtRank;
    var p10, p25, p50, p75, p90;
    index, keysIndex, p10 := Advance(keys, counts, index, keysIndex, key, r.r10, start, 0);
    index, keysIndex, p25 := Advance(keys, counts, index, keysIndex, p10, r.r25, start, r.r10);
    index, keysIndex, p50 := Advance(keys, counts, index, keysIndex, p25, r.r50, start, r.r25);
    index, keysIndex, p75 := Advance(keys, counts, index, keysIndex, p50, r.r75, start, r.r50);
    index, keysIndex, p90 := Advance(keys, counts, index, keysIndex, p75, r.r90, start, r.r75);
    p := Percentile(keys[|keys| - 1], p90, p75, p50, p25, p10);
  }

  /** The percentiles never decrease from P10 to P100. */
  lemma PercentilesRise(p: Percentile, values: seq<int>, r: Ranks)
    requires RanksFit(r, |values|) && AreRanked(p, values, r)
    ensures p.p10 <= p.p25 <= p.p50 <= p.p75 <= p.p90 <= p.p100
  {
    var s: seq<int> :| Sorted(s) && |s| == |values| > 0 && multiset(s) == multiset(values) && AtRanks(p, s, r);
  }

  /** Sorting leaves one list, so the ranks determine the percentiles. */
  lemma PercentilesDetermined(p: Percentile, q: Percentile, values: seq<int>, r: Ranks)
    requires RanksFit(r, |values|) && AreRanked(p, values, r) && AreRanked(q, values, r)
    ensures p == q
  {
    var s: seq<int> :| Sorted(s) && |s| == |values| > 0 && multiset(s) == multiset(values) && AtRanks(p, s, r);
    var t: seq<int> :| Sorted(t) && |t| == |values| > 0 && multiset(t) == multiset(values) && AtRanks(q, t, r);
    SortedUnique(s, t);
  }

  lemma SortedHead(s: seq<int>, t: seq<int>)
    requires Sorted(s) && Sorted(t) && multiset(s) == multiset(t) && s != []
    ensures t != [] && s[0] == t[0]
  {
    assert s[0] in multiset(t);
    assert t[0] in multiset(s);
  }

  lemma SortedTail(s: seq<int>)
    requires Sorted(s) && s != []
    ensures Sorted(s[1..]) && multiset(s[1..]) == multiset(s) - multiset{s[0]}
  {
    assert s == [s[0]] + s[1..];
  }

  lemma Rejoin(s: seq<int>, t: seq<int>)
    requires s != [] && t != [] && s[0] == t[0] && s[1..] == t[1..]
    ensures s == t
  {
    assert s == [s[0]] + s[1..] && t == [t[0]] + t[1..];
  }

  lemma {:induction false} SortedUnique(s: seq<int>, t: seq<int>)
    requires Sorted(s) && Sorted(t) && multiset(s) == multiset(t)
    ensures s == t
    decreases |s|
  {
    hide Sorted;
    if s == [] {
      assert |multiset(t)| == 0;
    } else {
      SortedHead(s, t);
      SortedTail(s);
      SortedTail(t);
      SortedUnique(s[1..], t[1..]);
      Rejoin(s, t);
    }
  }

  /** The two drivers' records of the same values differ exactly when some rank is zero and no value is. */
  lemma ZeroStartDiffersIff(p: Percentile, q: Percentile, values: seq<int>, r: Ranks)
    requires RanksFit(r, |values|) && AreRanked(p, values, r) && AreRankedFromZero(q, values, r)
    requires forall x | x in values :: x >= 0
    ensures p != q <==> r.r10 == 0 && 0 !in values
  {
    var s: seq<int> :| Sorted(s) && |s| == |values| > 0 && multiset(s) == multiset(values) && AtRanks(p, s, r);
    var t: seq<int> :| Sorted(t) && |t| == |values| > 0 && multiset(t) == multiset(values) && AtRanksFrom(q, t, 0, r);
    SortedUnique(s, t);
    SmallestIsZero(s, values);
    hide Sorted;
    RecordsDiffer(p, q, s, r);
  }

  lemma SmallestIsZero(s: seq<int>, values: seq<int>)
    requires Sorted(s) && s != [] && multiset(s) == multiset(values) && forall x | x in values :: x >= 0
    ensures s[0] == 0 <==> 0 in values
  {
    assert s[0] in multiset(s) && s[0] in multiset(values) && s[0] in values;
    if 0 in values {
      assert 0 in multiset(values) && 0 in multiset(s);
      var i :| 0 <= i < |s| && s[i] == 0;
      assert s[0] <= s[i];
    }
  }

  lemma RecordsDiffer(p: Percentile, q: Percentile, s: seq<int>, r: Ranks)
    requires s != [] && RanksFit(r, |s|) && AtRanks(p, s, r) && AtRanksFrom(q, s, 0, r)
    ensures p != q <==> r.r10 == 0 && s[0] != 0
  {
  }

  /** One GPU of eight gigabytes with one used. All its ranks are zero, and the in-memory driver reports nothing free
      below the largest. */
  lemma OneGpuZero(g: Gpu, p: Percentile, q: Percentile)
    requires g.vram == 0x2_0000_0000 && g.vramUsed == 0x4000_0000
    requires AreRanked(p, FreeGbs([g]), Ranks(0, 0, 0, 0, 0))
    requires AreRankedFromZero(q, FreeGbs([g]), Ranks(0, 0, 0, 0, 0))
    ensures p == Percentile(7, 7, 7, 7, 7, 7) && q == Percentile(7, 0, 0, 0, 0, 0)
  {
    FreeGbsAre([g], [7]);
    var r := Ranks(0, 0, 0, 0, 0);
    var s: seq<int> :| Sorted(s) && |s| == 1 && multiset(s) == multiset([7]) && AtRanks(p, s, r);
    var t: seq<int> :| Sorted(t) && |t| == 1 && multiset(t) == multiset([7]) && AtRanksFrom(q, t, 0, r);
    assert s[0] in multiset(s) && t[0] in multiset(t);
  }

  // ----- the fold over the GPUs -----

  datatype Summary = Summary(
    gpusByName: map<string, nat>,
    vram: Word64, vramByName: map<string, Word64>, vramUsed: Word64, vramUsedByName: map<string, Word64>,
    utilization: Word64, utilizationByName: map<string, Word64>,
    powerDraw: Word64, powerDrawByName: map<string, Word64>,
    gb: Histogram, gbByName: map<string, Histogram>)

  function Total(d: Summary, m: Metric): Word64 {
    match m
    case Vram => d.vram
    case VramUsed => d.vramUsed
    case Utilization => d.utilization
    case PowerDraw => d.powerDraw
  }

  function TotalByName(d: Summary, m: Metric): map<string, Word64> {
    match m
    case Vram => d.vramByName
    case VramUsed => d.vramUsedByName
    case Utilization => d.utilizationByName
    case PowerDraw => d.powerDrawByName
  }

  const EMPTY: Summary := Summary(map[], 0, map[], 0, map[], 0, map[], 0, map[], map[], map[])

  /** The count and the four sums of a name are those of its own GPUs. */
  ghost predicate SumsOf(d: Summary, own: seq<Gpu>, name: string) {
    && CountOf(d.gpusByName, name) == |own| && (name in d.gpusByName <==> own != [])
    && forall m :: WordOf(TotalByName(d, m), name) == Wrap64(SumOf(own, m))
  }

  /** The histogram of a name is that of its own GPUs. */
  ghost predicate HistogramOf(d: Summary, own: seq<Gpu>, name: string) {
    && (name in d.gbByName <==> own != [])
    && IsHistogram(if name in d.gbByName then d.gbByName[name] else map[], FreeGbs(own))
  }

  ghost predicate SummarizesName(d: Summary, all: seq<Gpu>, name: string) {
    SumsOf(d, Named(all, name), name) && HistogramOf(d, Named(all, name), name)
  }

  ghost predicate SummarizesAll(d: Summary, all: seq<Gpu>) {
    (forall m :: Total(d, m) == Wrap64(SumOf(all, m))) && IsHistogram(d.gb, FreeGbs(all))
  }

  /** The totals and every name's share of them. */
  ghost predicate Summarizes(d: Summary, all: seq<Gpu>) {
    SummarizesAll(d, all) && forall name :: SummarizesName(d, all, name)
  }

  function Counted(h: Histogram, k: int): Histogram {
    h[k := CountOf(h, k) + 1]
  }

  lemma CountedIs(h: Histogram, values: seq<int>, k: int)
    requires IsHistogram(h, values)
    ensures IsHistogram(Counted(h, k), values + [k])
  {
    forall x: int
      ensures CountOf(Counted(h, k), x) == multiset(values + [k])[x]
      ensures x in Counted(h, k) ==> Counted(h, k)[x] > 0
    {
      assert CountOf(h, x) == multiset(values)[x];
    }
  }

  /** One pass of the inner loop. */
  function AddGpu(d: Summary, g: Gpu): Summary {
    d.(gpusByName := d.gpusByName[g.name := CountOf(d.gpusByName, g.name) + 1],
       vram := Wrap64(d.vram + g.vram),
       vramByName := d.vramByName[g.name := Wrap64(WordOf(d.vramByName, g.name) + g.vram)],
       vramUsed := Wrap64(d.vramUsed + g.vramUsed),
       vramUsedByName := d.vramUsedByName[g.name := Wrap64(WordOf(d.vramUsedByName, g.name) + g.vramUsed)],
       utilization := Wrap64(d.utilization + g.utilization),
       utilizationByName := d.utilizationByName[g.name := Wrap64(WordOf(d.utilizationByName, g.name) + g.utilization)],
       powerDraw := Wrap64(d.powerDraw + g.powerDraw),
       powerDrawByName := d.powerDrawByName[g.name := Wrap64(WordOf(d.powerDrawByName, g.name) + g.powerDraw)],
       gb := Counted(d.gb, FreeGb(g)),
       gbByName := d.gbByName[g.name := Counted(if g.name in d.gbByName then d.gbByName[g.name] else map[], FreeGb(g))])
  }

  lemma NamedStep(all: seq<Gpu>, g: Gpu, name: string)
    ensures Named(all + [g], name) == if g.name == name then Named(all, name) + [g] else Named(all, name)
  {
    assert (all + [g])[..|all|] == all;
  }

  lemma SumStep(all: seq<Gpu>, g: Gpu, m: Metric)
    ensures SumOf(all + [g], m) == SumOf(all, m) + Figure(g, m)
  {
    assert (all + [g])[..|all|] == all;
  }

  lemma FreeStep(all: seq<Gpu>, g: Gpu)
    ensures FreeGbs(all + [g]) == FreeGbs(all) + [FreeGb(g)]
  {
  }

  /** Every sum moves by the GPU's own figure. */
  lemma AddFigure(d: Summary, g: Gpu, m: Metric)
    ensures Total(AddGpu(d, g), m) == Wrap64(Total(d, m) + Figure(g, m))
    ensures TotalByName(AddGpu(d, g), m) ==
            TotalByName(d, m)[g.name := Wrap64(WordOf(TotalByName(d, m), g.name) + Figure(g, m))]
  {
    hide Counted, FreeGb;
  }

  lemma AddSums(d: Summary, own: seq<Gpu>, g: Gpu)
    requires SumsOf(d, own, g.name)
    ensures SumsOf(AddGpu(d, g), own + [g], g.name)
  {
    forall m ensures WordOf(TotalByName(AddGpu(d, g), m), g.name) == Wrap64(SumOf(own + [g], m)) {
      SumStep(own, g, m);
      AddFigure(d, g, m);
      WrapTwice(SumOf(own, m), Figure(g, m));
    }
    hide SumOf, Counted;
  }

  lemma AddHistogram(d: Summary, own: seq<Gpu>, g: Gpu)
    requires HistogramOf(d, own, g.name)
    ensures HistogramOf(AddGpu(d, g), own + [g], g.name)
  {
    FreeStep(own, g);
    var h := if g.name in d.gbByName then d.gbByName[g.name] else map[];
    CountedIs(h, FreeGbs(own), FreeGb(g));
    hide IsHistogram, Counted, FreeGb, FreeGbs;
  }

  lemma AddOther(d: Summary, own: seq<Gpu>, g: Gpu, name: string)
    requires SumsOf(d, own, name) && HistogramOf(d, own, name) && g.name != name
    ensures SumsOf(AddGpu(d, g), own, name) && HistogramOf(AddGpu(d, g), own, name)
  {
    forall m ensures WordOf(TotalByName(AddGpu(d, g), m), name) == WordOf(TotalByName(d, m), name) {
      AddFigure(d, g, m);
    }
    hide IsHistogram, Counted, FreeGb, SumOf, FreeGbs, TotalByName;
  }

  lemma AddAll(d: Summary, all: seq<Gpu>, g: Gpu)
    requires SummarizesAll(d, all)
    ensures SummarizesAll(AddGpu(d, g), all + [g])
  {
    forall m ensures Total(AddGpu(d, g), m) == Wrap64(SumOf(all + [g], m)) {
      SumStep(all, g, m);
      AddFigure(d, g, m);
      WrapTwice(SumOf(all, m), Figure(g, m));
    }
    FreeStep(all, g);
    CountedIs(d.gb, FreeGbs(all), FreeGb(g));
    hide IsHistogram, Counted, SumOf, FreeGbs, Total;
  }

  /** One more GPU keeps the summary a summary of the GPUs so far. */
  lemma AddSummarizes(d: Summary, all: seq<Gpu>, g: Gpu)
    requires Summarizes(d, all)
    ensures Summarizes(AddGpu(d, g), all + [g])
  {
    AddAll(d, all, g);
    hide SumsOf, HistogramOf, SummarizesAll, AddGpu, Named;
    forall name ensures SummarizesName(AddGpu(d, g), all + [g], name) {
      assert SummarizesName(d, all, name);
      NamedStep(all, g, name);
      if name == g.name {
        AddSums(d, Named(all, name), g);
        AddHistogram(d, Named(all, name), g);
      } else {
        AddOther(d, Named(all, name), g, name);
      }
    }
  }

  /** A summary counts the free gigabytes of all GPUs, and by name those of the name's own. */
  lemma SummaryCountsFree(d: Summary, all: seq<Gpu>, name: string)
    requires Summarizes(d, all)
    ensures exists free :: AreFree(all, free) && IsHistogram(d.gb, free)
    ensures name in d.gbByName <==> Named(all, name) != []
    ensures name in d.gbByName ==> exists free :: AreFree(Named(all, name), free) && IsHistogram(d.gbByName[name], free)
  {
    assert SummarizesName(d, all, name);
    FreeGbsAre(all, FreeGbs(all));
    FreeGbsAre(Named(all, name), FreeGbs(Named(all, name)));
    hide AreFree, IsHistogram, FreeGbs, Named;
  }

  function Flatten(rows: seq<seq<Gpu>>): seq<Gpu> {
    if rows == [] then [] else Flatten(rows[..|rows| - 1]) + rows[|rows| - 1]
  }

  lemma NothingSummarized()
    ensures Summarizes(EMPTY, [])
  {
  }

  lemma PrefixStep<X>(before: seq<X>, s: seq<X>, k: nat)
    requires k < |s|
    ensures before + s[..k + 1] == before + s[..k] + [s[k]]
  {
  }

  /** The figure a name is given for utilisation, and by the in-memory driver for power too: its own sum over the number
      of all GPUs. It is the mean of the name's GPUs exactly when there are no others or the sum is zero. */
  lemma NameMeanIff(all: seq<Gpu>, name: string, m: Metric)
    requires Named(all, name) != []
    ensures all != []
    ensures var own := Named(all, name);
      SumOf(own, m) as real / |all| as real == SumOf(own, m) as real / |own| as real
      <==> SumOf(own, m) == 0 || |own| == |all|
  {
    NamedNone(all, name);
    var sum, own, n := SumOf(Named(all, name), m) as real, |Named(all, name)| as real, |all| as real;
    hide SumOf, Named;
    if sum / n == sum / own {
      assert sum * own == sum / n * n * own == sum / own * own * n == sum * n;
      assert sum * (own - n) == 0.0;
    }
  }

  /** Two GPUs of different names, each at 50: each name is given 25. */
  lemma TwoNames(g: Gpu, h: Gpu)
    requires g.name != h.name && g.utilization == h.utilization == 50
    ensures var all, own := [g, h], Named([g, h], g.name);
      SumOf(own, Utilization) as real / |all| as real == 25.0 && SumOf(own, Utilization) as real / |own| as real == 50.0
  {
    NamedStep([], g, g.name);
    NamedStep([g], h, g.name);
    SumStep([], g, Utilization);
    assert [] + [g] == [g] && [g] + [h] == [g, h] && Named([g, h], g.name) == [g];
  }

  method AggregateRow(d0: Summary, gpus: seq<Gpu>, ghost before: seq<Gpu>) returns (d: Summary)
    requires Summarizes(d0, before)
    ensures Summarizes(d, before + gpus)
  {
    d := d0;
    assert before + gpus[..0] == before;
    hide Summarizes;
    for k := 0 to |gpus|
      invariant Summarizes(d, before + gpus[..k])
    {
      AddSummarizes(d, before + gpus[..k], gpus[k]);
      PrefixStep(before, gpus, k);
      d := AddGpu(d, gpus[k]);
    }
    assert gpus[..|gpus|] == gpus;
  }

  /** The fold over the GPUs of the active agents' rows. */
  method Aggregate(rows: seq<seq<Gpu>>) returns (d: Summary, total: nat)
    ensures Summarizes(d, Flatten(rows)) && total == |Flatten(rows)|
  {
    hide Summarizes;
    NothingSummarized();
    d, total := EMPTY, 0;
    for i := 0 to |rows|
      invariant Summarizes(d, Flatten(rows[..i])) && total == |Flatten(rows[..i])|
    {
      assert rows[..i + 1][..i] == rows[..i];
      total := total + |rows[i]|;
      d := AggregateRow(d, rows[i], Flatten(rows[..i]));
    }
    assert rows[..|rows|] == rows;
  }

  /** The memory percentiles of the whole summary: with no GPU there are none, else those of all GPUs and those of
      each name's own GPUs, at the ranks their counts give. */
  method AggregatePercentiles(rows: seq<seq<Gpu>>, rankOf: nat -> Ranks)
      returns (overall: Percentile, byName: map<string, Percentile>)
    requires forall n: nat :: RanksFit(rankOf(n), n)
    ensures var all := Flatten(rows);
      && (all != [] ==> AreRanked(overall, FreeGbs(all), rankOf(|all|)))
      && forall name :: name in byName <==> Named(all, name) != []
    ensures var all := Flatten(rows);
      forall name :: name in byName ==>
        AreRanked(byName[name], FreeGbs(Named(all, name)), rankOf(|Named(all, name)|))
    ensures var all := Flatten(rows);
      all != [] ==> exists free :: AreFree(all, free) && AreRanked(overall, free, rankOf(|all|))
    ensures var all := Flatten(rows);
      forall name :: name in byName ==>
        exists free :: AreFree(Named(all, name), free) && AreRanked(byName[name], free, rankOf(|Named(all, name)|))
  {
    var d, total := Aggregate(rows);
    ghost var all := Flatten(rows);
    overall, byName := Percentile(0, 0, 0, 0, 0, 0), map[];
    if total > 0 {
      overall := CalculatePercentiles(d.gb, rankOf(total), FreeGbs(all));
    }
    hide AreRanked, IsHistogram, Flatten, Named, RanksFit;
    if total > 0 {
      var todo := d.gbByName.Keys;
      while todo != {}
        invariant todo <= d.gbByName.Keys && byName.Keys == d.gbByName.Keys - todo
        invariant forall name :: name in byName ==>
          AreRanked(byName[name], FreeGbs(Named(all, name)), rankOf(|Named(all, name)|))
        decreases todo
      {
        var name := Pick(todo);
        todo := todo - {name};
        assert SummarizesName(d, all, name);
        var p := CalculatePercentiles(d.gbByName[name], rankOf(CountOf(d.gpusByName, name)), FreeGbs(Named(all, name)));
        byName := byName[name := p];
      }
    }
    forall name ensures name in byName <==> Named(all, name) != [] {
      assert SummarizesName(d, all, name);
      NamedNone(all, name);
    }
    FreeGbsAre(all, FreeGbs(all));
    hide AreFree;
    forall name | name in byName
      ensures exists free ::
                AreFree(Named(all, name), free) && AreRanked(byName[name], free, rankOf(|Named(all, name)|))
    {
      FreeGbsAre(Named(all, name), FreeGbs(Named(all, name)));
    }
  }

  lemma NamedNone(all: seq<Gpu>, name: string)
    ensures |Named(all, name)| <= |all|
  {
  }
}
