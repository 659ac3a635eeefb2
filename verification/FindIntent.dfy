/** When Find, whose inner loop has no break, still chooses what its comment intends: for every requirement in order
    one GPU of its own that accepts it. */
module FindIntent {
  import opened Words
  import opened GpuSpec

  /** The places of a result that hold the GPUs taken for requirement `r`. */
  predicate InWindow(infos: seq<GpuInfo>, avail: seq<Word64>, reqs: seq<GpuRequirement>, r: nat, k: nat)
    requires |infos| == |avail|
  {
    |TakenBefore(infos, avail, reqs, r)| <= k < |TakenBefore(infos, avail, reqs, r + 1)|
  }

  /** As many GPUs accept something as there are requirements, and each suits every requirement at whose place it may
      end up: it accepts it, and is charged the same for it. */
  ghost predicate EverySpotSuits(infos: seq<GpuInfo>, avail: seq<Word64>, reqs: seq<GpuRequirement>)
    requires |infos| == |avail|
  {
    && |Takers(infos, avail, reqs)| == |reqs|
    && forall g: nat, k: nat | g < |infos| && k < |reqs| && FirstMatch(infos[g], avail[g], reqs) < |reqs|
         && InWindow(infos, avail, reqs, FirstMatch(infos[g], avail[g], reqs), k) ::
         Suits(infos, avail, reqs, g, k)
  }

  /** GPU `g`, charged what its first accepted requirement asks, does for requirement `k`. */
  predicate Suits(infos: seq<GpuInfo>, avail: seq<Word64>, reqs: seq<GpuRequirement>, g: nat, k: nat)
    requires |infos| == |avail| && g < |infos| && k < |reqs| && FirstMatch(infos[g], avail[g], reqs) < |reqs|
  {
    Accepts(infos[g], avail[g], reqs[k])
    && reqs[k].vramRequired == reqs[FirstMatch(infos[g], avail[g], reqs)].vramRequired
  }

  /** Whatever order the map is walked in, Find chooses one GPU for each requirement, exactly when as many GPUs accept
      something as there are requirements and each suits all the requirements in whose places it may end up. */
  lemma FindIntentIff(infos: seq<GpuInfo>, avail: seq<Word64>, reqs: seq<GpuRequirement>)
    requires |infos| == |avail|
    ensures (forall sel | IsFindResult(infos, avail, reqs, sel) :: OnePerRequirement(infos, avail, reqs, sel))
            <==> EverySpotSuits(infos, avail, reqs)
  {
    hide IsFindResult, OnePerRequirement, EverySpotSuits;
    if EverySpotSuits(infos, avail, reqs) {
      forall sel | IsFindResult(infos, avail, reqs, sel) ensures OnePerRequirement(infos, avail, reqs, sel) {
        SuitedResult(infos, avail, reqs, sel);
      }
    }
    if forall sel | IsFindResult(infos, avail, reqs, sel) :: OnePerRequirement(infos, avail, reqs, sel) {
      AllSuited(infos, avail, reqs);
    }
  }

  /** Every GPU taken before the requirement of place `k` holds an earlier place. */
  lemma EarlierPlaces(infos: seq<GpuInfo>, avail: seq<Word64>, reqs: seq<GpuRequirement>, sel: seq<SessionGpu>, k: nat)
    requires |infos| == |avail| && IsFindResult(infos, avail, reqs, sel) && k < |sel|
    ensures TakenBefore(infos, avail, reqs, Rank(infos, avail, reqs, sel[k])) <= IndexSet(sel[..k])
  {
    forall g | g in TakenBefore(infos, avail, reqs, Rank(infos, avail, reqs, sel[k])) ensures g in IndexSet(sel[..k]) {
      var j :| 0 <= j < |sel| && sel[j].index == g;
      assert Rank(infos, avail, reqs, sel[j]) < Rank(infos, avail, reqs, sel[k]);
      assert j < k && sel[..k][j].index == g;
    }
  }

  /** The GPUs up to place `k` were taken for its requirement or before. */
  lemma PlacesUpTo(infos: seq<GpuInfo>, avail: seq<Word64>, reqs: seq<GpuRequirement>, sel: seq<SessionGpu>, k: nat)
    requires |infos| == |avail| && IsFindResult(infos, avail, reqs, sel) && k < |sel|
    ensures IndexSet(sel[..k + 1]) <= TakenBefore(infos, avail, reqs, Rank(infos, avail, reqs, sel[k]) + 1)
  {
    var upTo, r := sel[..k + 1], Rank(infos, avail, reqs, sel[k]);
    forall g | g in IndexSet(upTo) ensures g in TakenBefore(infos, avail, reqs, r + 1) {
      var j :| 0 <= j < k + 1 && upTo[j].index == g;
      assert Rank(infos, avail, reqs, sel[j]) <= Rank(infos, avail, reqs, sel[k]);
    }
  }

  lemma PrefixSize(sel: seq<SessionGpu>, k: nat)
    requires DistinctIndices(sel) && k <= |sel|
    ensures |IndexSet(sel[..k])| == k
  {
    IndexSetSize(sel[..k]);
  }

  /** A place of a result lies in the window of its GPU's requirement. */
  lemma PlaceInWindow(infos: seq<GpuInfo>, avail: seq<Word64>, reqs: seq<GpuRequirement>, sel: seq<SessionGpu>, k: nat)
    requires |infos| == |avail| && IsFindResult(infos, avail, reqs, sel) && k < |sel|
    ensures InWindow(infos, avail, reqs, Rank(infos, avail, reqs, sel[k]), k)
  {
    var r := Rank(infos, avail, reqs, sel[k]);
    PrefixSize(sel, k);
    PrefixSize(sel, k + 1);
    EarlierPlaces(infos, avail, reqs, sel, k);
    PlacesUpTo(infos, avail, reqs, sel, k);
    hide IsFindResult, TakenBefore, IndexSet, Rank;
    SubsetSize(TakenBefore(infos, avail, reqs, r), IndexSet(sel[..k]));
    SubsetSize(IndexSet(sel[..k + 1]), TakenBefore(infos, avail, reqs, r + 1));
  }

  lemma TakenBeforeGrows(infos: seq<GpuInfo>, avail: seq<Word64>, reqs: seq<GpuRequirement>, r: nat, s: nat)
    requires |infos| == |avail| && r <= s
    ensures |TakenBefore(infos, avail, reqs, r)| <= |TakenBefore(infos, avail, reqs, s)|
  {
    SubsetSize(TakenBefore(infos, avail, reqs, r), TakenBefore(infos, avail, reqs, s));
  }

  /** No place lies in two windows. */
  lemma OneWindow(infos: seq<GpuInfo>, avail: seq<Word64>, reqs: seq<GpuRequirement>, r: nat, s: nat, k: nat)
    requires |infos| == |avail| && InWindow(infos, avail, reqs, r, k) && InWindow(infos, avail, reqs, s, k)
    ensures r == s
  {
    if r < s {
      TakenBeforeGrows(infos, avail, reqs, r + 1, s);
    } else if s < r {
      TakenBeforeGrows(infos, avail, reqs, s + 1, r);
    }
  }

  lemma SuitedResult(infos: seq<GpuInfo>, avail: seq<Word64>, reqs: seq<GpuRequirement>, sel: seq<SessionGpu>)
    requires |infos| == |avail| && IsFindResult(infos, avail, reqs, sel) && EverySpotSuits(infos, avail, reqs)
    ensures OnePerRequirement(infos, avail, reqs, sel)
  {
    FindSizeIsTakers(infos, avail, reqs, sel);
    hide Takers, InWindow, FirstMatch, Accepts;
    forall k | 0 <= k < |sel|
      ensures Accepts(infos[sel[k].index], avail[sel[k].index], reqs[k]) && sel[k].vramRequired == reqs[k].vramRequired
    {
      PlaceInWindow(infos, avail, reqs, sel, k);
      assert Suits(infos, avail, reqs, sel[k].index, k);
    }
  }

  // ----- the other direction: every place in a window can be any of its GPUs' -----

  predicate Has(sel: seq<SessionGpu>, g: nat) {
    exists k :: 0 <= k < |sel| && sel[k].index == g
  }

  lemma ExchangedHas(sel: seq<SessionGpu>, p: nat, k: nat, g: nat)
    requires p < |sel| && k < |sel| && Has(sel, g)
    ensures Has(sel[p := sel[k]][k := sel[p]], g)
  {
    var out := sel[p := sel[k]][k := sel[p]];
    var j :| 0 <= j < |sel| && sel[j].index == g;
    assert out[if j == p then k else if j == k then p else j].index == g;
  }

  /** A result with two entries of equal rank exchanged. */
  lemma Exchanged(infos: seq<GpuInfo>, avail: seq<Word64>, reqs: seq<GpuRequirement>, sel: seq<SessionGpu>,
                  p: nat, k: nat)
    requires |infos| == |avail| && IsFindResult(infos, avail, reqs, sel) && p < |sel| && k < |sel|
    requires Rank(infos, avail, reqs, sel[p]) == Rank(infos, avail, reqs, sel[k])
    ensures IsFindResult(infos, avail, reqs, sel[p := sel[k]][k := sel[p]])
  {
    var out := sel[p := sel[k]][k := sel[p]];
    assert out[p := out[k]][k := out[p]] == sel;
    forall g: nat | g < |infos| ensures Has(out, g) <==> Has(sel, g) {
      if Has(sel, g) {
        ExchangedHas(sel, p, k, g);
      }
      if Has(out, g) {
        ExchangedHas(out, p, k, g);
      }
    }
    ExchangedOrder(infos, avail, reqs, sel, p, k);
    hide Rank;
    forall g: nat | g < |infos|
      ensures FirstMatch(infos[g], avail[g], reqs) < |reqs| <==> exists j :: 0 <= j < |out| && out[j].index == g
    {
      assert Has(out, g) <==> Has(sel, g);
    }
  }

  lemma ExchangedOrder(infos: seq<GpuInfo>, avail: seq<Word64>, reqs: seq<GpuRequirement>, sel: seq<SessionGpu>,
                       p: nat, k: nat)
    requires |infos| == |avail| && IsFindResult(infos, avail, reqs, sel) && p < |sel| && k < |sel|
    requires Rank(infos, avail, reqs, sel[p]) == Rank(infos, avail, reqs, sel[k])
    ensures var out := sel[p := sel[k]][k := sel[p]];
      && InRange(out, |infos|) && DistinctIndices(out)
      && forall i, j | 0 <= i < j < |out| :: Rank(infos, avail, reqs, out[i]) <= Rank(infos, avail, reqs, out[j])
  {
    hide Rank;
    var out := sel[p := sel[k]][k := sel[p]];
    assert forall j | 0 <= j < |out| :: Rank(infos, avail, reqs, out[j]) == Rank(infos, avail, reqs, sel[j]);
  }

  /** Take the GPUs of `todo`, all of them for requirement `r`. */
  lemma TakeAll(infos: seq<GpuInfo>, avail: seq<Word64>, reqs: seq<GpuRequirement>, sel: seq<SessionGpu>, r: nat,
                todo: set<nat>) returns (out: seq<SessionGpu>)
    requires |infos| == |avail| && r < |reqs| && PartialFind(infos, avail, reqs, sel, r + 1)
    requires todo <= TakersOf(infos, avail, reqs, r) && todo !! IndexSet(sel)
    ensures PartialFind(infos, avail, reqs, out, r + 1) && IndexSet(out) == IndexSet(sel) + todo
    decreases todo
  {
    hide PartialFind, IndexSet;
    out := sel;
    if g :| g in todo {
      TakeGpu(infos, avail, reqs, sel, r, g);
      out := TakeAll(infos, avail, reqs, sel + [SessionGpu(g, reqs[r].vramRequired)], r, todo - {g});
    }
  }

  /** There is a selection of everything taken before requirement `r`. */
  lemma {:induction false} SomeSelection(infos: seq<GpuInfo>, avail: seq<Word64>, reqs: seq<GpuRequirement>, r: nat)
    returns (sel: seq<SessionGpu>)
    requires |infos| == |avail| && r <= |reqs|
    ensures PartialFind(infos, avail, reqs, sel, r) && IndexSet(sel) == TakenBefore(infos, avail, reqs, r)
  {
    if r == 0 {
      sel := [];
    } else {
      var before := SomeSelection(infos, avail, reqs, r - 1);
      sel := TakeAll(infos, avail, reqs, before, r - 1, TakersOf(infos, avail, reqs, r - 1));
      hide PartialFind, IndexSet;
      assert TakenBefore(infos, avail, reqs, r) ==
             TakenBefore(infos, avail, reqs, r - 1) + TakersOf(infos, avail, reqs, r - 1);
    }
  }

  /** A result in which a given GPU holds a given place of its window. */
  lemma SomeResultWith(infos: seq<GpuInfo>, avail: seq<Word64>, reqs: seq<GpuRequirement>, g: nat, k: nat)
    returns (sel: seq<SessionGpu>)
    requires |infos| == |avail| && g < |infos| && FirstMatch(infos[g], avail[g], reqs) < |reqs|
    requires InWindow(infos, avail, reqs, FirstMatch(infos[g], avail[g], reqs), k) && k < |Takers(infos, avail, reqs)|
    ensures IsFindResult(infos, avail, reqs, sel) && k < |sel| && sel[k].index == g
  {
    var some := SomeResult(infos, avail, reqs);
    FindSizeIsTakers(infos, avail, reqs, some);
    var p :| 0 <= p < |some| && some[p].index == g;
    PlaceInWindow(infos, avail, reqs, some, k);
    OneWindow(infos, avail, reqs, Rank(infos, avail, reqs, some[k]), Rank(infos, avail, reqs, some[p]), k);
    Exchanged(infos, avail, reqs, some, p, k);
    sel := some[p := some[k]][k := some[p]];
  }

  lemma SomeResult(infos: seq<GpuInfo>, avail: seq<Word64>, reqs: seq<GpuRequirement>) returns (sel: seq<SessionGpu>)
    requires |infos| == |avail|
    ensures IsFindResult(infos, avail, reqs, sel)
  {
    sel := SomeSelection(infos, avail, reqs, |reqs|);
    FindComplete(infos, avail, reqs, sel);
  }

  lemma AllSuited(infos: seq<GpuInfo>, avail: seq<Word64>, reqs: seq<GpuRequirement>)
    requires |infos| == |avail|
    requires forall sel | IsFindResult(infos, avail, reqs, sel) :: OnePerRequirement(infos, avail, reqs, sel)
    ensures EverySpotSuits(infos, avail, reqs)
  {
    var some := SomeResult(infos, avail, reqs);
    FindSizeIsTakers(infos, avail, reqs, some);
    forall g: nat, k: nat | g < |infos| && k < |reqs| && FirstMatch(infos[g], avail[g], reqs) < |reqs|
                              && InWindow(infos, avail, reqs, FirstMatch(infos[g], avail[g], reqs), k)
      ensures Suits(infos, avail, reqs, g, k)
    {
      PlaceSuits(infos, avail, reqs, g, k);
    }
  }

  lemma PlaceSuits(infos: seq<GpuInfo>, avail: seq<Word64>, reqs: seq<GpuRequirement>, g: nat, k: nat)
    requires |infos| == |avail| && g < |infos| && k < |reqs| == |Takers(infos, avail, reqs)|
    requires FirstMatch(infos[g], avail[g], reqs) < |reqs|
    requires InWindow(infos, avail, reqs, FirstMatch(infos[g], avail[g], reqs), k)
    requires forall sel | IsFindResult(infos, avail, reqs, sel) :: OnePerRequirement(infos, avail, reqs, sel)
    ensures Suits(infos, avail, reqs, g, k)
  {
    var sel := SomeResultWith(infos, avail, reqs, g, k);
    assert OnePerRequirement(infos, avail, reqs, sel);
    assert Rank(infos, avail, reqs, sel[k]) == FirstMatch(infos[g], avail[g], reqs);
  }

  /** Two equal GPUs and two equal requirements: no requirement is the first of exactly one GPU, and Find still
      serves both, for every map order. */
  lemma EqualsServed()
    ensures var infos := [GpuInfo(8, PciAddress(0, 1, 0, 0)), GpuInfo(8, PciAddress(0, 2, 0, 0))];
      var reqs := [GpuRequirement(4, None), GpuRequirement(4, None)];
      && TakersOf(infos, [8, 8], reqs, 0) == {0, 1}
      && forall sel | IsFindResult(infos, [8, 8], reqs, sel) :: OnePerRequirement(infos, [8, 8], reqs, sel)
  {
    var infos := [GpuInfo(8, PciAddress(0, 1, 0, 0)), GpuInfo(8, PciAddress(0, 2, 0, 0))];
    var reqs := [GpuRequirement(4, None), GpuRequirement(4, None)];
    assert FirstMatch(infos[0], 8, reqs) == 0 && FirstMatch(infos[1], 8, reqs) == 0;
    hide FirstMatch;
    assert Takers(infos, [8, 8], reqs) == {0, 1};
    hide IsFindResult, OnePerRequirement, InWindow;
    FindIntentIff(infos, [8, 8], reqs);
  }
}
