/** What the VRAM allocator computes, on values: which GPUs a requirement list takes, and what a
    set of outstanding selections charges to each GPU. */
module GpuSpec {
  import opened Words

  /** A PCI bus identifier after parsing; only equality of parsed addresses matters. */
  datatype PciAddress = PciAddress(domain: int, bus: int, device: int, func: int)

  /** The two fields of a GPU the allocator reads. A GPU's index is its position in the agent's list. */
  datatype GpuInfo = GpuInfo(vram: Word64, pci: PciAddress)

  /** `pci` is None when the request leaves the PCI bus empty. */
  datatype GpuRequirement = GpuRequirement(vramRequired: Word64, pci: Option<PciAddress>)

  datatype SessionGpu = SessionGpu(index: nat, vramRequired: Word64)

  predicate Accepts(info: GpuInfo, avail: Word64, req: GpuRequirement) {
    && (req.vramRequired == 0 || req.vramRequired <= avail)
    && (req.pci.Some? ==> info.pci == req.pci.value)
  }

  /** The first requirement a GPU accepts, or |reqs| when it accepts none. */
  function FirstMatch(info: GpuInfo, avail: Word64, reqs: seq<GpuRequirement>): (k: nat)
    ensures k <= |reqs|
    ensures k < |reqs| ==> Accepts(info, avail, reqs[k])
    ensures forall j :: 0 <= j < k ==> !Accepts(info, avail, reqs[j])
  {
    if reqs == [] then 0
    else if Accepts(info, avail, reqs[0]) then 0
    else 1 + FirstMatch(info, avail, reqs[1..])
  }

  /** VRAM that a selection charges to GPU `i`. */
  function Charge(sel: seq<SessionGpu>, i: nat): nat {
    if sel == [] then 0
    else Charge(sel[..|sel| - 1], i) + (if sel[|sel| - 1].index == i then sel[|sel| - 1].vramRequired else 0)
  }

  predicate InRange(sel: seq<SessionGpu>, n: nat) {
    forall k :: 0 <= k < |sel| ==> sel[k].index < n
  }

  predicate DistinctIndices(sel: seq<SessionGpu>) {
    forall j, k :: 0 <= j < k < |sel| ==> sel[j].index != sel[k].index
  }

  /** The requirement on whose behalf a GPU is taken. */
  function Rank(infos: seq<GpuInfo>, avail: seq<Word64>, reqs: seq<GpuRequirement>, c: SessionGpu): (k: nat)
    requires |infos| == |avail| && c.index < |infos|
    ensures k <= |reqs|
  {
    FirstMatch(infos[c.index], avail[c.index], reqs)
  }

  /** The GPUs that accept at least one requirement. */
  function Takers(infos: seq<GpuInfo>, avail: seq<Word64>, reqs: seq<GpuRequirement>): set<nat>
    requires |infos| == |avail|
  {
    set g: nat | g < |infos| && FirstMatch(infos[g], avail[g], reqs) < |reqs|
  }

  /** The selections Find may return: every GPU that accepts some requirement, once each, charged
      the first requirement it accepts, in requirement order. */
  ghost predicate IsFindResult(infos: seq<GpuInfo>, avail: seq<Word64>, reqs: seq<GpuRequirement>,
                               sel: seq<SessionGpu>)
    requires |infos| == |avail|
  {
    && InRange(sel, |infos|)
    && DistinctIndices(sel)
    && (forall g: nat | g < |infos| ::
          (FirstMatch(infos[g], avail[g], reqs) < |reqs| <==> exists k :: 0 <= k < |sel| && sel[k].index == g))
    && (forall k | 0 <= k < |sel| ::
          Rank(infos, avail, reqs, sel[k]) < |reqs|
          && sel[k].vramRequired == reqs[Rank(infos, avail, reqs, sel[k])].vramRequired)
    && (forall j, k | 0 <= j < k < |sel| ::
          Rank(infos, avail, reqs, sel[j]) <= Rank(infos, avail, reqs, sel[k]))
  }

  lemma {:induction false} ChargeConcat(a: seq<SessionGpu>, b: seq<SessionGpu>, i: nat)
    ensures Charge(a + b, i) == Charge(a, i) + Charge(b, i)
  {
    if b == [] {
      assert a + b == a;
    } else {
      ChargeConcat(a, b[..|b| - 1], i);
      assert (a + b)[..|a + b| - 1] == a + b[..|b| - 1];
    }
  }

  /** A selection with distinct indices charges a GPU the one amount it names, or nothing. */
  lemma {:induction false} ChargeAbsent(sel: seq<SessionGpu>, i: nat)
    requires forall k :: 0 <= k < |sel| ==> sel[k].index != i
    ensures Charge(sel, i) == 0
  {
    if sel != [] {
      ChargeAbsent(sel[..|sel| - 1], i);
    }
  }

  lemma {:induction false} ChargeOnce(sel: seq<SessionGpu>, k: nat)
    requires DistinctIndices(sel) && k < |sel|
    ensures Charge(sel, sel[k].index) == sel[k].vramRequired
  {
    var last := |sel| - 1;
    if k == last {
      ChargeAbsent(sel[..last], sel[k].index);
    } else {
      ChargeOnce(sel[..last], k);
    }
  }

  /** Find never charges a GPU more than was free on it, whatever the map order. */
  lemma FindChargesWithinFree(infos: seq<GpuInfo>, avail: seq<Word64>, reqs: seq<GpuRequirement>,
                              sel: seq<SessionGpu>, i: nat)
    requires |infos| == |avail| && IsFindResult(infos, avail, reqs, sel) && i < |infos|
    ensures Charge(sel, i) <= avail[i]
  {
    if k: nat :| k < |sel| && sel[k].index == i {
      ChargeOnce(sel, k);
    } else {
      ChargeAbsent(sel, i);
    }
  }

  /** What Find charges to each GPU does not depend on the order in which the map is walked. */
  lemma FindChargeDetermined(infos: seq<GpuInfo>, avail: seq<Word64>, reqs: seq<GpuRequirement>,
                             sel: seq<SessionGpu>, i: nat)
    requires |infos| == |avail| && IsFindResult(infos, avail, reqs, sel) && i < |infos|
    ensures var m := FirstMatch(infos[i], avail[i], reqs);
            Charge(sel, i) == if m < |reqs| then reqs[m].vramRequired else 0
  {
    if k: nat :| k < |sel| && sel[k].index == i {
      ChargeOnce(sel, k);
    } else {
      ChargeAbsent(sel, i);
    }
  }

  /** What Find takes, by the fields: exactly the GPUs with enough VRAM free for some requirement that names their PCI
      bus or none, each charged the first such requirement. */
  lemma FindTakes(infos: seq<GpuInfo>, avail: seq<Word64>, reqs: seq<GpuRequirement>, sel: seq<SessionGpu>)
    requires |infos| == |avail| && IsFindResult(infos, avail, reqs, sel)
    ensures forall g: nat | g < |infos| ::
              (exists k :: 0 <= k < |sel| && sel[k].index == g) <==>
              exists r :: 0 <= r < |reqs| && reqs[r].vramRequired <= avail[g]
                          && (reqs[r].pci == None || reqs[r].pci == Some(infos[g].pci))
    ensures forall k | 0 <= k < |sel| ::
              && sel[k].index < |infos|
              && exists r ::
                   && 0 <= r < |reqs| && sel[k].vramRequired == reqs[r].vramRequired <= avail[sel[k].index]
                   && (reqs[r].pci == None || reqs[r].pci == Some(infos[sel[k].index].pci))
                   && forall q | 0 <= q < r ::
                        reqs[q].vramRequired > avail[sel[k].index]
                        || (reqs[q].pci.Some? && reqs[q].pci.value != infos[sel[k].index].pci)
  {
    forall g: nat | g < |infos|
      ensures FirstMatch(infos[g], avail[g], reqs) < |reqs| <==>
              exists r :: 0 <= r < |reqs| && reqs[r].vramRequired <= avail[g]
                          && (reqs[r].pci == None || reqs[r].pci == Some(infos[g].pci))
    {
      TakerMeets(infos[g], avail[g], reqs);
    }
    forall k | 0 <= k < |sel|
      ensures exists r ::
                && 0 <= r < |reqs| && sel[k].vramRequired == reqs[r].vramRequired <= avail[sel[k].index]
                && (reqs[r].pci == None || reqs[r].pci == Some(infos[sel[k].index].pci))
                && forall q | 0 <= q < r ::
                     reqs[q].vramRequired > avail[sel[k].index]
                     || (reqs[q].pci.Some? && reqs[q].pci.value != infos[sel[k].index].pci)
    {
      var r := Rank(infos, avail, reqs, sel[k]);
      forall q | 0 <= q < r
        ensures reqs[q].vramRequired > avail[sel[k].index]
                || (reqs[q].pci.Some? && reqs[q].pci.value != infos[sel[k].index].pci)
      {
        assert !Accepts(infos[sel[k].index], avail[sel[k].index], reqs[q]);
      }
    }
  }

  /** A GPU accepts some requirement by its fields. */
  lemma TakerMeets(info: GpuInfo, avail: Word64, reqs: seq<GpuRequirement>)
    ensures FirstMatch(info, avail, reqs) < |reqs| <==>
            exists r :: 0 <= r < |reqs| && reqs[r].vramRequired <= avail
                        && (reqs[r].pci == None || reqs[r].pci == Some(info.pci))
  {
    var m := FirstMatch(info, avail, reqs);
    if r :| 0 <= r < |reqs| && reqs[r].vramRequired <= avail && (reqs[r].pci == None || reqs[r].pci == Some(info.pci)) {
      assert Accepts(info, avail, reqs[r]);
    }
  }

  /** Why Find fails: fewer GPUs than requirements have enough VRAM free for one that names their PCI bus or none. */
  lemma TakersMeet(infos: seq<GpuInfo>, avail: seq<Word64>, reqs: seq<GpuRequirement>)
    requires |infos| == |avail|
    ensures Takers(infos, avail, reqs) ==
            set g: nat | g < |infos| && exists r ::
                           && 0 <= r < |reqs| && reqs[r].vramRequired <= avail[g]
                           && (reqs[r].pci == None || reqs[r].pci == Some(infos[g].pci))
  {
    forall g: nat | g < |infos|
      ensures FirstMatch(infos[g], avail[g], reqs) < |reqs| <==>
              exists r :: 0 <= r < |reqs| && reqs[r].vramRequired <= avail[g]
                          && (reqs[r].pci == None || reqs[r].pci == Some(infos[g].pci))
    {
      TakerMeets(infos[g], avail[g], reqs);
    }
  }

  lemma FindSizeIsTakers(infos: seq<GpuInfo>, avail: seq<Word64>, reqs: seq<GpuRequirement>, sel: seq<SessionGpu>)
    requires |infos| == |avail| && IsFindResult(infos, avail, reqs, sel)
    ensures |sel| == |Takers(infos, avail, reqs)|
  {
    IndexSetSize(sel);
    assert IndexSet(sel) == Takers(infos, avail, reqs);
  }

  function IndexSet(sel: seq<SessionGpu>): set<nat> {
    set k | 0 <= k < |sel| :: sel[k].index
  }

  lemma {:induction false} IndexSetSize(sel: seq<SessionGpu>)
    requires DistinctIndices(sel)
    ensures |IndexSet(sel)| == |sel|
  {
    if sel != [] {
      var init, last := sel[..|sel| - 1], sel[|sel| - 1];
      IndexSetSize(init);
      IndexSetAppend(init, last);
      assert sel == init + [last];
    }
  }

  // ---- What the comment in Find intends, and when the loop without a break delivers it ----

  /** One distinct accepting GPU for each requirement, in order. */
  ghost predicate OnePerRequirement(infos: seq<GpuInfo>, avail: seq<Word64>, reqs: seq<GpuRequirement>,
                                    sel: seq<SessionGpu>)
    requires |infos| == |avail|
  {
    && |sel| == |reqs| && InRange(sel, |infos|) && DistinctIndices(sel)
    && forall k | 0 <= k < |sel| ::
         Accepts(infos[sel[k].index], avail[sel[k].index], reqs[k]) && sel[k].vramRequired == reqs[k].vramRequired
  }

  /** The GPUs whose first accepted requirement is number `r`. */
  function TakersOf(infos: seq<GpuInfo>, avail: seq<Word64>, reqs: seq<GpuRequirement>, r: nat): set<nat>
    requires |infos| == |avail|
  {
    set g: nat | g < |infos| && FirstMatch(infos[g], avail[g], reqs) == r
  }

  /** The loop takes as many GPUs as there are requirements iff exactly that many GPUs accept something. */
  lemma FindTakesOnePerRequirementIff(infos: seq<GpuInfo>, avail: seq<Word64>, reqs: seq<GpuRequirement>,
                                      sel: seq<SessionGpu>)
    requires |infos| == |avail| && IsFindResult(infos, avail, reqs, sel)
    ensures |sel| == |reqs| <==> |Takers(infos, avail, reqs)| == |reqs|
    ensures |sel| < |reqs| <==> |Takers(infos, avail, reqs)| < |reqs|
  {
    FindSizeIsTakers(infos, avail, reqs, sel);
  }

  lemma SingletonEqual<T>(s: set<T>, a: T, b: T)
    requires |s| == 1 && a in s && b in s
    ensures a == b
  {
    if a != b {
      assert {a, b} <= s;
      SubsetSize({a, b}, s);
    }
  }

  lemma {:induction false} SubsetSize<T>(a: set<T>, b: set<T>)
    requires a <= b
    ensures |a| <= |b|
    decreases a
  {
    if x :| x in a {
      SubsetSize(a - {x}, b - {x});
    }
  }

  /** The k-th GPU of a selection was taken for the k-th requirement. */
  ghost predicate ServedInOrder(infos: seq<GpuInfo>, avail: seq<Word64>, reqs: seq<GpuRequirement>,
                               sel: seq<SessionGpu>)
    requires |infos| == |avail| && InRange(sel, |infos|)
  {
    |sel| == |reqs| && forall k | 0 <= k < |sel| :: Rank(infos, avail, reqs, sel[k]) == k
  }

  /** Find serves each requirement with one GPU of its own exactly when every requirement is the first accepted one
      of exactly one GPU. */
  lemma FindServesEachIff(infos: seq<GpuInfo>, avail: seq<Word64>, reqs: seq<GpuRequirement>, sel: seq<SessionGpu>)
    requires |infos| == |avail| && IsFindResult(infos, avail, reqs, sel)
    ensures ServedInOrder(infos, avail, reqs, sel)
            <==> forall r: nat | r < |reqs| :: |TakersOf(infos, avail, reqs, r)| == 1
  {
    if forall r: nat | r < |reqs| :: |TakersOf(infos, avail, reqs, r)| == 1 {
      OneTakerEach(infos, avail, reqs, sel);
    }
    if ServedInOrder(infos, avail, reqs, sel) {
      forall r: nat | r < |reqs| ensures |TakersOf(infos, avail, reqs, r)| == 1 {
        OnlyTaker(infos, avail, reqs, sel, r);
      }
    }
  }

  lemma OnlyTaker(infos: seq<GpuInfo>, avail: seq<Word64>, reqs: seq<GpuRequirement>, sel: seq<SessionGpu>, r: nat)
    requires |infos| == |avail| && IsFindResult(infos, avail, reqs, sel)
    requires ServedInOrder(infos, avail, reqs, sel) && r < |reqs|
    ensures |TakersOf(infos, avail, reqs, r)| == 1
  {
    var g := sel[r].index;
    forall h ensures h in TakersOf(infos, avail, reqs, r) <==> h == g {
      if h in TakersOf(infos, avail, reqs, r) {
        var k :| 0 <= k < |sel| && sel[k].index == h;
        assert Rank(infos, avail, reqs, sel[k]) == r;
      }
    }
    assert TakersOf(infos, avail, reqs, r) == {g};
  }

  /** Under that condition Find's selection is the one the comment above it intends. */
  lemma FindMeetsIntent(infos: seq<GpuInfo>, avail: seq<Word64>, reqs: seq<GpuRequirement>, sel: seq<SessionGpu>)
    requires |infos| == |avail| && IsFindResult(infos, avail, reqs, sel)
    requires forall r: nat | r < |reqs| :: |TakersOf(infos, avail, reqs, r)| == 1
    ensures OnePerRequirement(infos, avail, reqs, sel)
  {
    OneTakerEach(infos, avail, reqs, sel);
    hide TakersOf;
  }

  lemma RanksRise(infos: seq<GpuInfo>, avail: seq<Word64>, reqs: seq<GpuRequirement>, sel: seq<SessionGpu>,
                  j: nat, k: nat)
    requires |infos| == |avail| && IsFindResult(infos, avail, reqs, sel) && j < k < |sel|
    requires forall r: nat | r < |reqs| :: |TakersOf(infos, avail, reqs, r)| == 1
    ensures Rank(infos, avail, reqs, sel[j]) < Rank(infos, avail, reqs, sel[k])
  {
    var r := Rank(infos, avail, reqs, sel[j]);
    if Rank(infos, avail, reqs, sel[k]) == r {
      SingletonEqual(TakersOf(infos, avail, reqs, r), sel[j].index, sel[k].index);
    }
  }

  lemma RankFound(infos: seq<GpuInfo>, avail: seq<Word64>, reqs: seq<GpuRequirement>, sel: seq<SessionGpu>, r: nat)
      returns (k: nat)
    requires |infos| == |avail| && IsFindResult(infos, avail, reqs, sel) && r < |reqs|
    requires |TakersOf(infos, avail, reqs, r)| == 1
    ensures k < |sel| && Rank(infos, avail, reqs, sel[k]) == r
  {
    var g :| g in TakersOf(infos, avail, reqs, r);
    k :| 0 <= k < |sel| && sel[k].index == g;
  }

  lemma OneTakerEach(infos: seq<GpuInfo>, avail: seq<Word64>, reqs: seq<GpuRequirement>, sel: seq<SessionGpu>)
    requires |infos| == |avail| && IsFindResult(infos, avail, reqs, sel)
    requires forall r: nat | r < |reqs| :: |TakersOf(infos, avail, reqs, r)| == 1
    ensures ServedInOrder(infos, avail, reqs, sel)
  {
    var ranks := seq(|sel|, k requires 0 <= k < |sel| => Rank(infos, avail, reqs, sel[k]));
    forall j, k | 0 <= j < k < |sel| ensures ranks[j] < ranks[k] {
      RanksRise(infos, avail, reqs, sel, j, k);
    }
    forall r: nat | r < |reqs| ensures r in ranks {
      var k := RankFound(infos, avail, reqs, sel, r);
      assert ranks[k] == r;
    }
    hide TakersOf, Rank;
    RanksAreIdentity(ranks, |reqs|);
    assert forall k :: 0 <= k < |sel| ==> ranks[k] == Rank(infos, avail, reqs, sel[k]);
  }

  lemma {:induction false} RanksAreIdentity(ranks: seq<nat>, n: nat)
    requires forall j, k :: 0 <= j < k < |ranks| ==> ranks[j] < ranks[k]
    requires forall k :: 0 <= k < |ranks| ==> ranks[k] < n
    requires forall r: nat | r < n :: r in ranks
    ensures |ranks| == n && forall k :: 0 <= k < n ==> ranks[k] == k
  {
    assert ranks != [] ==> ranks[0] < n;
    if n > 0 {
      assert n - 1 in ranks;
      var top := |ranks| - 1;
      assert ranks[top] == n - 1;
      forall r: nat | r < n - 1 ensures r in ranks[..top] {
        assert r in ranks;
      }
      RanksAreIdentity(ranks[..top], n - 1);
    }
  }

  /** One request for one GPU on a machine with two idle ones takes both. */
  lemma FindOverAllocates()
    ensures var infos := [GpuInfo(8, PciAddress(0, 1, 0, 0)), GpuInfo(8, PciAddress(0, 2, 0, 0))];
            var reqs := [GpuRequirement(4, None)];
            var sel := [SessionGpu(0, 4), SessionGpu(1, 4)];
            && IsFindResult(infos, [8, 8], reqs, sel)
            && |sel| >= |reqs|
            && !OnePerRequirement(infos, [8, 8], reqs, sel)
  {
    var infos := [GpuInfo(8, PciAddress(0, 1, 0, 0)), GpuInfo(8, PciAddress(0, 2, 0, 0))];
    var reqs := [GpuRequirement(4, None)];
    var sel := [SessionGpu(0, 4), SessionGpu(1, 4)];
    assert FirstMatch(infos[0], 8, reqs) == 0 && FirstMatch(infos[1], 8, reqs) == 0;
    hide FirstMatch, Accepts;
    assert sel[0].index == 0 && sel[1].index == 1;
  }

  // ---- Ledger: what all selections ever made still charge to a GPU ----

  /** One selection handed out by Find or Select. */
  datatype Ticket = Ticket(charges: seq<SessionGpu>, released: bool)

  function Outstanding(tickets: seq<Ticket>, i: nat): nat {
    if tickets == [] then 0
    else
      var t := tickets[|tickets| - 1];
      Outstanding(tickets[..|tickets| - 1], i) + (if t.released then 0 else Charge(t.charges, i))
  }

  lemma OutstandingIssue(tickets: seq<Ticket>, t: Ticket, i: nat)
    ensures Outstanding(tickets + [t], i) == Outstanding(tickets, i) + (if t.released then 0 else Charge(t.charges, i))
  {
    assert (tickets + [t])[..|tickets|] == tickets;
  }

  lemma {:induction false} OutstandingRelease(tickets: seq<Ticket>, k: nat, i: nat)
    requires k < |tickets| && !tickets[k].released
    ensures Outstanding(tickets, i) ==
            Outstanding(tickets[k := tickets[k].(released := true)], i) + Charge(tickets[k].charges, i)
  {
    var last := |tickets| - 1;
    var after := tickets[k := tickets[k].(released := true)];
    if k == last {
      assert after[..last] == tickets[..last];
    } else {
      OutstandingRelease(tickets[..last], k, i);
      assert after[..last] == tickets[..last][k := tickets[k].(released := true)];
    }
  }

  /** No GPU is promised more VRAM than it has. */
  ghost predicate WithinCapacity(infos: seq<GpuInfo>, tickets: seq<Ticket>) {
    forall i: nat | i < |infos| :: Outstanding(tickets, i) <= infos[i].vram
  }

  /** Find keeps every GPU within its capacity. */
  lemma FindKeepsCapacity(infos: seq<GpuInfo>, tickets: seq<Ticket>, reqs: seq<GpuRequirement>, sel: seq<SessionGpu>)
    requires WithinCapacity(infos, tickets)
    requires IsFindResult(infos, Free(infos, tickets), reqs, sel)
    ensures WithinCapacity(infos, tickets + [Ticket(sel, false)])
  {
    hide IsFindResult, Outstanding, Charge;
    forall i: nat | i < |infos| ensures Outstanding(tickets + [Ticket(sel, false)], i) <= infos[i].vram {
      OutstandingIssue(tickets, Ticket(sel, false), i);
      FindChargesWithinFree(infos, Free(infos, tickets), reqs, sel, i);
    }
  }

  /** The available VRAM each GPU shows: capacity less what is outstanding, modulo 2^64. */
  function Free(infos: seq<GpuInfo>, tickets: seq<Ticket>): (f: seq<Word64>)
    ensures |f| == |infos|
    ensures forall i :: 0 <= i < |infos| ==> f[i] == Wrap64(infos[i].vram - Outstanding(tickets, i))
  {
    seq(|infos|, i requires 0 <= i < |infos| => Wrap64(infos[i].vram - Outstanding(tickets, i)))
  }

  /** Every GPU less what a selection charges to it, as uint64 subtraction leaves it. */
  function Debited(avail: seq<Word64>, sel: seq<SessionGpu>): (r: seq<Word64>)
    ensures |r| == |avail|
  {
    seq(|avail|, i requires 0 <= i < |avail| => Wrap64(avail[i] - Charge(sel, i)))
  }

  function Credited(avail: seq<Word64>, sel: seq<SessionGpu>): (r: seq<Word64>)
    ensures |r| == |avail|
  {
    seq(|avail|, i requires 0 <= i < |avail| => Wrap64(avail[i] + Charge(sel, i)))
  }

  lemma ChargeStep(sel: seq<SessionGpu>, j: nat, i: nat)
    requires j < |sel|
    ensures Charge(sel[..j + 1], i) == Charge(sel[..j], i) + (if sel[j].index == i then sel[j].vramRequired else 0)
  {
    assert sel[..j + 1][..j] == sel[..j];
  }

  lemma DebitStep(avail: seq<Word64>, sel: seq<SessionGpu>, j: nat)
    requires j < |sel| && sel[j].index < |avail|
    ensures var g := sel[j].index;
            Debited(avail, sel[..j + 1])
            == Debited(avail, sel[..j])[g := Wrap64(Debited(avail, sel[..j])[g] - sel[j].vramRequired)]
  {
    var g := sel[j].index;
    forall i: nat | i < |avail| && i != g ensures Debited(avail, sel[..j + 1])[i] == Debited(avail, sel[..j])[i] {
      ChargeStep(sel, j, i);
    }
    ChargeStep(sel, j, g);
    WrapTwice(avail[g] - Charge(sel[..j], g), 0 - sel[j].vramRequired);
  }

  lemma CreditStep(avail: seq<Word64>, sel: seq<SessionGpu>, j: nat)
    requires j < |sel| && sel[j].index < |avail|
    ensures var g := sel[j].index;
            Credited(avail, sel[..j + 1])
            == Credited(avail, sel[..j])[g := Wrap64(Credited(avail, sel[..j])[g] + sel[j].vramRequired)]
  {
    var g := sel[j].index;
    forall i: nat | i < |avail| && i != g ensures Credited(avail, sel[..j + 1])[i] == Credited(avail, sel[..j])[i] {
      ChargeStep(sel, j, i);
    }
    ChargeStep(sel, j, g);
    WrapTwice(avail[g] + Charge(sel[..j], g), 0 + sel[j].vramRequired);
  }

  lemma FreeAfterIssue(infos: seq<GpuInfo>, tickets: seq<Ticket>, sel: seq<SessionGpu>)
    ensures Free(infos, tickets + [Ticket(sel, false)]) == Debited(Free(infos, tickets), sel)
  {
    forall i: nat | i < |infos|
      ensures Free(infos, tickets + [Ticket(sel, false)])[i] == Debited(Free(infos, tickets), sel)[i]
    {
      OutstandingIssue(tickets, Ticket(sel, false), i);
      WrapTwice(infos[i].vram - Outstanding(tickets, i), 0 - Charge(sel, i));
    }
  }

  lemma FreeAfterRelease(infos: seq<GpuInfo>, tickets: seq<Ticket>, k: nat)
    requires k < |tickets| && !tickets[k].released
    ensures Free(infos, tickets[k := tickets[k].(released := true)]) ==
            Credited(Free(infos, tickets), tickets[k].charges)
  {
    forall i: nat | i < |infos|
      ensures Free(infos, tickets[k := tickets[k].(released := true)])[i]
           == Credited(Free(infos, tickets), tickets[k].charges)[i]
    {
      OutstandingRelease(tickets, k, i);
      WrapTwice(infos[i].vram - Outstanding(tickets, i), Charge(tickets[k].charges, i));
    }
  }

  // ---- The selection loop of Find, one requirement and one GPU at a time ----

  /** The GPUs whose first accepted requirement is before number `r`. */
  function TakenBefore(infos: seq<GpuInfo>, avail: seq<Word64>, reqs: seq<GpuRequirement>, r: nat): set<nat>
    requires |infos| == |avail|
  {
    set g: nat | g < |infos| && FirstMatch(infos[g], avail[g], reqs) < r
  }

  /** A selection in which every entry was taken for a requirement before number `r`. */
  ghost predicate PartialFind(infos: seq<GpuInfo>, avail: seq<Word64>, reqs: seq<GpuRequirement>,
                              sel: seq<SessionGpu>, r: nat)
    requires |infos| == |avail|
  {
    && r <= |reqs|
    && InRange(sel, |infos|)
    && DistinctIndices(sel)
    && (forall k | 0 <= k < |sel| ::
          Rank(infos, avail, reqs, sel[k]) < r
          && sel[k].vramRequired == reqs[Rank(infos, avail, reqs, sel[k])].vramRequired)
    && (forall j, k | 0 <= j < k < |sel| ::
          Rank(infos, avail, reqs, sel[j]) <= Rank(infos, avail, reqs, sel[k]))
  }

  /** Taking one more GPU for requirement `r`. */
  lemma TakeGpu(infos: seq<GpuInfo>, avail: seq<Word64>, reqs: seq<GpuRequirement>, sel: seq<SessionGpu>,
                r: nat, g: nat)
    requires |infos| == |avail| && r < |reqs| && PartialFind(infos, avail, reqs, sel, r + 1)
    requires g < |infos| && g !in IndexSet(sel) && FirstMatch(infos[g], avail[g], reqs) == r
    ensures PartialFind(infos, avail, reqs, sel + [SessionGpu(g, reqs[r].vramRequired)], r + 1)
    ensures IndexSet(sel + [SessionGpu(g, reqs[r].vramRequired)]) == IndexSet(sel) + {g}
  {
    var c := SessionGpu(g, reqs[r].vramRequired);
    IndexSetAppend(sel, c);
    assert Rank(infos, avail, reqs, c) == r;
    forall j | 0 <= j < |sel| ensures sel[j].index != g {
      assert sel[j].index in IndexSet(sel);
    }
  }

  lemma IndexSetAppend(sel: seq<SessionGpu>, c: SessionGpu)
    ensures IndexSet(sel + [c]) == IndexSet(sel) + {c.index}
  {
    var after := sel + [c];
    assert after[|sel|] == c;
    forall i | i in IndexSet(sel) ensures i in IndexSet(after) {
      var k :| 0 <= k < |sel| && sel[k].index == i;
      assert after[k] == sel[k];
    }
  }

  lemma FindComplete(infos: seq<GpuInfo>, avail: seq<Word64>, reqs: seq<GpuRequirement>, sel: seq<SessionGpu>)
    requires |infos| == |avail| && PartialFind(infos, avail, reqs, sel, |reqs|)
    requires IndexSet(sel) == TakenBefore(infos, avail, reqs, |reqs|)
    ensures IsFindResult(infos, avail, reqs, sel)
  {
    forall g: nat | g < |infos|
      ensures FirstMatch(infos[g], avail[g], reqs) < |reqs| <==> exists k :: 0 <= k < |sel| && sel[k].index == g
    {
      assert g in IndexSet(sel) <==> g in TakenBefore(infos, avail, reqs, |reqs|);
    }
  }
}
