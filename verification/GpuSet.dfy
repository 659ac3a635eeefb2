/** The VRAM allocator of pkg/gpu: GPUs whose available VRAM is changed in place through shared
    references by Find, Select and Release. */
module GpuSets {
  import opened Words
  import opened GpuSpec

  class Gpu {
    const index: nat
    const info: GpuInfo
    var vramAvailable: Word64

    constructor (index: nat, info: GpuInfo)
      ensures this.index == index && this.info == info && vramAvailable == info.vram
    {
      this.index, this.info, vramAvailable := index, info, info.vram;
    }
  }

  datatype SelectedGpu = SelectedGpu(gpu: Gpu, vramRequired: Word64)

  /** The public form of a selection. */
  function Chosen(selected: seq<SelectedGpu>): (s: seq<SessionGpu>)
    ensures |s| == |selected|
    ensures forall k :: 0 <= k < |s| ==> s[k] == SessionGpu(selected[k].gpu.index, selected[k].vramRequired)
  {
    seq(|selected|, k requires 0 <= k < |selected| => SessionGpu(selected[k].gpu.index, selected[k].vramRequired))
  }

  class SelectedGpuSet {
    const gpus: seq<SelectedGpu>
    var released: bool

    constructor (gpus: seq<SelectedGpu>)
      ensures this.gpus == gpus && !released
    {
      this.gpus, released := gpus, false;
    }

    function GetGpus(): (s: seq<SessionGpu>)
      ensures |s| == |gpus|
      ensures forall k :: 0 <= k < |s| ==> s[k] == SessionGpu(gpus[k].gpu.index, gpus[k].vramRequired)
    {
      Chosen(gpus)
    }

    /** Give the VRAM back to each GPU of the selection, once for each entry. */
    method Release(ghost owner: GpuSet, ghost k: nat)
      requires owner.Valid() && k < |owner.issued| && owner.issued[k] == this
      requires !released
      modifies this, owner.gpus
      ensures released && owner.Valid()
      ensures owner.Tickets() == old(owner.Tickets())[k := Ticket(GetGpus(), true)]
    {
      ghost var tickets := owner.Tickets();
      assert owner.Owns(this);
      CreditEach(gpus, owner, GetGpus());
      released := true;
      FreeAfterRelease(owner.Infos(), tickets, k);
      assert owner.Tickets() == tickets[k := tickets[k].(released := true)];
    }
  }

  /** The entries name GPUs of the set by their places, and the VRAM each is charged. */
  ghost predicate Names(selected: seq<SelectedGpu>, owner: GpuSet, sel: seq<SessionGpu>) {
    && owner.Indexed() && |sel| == |selected|
    && (forall k :: 0 <= k < |sel| ==> sel[k] == SessionGpu(selected[k].gpu.index, selected[k].vramRequired))
    && (forall c | c in selected :: c.gpu.index < |owner.gpus| && owner.gpus[c.gpu.index] == c.gpu)
  }

  /** Return the VRAM of a selection to its GPUs, entry by entry. */
  method CreditEach(selected: seq<SelectedGpu>, ghost owner: GpuSet, ghost sel: seq<SessionGpu>)
    requires Names(selected, owner, sel) && |sel| == |selected|
    modifies owner.gpus
    ensures owner.Avail() == Credited(old(owner.Avail()), sel)
  {
    ghost var before := owner.Avail();
    assert Credited(before, []) == before;
    assert sel[..0] == [] && sel[..|sel|] == sel;
    hide Credited, Names;
    for j := 0 to |selected|
      invariant owner.Avail() == Credited(before, sel[..j])
    {
      CreditNext(selected, j, owner, sel, before);
    }
  }

  method CreditNext(selected: seq<SelectedGpu>, j: nat, ghost owner: GpuSet, ghost sel: seq<SessionGpu>,
                    ghost before: seq<Word64>)
    requires Names(selected, owner, sel) && j < |selected| == |sel| && |before| == |owner.gpus|
    requires owner.Avail() == Credited(before, sel[..j])
    modifies owner.gpus
    ensures owner.Avail() == Credited(before, sel[..j + 1])
  {
    hide Credited;
    assert selected[j] in selected;
    CreditStep(before, sel, j);
    CreditOne(selected[j].gpu, selected[j].vramRequired, owner);
  }

  method CreditOne(g: Gpu, vram: Word64, ghost owner: GpuSet)
    requires owner.Indexed() && g.index < |owner.gpus| && owner.gpus[g.index] == g
    modifies g
    ensures owner.Avail() == old(owner.Avail())[g.index := Wrap64(old(owner.Avail())[g.index] + vram)]
  {
    ghost var prev := owner.Avail();
    g.vramAvailable := Wrap64(g.vramAvailable + vram);
    owner.AvailWritten(prev, g.index);
  }

  class GpuSet {
    const gpus: seq<Gpu>
    /** Every selection handed out so far, released or not. */
    ghost var issued: seq<SelectedGpuSet>

    ghost predicate Indexed()
    {
      forall i :: 0 <= i < |gpus| ==> gpus[i].index == i
    }

    ghost predicate Owns(t: SelectedGpuSet)
    {
      forall c | c in t.gpus :: c.gpu.index < |gpus| && gpus[c.gpu.index] == c.gpu
    }

    ghost predicate Book()
      reads this
    {
      && Indexed()
      && (forall j, k :: 0 <= j < k < |issued| ==> issued[j] != issued[k])
      && (forall t | t in issued :: Owns(t))
    }

    /** Each GPU shows its capacity less every outstanding charge, modulo 2^64. */
    ghost predicate Valid()
      reads this, gpus, issued
    {
      Book() && Avail() == Free(Infos(), Tickets())
    }

    ghost function Tickets(): (ts: seq<Ticket>)
      reads this, issued
      ensures |ts| == |issued|
      ensures forall k :: 0 <= k < |ts| ==> ts[k] == Ticket(issued[k].GetGpus(), issued[k].released)
    {
      seq(|issued|, k requires 0 <= k < |issued| reads this, issued => Ticket(issued[k].GetGpus(), issued[k].released))
    }

    function Infos(): (s: seq<GpuInfo>)
      ensures |s| == |gpus|
      ensures forall k :: 0 <= k < |s| ==> s[k] == gpus[k].info
    {
      seq(|gpus|, i requires 0 <= i < |gpus| => gpus[i].info)
    }

    ghost function Avail(): (s: seq<Word64>)
      reads gpus
      ensures |s| == |gpus|
      ensures forall k :: 0 <= k < |s| ==> s[k] == gpus[k].vramAvailable
    {
      seq(|gpus|, i requires 0 <= i < |gpus| reads gpus => gpus[i].vramAvailable)
    }

    /** Writing one GPU changes one entry of Avail. */
    lemma AvailWritten(prev: seq<Word64>, g: nat)
      requires Indexed() && g < |gpus| == |prev|
      requires forall i :: 0 <= i < |gpus| && i != g ==> gpus[i].vramAvailable == prev[i]
      ensures Avail() == prev[g := gpus[g].vramAvailable]
    {
    }

    constructor (gpus: seq<Gpu>)
      requires forall i :: 0 <= i < |gpus| ==> gpus[i].index == i && gpus[i].vramAvailable == gpus[i].info.vram
      ensures Valid() && this.gpus == gpus && issued == []
    {
      this.gpus, issued := gpus, [];
    }

    /** A fresh set over an agent's GPUs, all of their VRAM available. */
    static method New(infos: seq<GpuInfo>) returns (s: GpuSet)
      ensures fresh(s) && fresh(s.gpus) && s.Valid()
      ensures s.Infos() == infos && s.Tickets() == []
    {
      var gpus: seq<Gpu> := [];
      for n := 0 to |infos|
        invariant |gpus| == n && fresh(gpus)
        invariant forall i :: 0 <= i < n ==> gpus[i].index == i && gpus[i].info == infos[i]
        invariant forall i :: 0 <= i < n ==> gpus[i].vramAvailable == infos[i].vram
      {
        var g := new Gpu(n, infos[n]);
        gpus := gpus + [g];
      }
      s := new GpuSet(gpus);
    }

    /** Charge a selection to its GPUs, entry by entry. */
    method Charge(selected: seq<SelectedGpu>, ghost sel: seq<SessionGpu>)
      requires Indexed() && |sel| == |selected|
      requires forall k :: 0 <= k < |sel| ==> sel[k] == SessionGpu(selected[k].gpu.index, selected[k].vramRequired)
      requires forall c | c in selected :: c.gpu.index < |gpus| && gpus[c.gpu.index] == c.gpu
      modifies gpus
      ensures Avail() == Debited(old(Avail()), sel)
    {
      ghost var before := Avail();
      assert Debited(before, []) == before;
      assert sel[..0] == [] && sel[..|sel|] == sel;
      hide Debited;
      for j := 0 to |selected|
        invariant Avail() == Debited(before, sel[..j])
      {
        DebitStep(before, sel, j);
        assert selected[j] in selected;
        ChargeOne(selected[j].gpu, selected[j].vramRequired);
      }
    }

    method ChargeOne(g: Gpu, vram: Word64)
      requires Indexed() && g.index < |gpus| && gpus[g.index] == g
      modifies g
      ensures Avail() == old(Avail())[g.index := Wrap64(old(Avail())[g.index] - vram)]
    {
      ghost var prev := Avail();
      g.vramAvailable := Wrap64(g.vramAvailable - vram);
      AvailWritten(prev, g.index);
    }

    /** Record a selection whose VRAM has just been charged. */
    ghost method Issue(r: SelectedGpuSet)
      requires Book() && Avail() == Debited(Free(Infos(), Tickets()), r.GetGpus())
      requires r !in issued && Owns(r) && !r.released
      modifies this
      ensures Valid() && issued == old(issued) + [r]
      ensures Tickets() == old(Tickets()) + [Ticket(r.GetGpus(), false)]
    {
      ghost var before := Tickets();
      issued := issued + [r];
      assert Tickets() == before + [Ticket(r.GetGpus(), false)];
      FreeAfterIssue(Infos(), before, r.GetGpus());
    }

    /** Charge a selection and hand it out. */
    method HandOut(selected: seq<SelectedGpu>, ghost sel: seq<SessionGpu>) returns (r: SelectedGpuSet)
      requires Valid() && Mirrors(selected, sel)
      modifies this, gpus
      ensures Valid() && fresh(r) && issued == old(issued) + [r] && r.GetGpus() == sel
      ensures Tickets() == old(Tickets()) + [Ticket(sel, false)]
    {
      Charge(selected, sel);
      r := new SelectedGpuSet(selected);
      assert r.GetGpus() == sel;
      Issue(r);
    }

    /** Charge the chosen GPUs, whether or not they have the VRAM. An empty choice or an index out
        of range panics in the original, so both are preconditions. */
    method Select(chosen: seq<SessionGpu>) returns (r: SelectedGpuSet)
      requires Valid() && chosen != [] && InRange(chosen, |gpus|)
      modifies this, gpus
      ensures Valid() && fresh(r) && issued == old(issued) + [r]
      ensures Tickets() == old(Tickets()) + [Ticket(chosen, false)]
    {
      var selected := seq(|chosen|, k requires 0 <= k < |chosen| =>
        SelectedGpu(gpus[chosen[k].index], chosen[k].vramRequired));
      r := HandOut(selected, chosen);
    }

    /** One pass of Find's inner loop: requirement `n` takes every unselected GPU that accepts it, in
        any order the map yields, because there is no break after a match. */
    method TakeMatching(requirements: seq<GpuRequirement>, n: nat, available0: map<nat, Gpu>,
                        selected0: seq<SelectedGpu>)
      returns (available: map<nat, Gpu>, selected: seq<SelectedGpu>)
      requires Indexed() && n < |requirements|
      requires PartialFind(Infos(), Avail(), requirements, Chosen(selected0), n)
      requires IndexSet(Chosen(selected0)) == TakenBefore(Infos(), Avail(), requirements, n)
      requires Owned(selected0) && Unselected(available0, Chosen(selected0))
      ensures PartialFind(Infos(), Avail(), requirements, Chosen(selected), n + 1)
      ensures IndexSet(Chosen(selected)) == TakenBefore(Infos(), Avail(), requirements, n + 1)
      ensures Owned(selected) && Unselected(available, Chosen(selected))
    {
      ghost var infos, avail, sel := Infos(), Avail(), Chosen(selected0);
      available, selected := available0, selected0;
      var todo := available.Keys;
      PassStarts(infos, avail, requirements, sel, n, todo);
      MirrorsChosen(selected0);
      hide PartialFind, TakenBefore, Accepts, Passing, Mirrors, Unselected, IndexSet, Owned;
      while todo != {}
        invariant todo <= available.Keys && Passing(infos, avail, requirements, sel, n, todo)
        invariant Mirrors(selected, sel) && Unselected(available, sel)
        decreases todo
      {
        var index :| index in todo;
        var gpu := available[index];
        UnselectedTake(available, sel, index, requirements[n].vramRequired);
        MirrorsTake(selected, sel, index, requirements[n].vramRequired);
        assert infos[index] == gpu.info && avail[index] == gpu.vramAvailable;
        PassOver(infos, avail, requirements, sel, n, todo, index);
        todo := todo - {index};
        if Accepts(gpu.info, gpu.vramAvailable, requirements[n]) {
          selected := selected + [SelectedGpu(gpu, requirements[n].vramRequired)];
          sel := sel + [SessionGpu(index, requirements[n].vramRequired)];
          available := available - {index};
        }
      }
      PassEnds(infos, avail, requirements, sel, n);
      ChosenMirrors(selected, sel);
    }

    /** The selection loops of Find. */
    method FindSelection(requirements: seq<GpuRequirement>) returns (selected: seq<SelectedGpu>)
      requires Indexed()
      ensures Owned(selected)
      ensures IsFindResult(Infos(), Avail(), requirements, Chosen(selected))
    {
      var available := map i: nat | i < |gpus| :: gpus[i];
      selected := [];
      assert Chosen([]) == [];
      for n := 0 to |requirements|
        invariant PartialFind(Infos(), Avail(), requirements, Chosen(selected), n)
        invariant IndexSet(Chosen(selected)) == TakenBefore(Infos(), Avail(), requirements, n)
        invariant Owned(selected) && Unselected(available, Chosen(selected))
      {
        available, selected := TakeMatching(requirements, n, available, selected);
      }
      FindComplete(Infos(), Avail(), requirements, Chosen(selected));
    }

    /** Choose GPUs for a non-empty requirement list and charge them; nothing is charged on failure. */
    method Find(requirements: seq<GpuRequirement>) returns (r: Option<SelectedGpuSet>)
      requires Valid() && requirements != []
      modifies this, gpus
      ensures Valid()
      ensures r.None? <==> |Takers(Infos(), old(Avail()), requirements)| < |requirements|
      ensures r.None? ==> issued == old(issued) && Tickets() == old(Tickets()) && Avail() == old(Avail())
      ensures r.Some? ==>
                && fresh(r.value) && issued == old(issued) + [r.value]
                && IsFindResult(Infos(), old(Avail()), requirements, r.value.GetGpus())
                && Tickets() == old(Tickets()) + [Ticket(r.value.GetGpus(), false)]
    {
      ghost var avail := Avail();
      var selected := FindSelection(requirements);
      FindTakesOnePerRequirementIff(Infos(), avail, requirements, Chosen(selected));
      MirrorsChosen(selected);
      if |selected| < |requirements| {
        return None;
      }
      var chosen := HandOut(selected, Chosen(selected));
      r := Some(chosen);
    }

    /** The loops as their comment intends them, with a break after a match: on success each requirement has one
        distinct GPU that accepts it, for every map order, and it fails only when the GPUs taken, one for each of the
        requirements before some one, leave none that accepts it. */
    method FindWithBreak(requirements: seq<GpuRequirement>) returns (r: Option<SelectedGpuSet>)
      requires Valid() && requirements != []
      modifies this, gpus
      ensures Valid()
      ensures r.None? ==> issued == old(issued) && Avail() == old(Avail())
      ensures r.None? ==> Starved(Infos(), old(Avail()), requirements)
      ensures r.Some? ==>
                && fresh(r.value) && issued == old(issued) + [r.value]
                && OnePerRequirement(Infos(), old(Avail()), requirements, r.value.GetGpus())
                && Tickets() == old(Tickets()) + [Ticket(r.value.GetGpus(), false)]
    {
      var selected := BreakSelection(requirements);
      MirrorsChosen(selected);
      if |selected| < |requirements| {
        return None;
      }
      var chosen := HandOut(selected, Chosen(selected));
      r := Some(chosen);
    }

    /** Some unselected GPU that accepts the requirement, if there is one; which one depends on the map. */
    method PickOne(available: map<nat, Gpu>, req: GpuRequirement) returns (found: Option<nat>)
      ensures found.Some? ==>
        && found.value in available
        && Accepts(available[found.value].info, available[found.value].vramAvailable, req)
      ensures found.None? ==> forall i | i in available :: !Accepts(available[i].info, available[i].vramAvailable, req)
    {
      var todo := available.Keys;
      while todo != {}
        invariant todo <= available.Keys
        invariant forall i | i in available && i !in todo ::
          !Accepts(available[i].info, available[i].vramAvailable, req)
        decreases todo
      {
        var index :| index in todo;
        todo := todo - {index};
        if Accepts(available[index].info, available[index].vramAvailable, req) {
          return Some(index);
        }
      }
      found := None;
    }

    method BreakSelection(requirements: seq<GpuRequirement>) returns (selected: seq<SelectedGpu>)
      requires Indexed()
      ensures Owned(selected) && |selected| <= |requirements|
      ensures if |selected| == |requirements| then OnePerRequirement(Infos(), Avail(), requirements, Chosen(selected))
              else Starved(Infos(), Avail(), requirements)
    {
      var available := map i: nat | i < |gpus| :: gpus[i];
      selected := [];
      ghost var infos, avail := Infos(), Avail();
      ghost var sel: seq<SessionGpu> := [];
      hide Mirrors, Owned, Unselected, IndexSet, Accepts, OnePerRequirement, Starved;
      OnePerNothing(infos, avail, requirements);
      NoneSelected(available);
      for n := 0 to |requirements|
        invariant |sel| <= n && Mirrors(selected, sel) && Unselected(available, sel)
        invariant if |sel| == n then OnePerRequirement(infos, avail, requirements[..n], sel)
                  else Starved(infos, avail, requirements)
      {
        var picked := PickOne(available, requirements[n]);
        if picked.None? && |sel| == n {
          NoneLeft(available, requirements, sel);
        }
        if picked.Some? {
          var gpu, vram := available[picked.value], requirements[n].vramRequired;
          UnselectedTake(available, sel, picked.value, vram);
          MirrorsTake(selected, sel, picked.value, vram);
          assert gpu.info == infos[picked.value] && gpu.vramAvailable == avail[picked.value];
          if |sel| == n {
            OnePerNext(infos, avail, requirements, sel, picked.value);
          }
          selected := selected + [SelectedGpu(gpu, vram)];
          sel := sel + [SessionGpu(picked.value, vram)];
          available := available - {picked.value};
        }
      }
      assert requirements[..|requirements|] == requirements;
      ChosenMirrors(selected, sel);
    }

    lemma NoneLeft(available: map<nat, Gpu>, reqs: seq<GpuRequirement>, sel: seq<SessionGpu>)
      requires Unselected(available, sel) && |sel| < |reqs|
      requires OnePerRequirement(Infos(), Avail(), reqs[..|sel|], sel)
      requires forall i | i in available :: !Accepts(available[i].info, available[i].vramAvailable, reqs[|sel|])
      ensures Starved(Infos(), Avail(), reqs)
    {
      hide OnePerRequirement, IndexSet, Accepts;
      forall g: nat | g < |gpus| && g !in IndexSet(sel) ensures !Accepts(Infos()[g], Avail()[g], reqs[|sel|]) {
        assert g in available;
      }
      assert Leaves(Infos(), Avail(), reqs, sel);
    }

    /** The selection is of this set's own GPUs. */
    ghost predicate Owned(selected: seq<SelectedGpu>)
    {
      forall c | c in selected :: c.gpu.index < |gpus| && gpus[c.gpu.index] == c.gpu
    }

    lemma MirrorsChosen(selected: seq<SelectedGpu>)
      requires Owned(selected)
      ensures Mirrors(selected, Chosen(selected))
    {
    }

    lemma ChosenMirrors(selected: seq<SelectedGpu>, sel: seq<SessionGpu>)
      requires Mirrors(selected, sel)
      ensures Owned(selected) && sel == Chosen(selected)
    {
    }

    ghost predicate Mirrors(selected: seq<SelectedGpu>, sel: seq<SessionGpu>)
    {
      && |selected| == |sel|
      && forall k :: 0 <= k < |sel| ==>
           && selected[k].gpu.index < |gpus| && gpus[selected[k].gpu.index] == selected[k].gpu
           && sel[k] == SessionGpu(selected[k].gpu.index, selected[k].vramRequired)
    }

    lemma NoneSelected(available: map<nat, Gpu>)
      requires available == map i: nat | i < |gpus| :: gpus[i]
      ensures Mirrors([], []) && Unselected(available, [])
    {
    }

    lemma MirrorsTake(selected: seq<SelectedGpu>, sel: seq<SessionGpu>, index: nat, vram: Word64)
      requires Indexed() && Mirrors(selected, sel) && index < |gpus|
      ensures Mirrors(selected + [SelectedGpu(gpus[index], vram)], sel + [SessionGpu(index, vram)])
    {
    }

    lemma UnselectedTake(available: map<nat, Gpu>, sel: seq<SessionGpu>, index: nat, vram: Word64)
      requires Unselected(available, sel) && index in available
      ensures index < |gpus| && index !in IndexSet(sel) && available[index] == gpus[index]
      ensures Unselected(available - {index}, sel + [SessionGpu(index, vram)])
    {
      IndexSetAppend(sel, SessionGpu(index, vram));
    }

    ghost predicate Unselected(available: map<nat, Gpu>, sel: seq<SessionGpu>)
    {
      && (forall i: nat :: i in available <==> i < |gpus| && i !in IndexSet(sel))
      && (forall i | i in available :: i < |gpus| && available[i] == gpus[i])
    }
  }

  /** One GPU for each requirement before some one, after which none is left that accepts it. */
  ghost predicate Starved(infos: seq<GpuInfo>, avail: seq<Word64>, reqs: seq<GpuRequirement>)
    requires |infos| == |avail|
  {
    exists sel ::
      && |sel| < |reqs| && OnePerRequirement(infos, avail, reqs[..|sel|], sel)
      && Leaves(infos, avail, reqs, sel)
  }

  predicate Leaves(infos: seq<GpuInfo>, avail: seq<Word64>, reqs: seq<GpuRequirement>, sel: seq<SessionGpu>)
    requires |infos| == |avail| && |sel| < |reqs|
  {
    forall g: nat | g < |infos| && g !in IndexSet(sel) :: !Accepts(infos[g], avail[g], reqs[|sel|])
  }

  /** What success of the loops with a break means, by the fields. */
  lemma OneEachMeets(infos: seq<GpuInfo>, avail: seq<Word64>, reqs: seq<GpuRequirement>, sel: seq<SessionGpu>)
    requires |infos| == |avail| && OnePerRequirement(infos, avail, reqs, sel)
    ensures |sel| == |reqs| && forall j, k | 0 <= j < k < |sel| :: sel[j].index != sel[k].index
    ensures forall k | 0 <= k < |sel| ::
              && sel[k].index < |infos| && sel[k].vramRequired == reqs[k].vramRequired <= avail[sel[k].index]
              && (reqs[k].pci == None || reqs[k].pci == Some(infos[sel[k].index].pci))
  {
    forall k | 0 <= k < |sel| ensures Accepts(infos[sel[k].index], avail[sel[k].index], reqs[k]) {
    }
  }

  /** What failure means: a GPU for each requirement before some one, and no other GPU for that. */
  lemma StarvedMeets(infos: seq<GpuInfo>, avail: seq<Word64>, reqs: seq<GpuRequirement>) returns (sel: seq<SessionGpu>)
    requires |infos| == |avail| && Starved(infos, avail, reqs)
    ensures |sel| < |reqs| && forall j, k | 0 <= j < k < |sel| :: sel[j].index != sel[k].index
    ensures forall k | 0 <= k < |sel| ::
              && sel[k].index < |infos| && reqs[k].vramRequired <= avail[sel[k].index]
              && (reqs[k].pci == None || reqs[k].pci == Some(infos[sel[k].index].pci))
    ensures forall g: nat | g < |infos| && forall k | 0 <= k < |sel| :: sel[k].index != g ::
              reqs[|sel|].vramRequired > avail[g]
              || (reqs[|sel|].pci.Some? && reqs[|sel|].pci.value != infos[g].pci)
  {
    sel :| |sel| < |reqs| && OnePerRequirement(infos, avail, reqs[..|sel|], sel) && Leaves(infos, avail, reqs, sel);
    OneEachMeets(infos, avail, reqs[..|sel|], sel);
    forall g: nat | g < |infos| && forall k | 0 <= k < |sel| :: sel[k].index != g
      ensures !Accepts(infos[g], avail[g], reqs[|sel|])
    {
      assert g !in IndexSet(sel);
    }
  }

  lemma OnePerNothing(infos: seq<GpuInfo>, avail: seq<Word64>, reqs: seq<GpuRequirement>)
    requires |infos| == |avail|
    ensures OnePerRequirement(infos, avail, reqs[..0], [])
  {
  }

  lemma OnePerNext(infos: seq<GpuInfo>, avail: seq<Word64>, reqs: seq<GpuRequirement>, sel: seq<SessionGpu>, g: nat)
    requires |infos| == |avail| && |sel| < |reqs| && OnePerRequirement(infos, avail, reqs[..|sel|], sel)
    requires g < |infos| && g !in IndexSet(sel) && Accepts(infos[g], avail[g], reqs[|sel|])
    ensures OnePerRequirement(infos, avail, reqs[..|sel| + 1], sel + [SessionGpu(g, reqs[|sel|].vramRequired)])
  {
    hide Accepts;
    forall j | 0 <= j < |sel| ensures sel[j].index != g {
      assert sel[j].index in IndexSet(sel);
    }
  }

  /** One requirement's pass with the GPUs of `todo` still to be looked at. */
  ghost predicate Passing(infos: seq<GpuInfo>, avail: seq<Word64>, reqs: seq<GpuRequirement>, sel: seq<SessionGpu>,
                          n: nat, todo: set<nat>)
    requires |infos| == |avail|
  {
    && PartialFind(infos, avail, reqs, sel, n + 1)
    && TakenBefore(infos, avail, reqs, n) <= IndexSet(sel)
    && TakenBefore(infos, avail, reqs, n + 1) - todo <= IndexSet(sel)
  }

  lemma PassStarts(infos: seq<GpuInfo>, avail: seq<Word64>, reqs: seq<GpuRequirement>, sel: seq<SessionGpu>,
                   n: nat, todo: set<nat>)
    requires |infos| == |avail| && n < |reqs| && PartialFind(infos, avail, reqs, sel, n)
    requires IndexSet(sel) == TakenBefore(infos, avail, reqs, n)
    requires forall g: nat | g < |infos| && g !in IndexSet(sel) :: g in todo
    ensures Passing(infos, avail, reqs, sel, n, todo)
  {
  }

  lemma PassOver(infos: seq<GpuInfo>, avail: seq<Word64>, reqs: seq<GpuRequirement>, sel: seq<SessionGpu>,
                 n: nat, todo: set<nat>, g: nat)
    requires |infos| == |avail| && n < |reqs| && Passing(infos, avail, reqs, sel, n, todo)
    requires g < |infos| && g !in IndexSet(sel)
    ensures var sel' := sel + [SessionGpu(g, reqs[n].vramRequired)];
      if Accepts(infos[g], avail[g], reqs[n])
      then Passing(infos, avail, reqs, sel', n, todo - {g}) && IndexSet(sel') == IndexSet(sel) + {g}
      else Passing(infos, avail, reqs, sel, n, todo - {g})
  {
    assert g !in TakenBefore(infos, avail, reqs, n);
    if Accepts(infos[g], avail[g], reqs[n]) {
      FirstHere(infos[g], avail[g], reqs, n);
      TakeGpu(infos, avail, reqs, sel, n, g);
    }
    hide PartialFind, Accepts;
  }

  lemma FirstHere(info: GpuInfo, avail: Word64, reqs: seq<GpuRequirement>, n: nat)
    requires n < |reqs| && FirstMatch(info, avail, reqs) >= n && Accepts(info, avail, reqs[n])
    ensures FirstMatch(info, avail, reqs) == n
  {
  }

  lemma PassEnds(infos: seq<GpuInfo>, avail: seq<Word64>, reqs: seq<GpuRequirement>, sel: seq<SessionGpu>, n: nat)
    requires |infos| == |avail| && Passing(infos, avail, reqs, sel, n, {})
    ensures PartialFind(infos, avail, reqs, sel, n + 1) && IndexSet(sel) == TakenBefore(infos, avail, reqs, n + 1)
  {
    hide PartialFind;
    SelTakenBefore(infos, avail, reqs, sel, n + 1);
  }

  lemma SelTakenBefore(infos: seq<GpuInfo>, avail: seq<Word64>, reqs: seq<GpuRequirement>, sel: seq<SessionGpu>, r: nat)
    requires |infos| == |avail| && PartialFind(infos, avail, reqs, sel, r)
    requires TakenBefore(infos, avail, reqs, r) <= IndexSet(sel)
    ensures IndexSet(sel) == TakenBefore(infos, avail, reqs, r)
  {
    forall i | i in IndexSet(sel) ensures i in TakenBefore(infos, avail, reqs, r) {
      var k :| 0 <= k < |sel| && sel[k].index == i;
      assert Rank(infos, avail, reqs, sel[k]) < r;
    }
  }
}
