/** The pooled doubly linked list: a live chain and a free chain over the slots of the list's own blocks. A node
    is referred to by the number of its slot, so two references are the same node when their numbers are. */
module LinkedLists {
  import opened Words

  const BLOCK: nat := 64

  datatype Ptr = Nil | To(slot: nat)

  datatype Node<T> = Node(data: T, N: Ptr, P: Ptr)

  function SetN<T>(nodes: seq<Node<T>>, k: nat, q: Ptr): (m: seq<Node<T>>)
    requires k < |nodes|
    ensures |m| == |nodes| && m[k] == nodes[k].(N := q)
    ensures forall j {:trigger m[j]} :: 0 <= j < |nodes| && j != k ==> m[j] == nodes[j]
  {
    nodes[k := nodes[k].(N := q)]
  }

  function SetP<T>(nodes: seq<Node<T>>, k: nat, q: Ptr): (m: seq<Node<T>>)
    requires k < |nodes|
    ensures |m| == |nodes| && m[k] == nodes[k].(P := q)
    ensures forall j {:trigger m[j]} :: 0 <= j < |nodes| && j != k ==> m[j] == nodes[j]
  {
    nodes[k := nodes[k].(P := q)]
  }

  function SetData<T>(nodes: seq<Node<T>>, k: nat, x: T): (m: seq<Node<T>>)
    requires k < |nodes|
    ensures |m| == |nodes| && m[k] == nodes[k].(data := x)
    ensures forall j {:trigger m[j]} :: 0 <= j < |nodes| && j != k ==> m[j] == nodes[j]
  {
    nodes[k := nodes[k].(data := x)]
  }

  /** A reference to place `i` of a chain, nil off either end. */
  function Ref(s: seq<nat>, i: int): Ptr {
    if 0 <= i < |s| then To(s[i]) else Nil
  }

  ghost predicate InRange<T>(nodes: seq<Node<T>>, s: seq<nat>) {
    forall i {:trigger s[i]} | 0 <= i < |s| :: s[i] < |nodes|
  }

  /** A live chain: linked both ways, nil at both ends. */
  ghost predicate LiveChain<T>(nodes: seq<Node<T>>, s: seq<nat>) {
    && InRange(nodes, s)
    && forall i {:trigger nodes[s[i]]} | 0 <= i < |s| ::
      nodes[s[i]].P == Ref(s, i - 1) && nodes[s[i]].N == Ref(s, i + 1)
  }

  /** A free chain: linked both ways, but what the N of its last node holds is left open, it may be stale. */
  ghost predicate FreeChain<T>(nodes: seq<Node<T>>, s: seq<nat>) {
    && InRange(nodes, s)
    && forall i {:trigger nodes[s[i]]} | 0 <= i < |s| ::
      nodes[s[i]].P == Ref(s, i - 1) && (i + 1 < |s| ==> nodes[s[i]].N == To(s[i + 1]))
  }

  /** The elements a chain holds. */
  ghost predicate Holds<T>(nodes: seq<Node<T>>, s: seq<nat>, contents: seq<T>) {
    && InRange(nodes, s) && |contents| == |s|
    && forall i {:trigger nodes[s[i]]} | 0 <= i < |s| :: nodes[s[i]].data == contents[i]
  }

  /** The two chains with the elements of the live one and the ends of the free one. */
  ghost predicate Linked<T>(nodes: seq<Node<T>>, live: seq<nat>, free: seq<nat>, contents: seq<T>,
                            freeHead: Ptr, freeTail: Ptr) {
    && LiveChain(nodes, live) && FreeChain(nodes, free) && Holds(nodes, live, contents)
    && freeHead == Ref(free, 0) && freeTail == Ref(free, |free| - 1)
  }

  /** What the N of the last free node holds. */
  ghost function EndN<T>(nodes: seq<Node<T>>, free: seq<nat>): Ptr {
    if free != [] && free[|free| - 1] < |nodes| then nodes[free[|free| - 1]].N else Nil
  }

  /** The N of the last free node is nil, or was left behind by a removal and leads to another node. */
  ghost predicate EndOk<T>(nodes: seq<Node<T>>, free: seq<nat>, removals: nat) {
    match EndN(nodes, free)
    case Nil => true
    case To(j) => removals > 0 && j < |nodes| && j != free[|free| - 1]
  }

  lemma EndStays<T>(nodes: seq<Node<T>>, free: seq<nat>, m: seq<Node<T>>, rest: seq<nat>, removals: nat)
    requires EndOk(nodes, free, removals) && |m| == |nodes| && EndN(m, rest) == EndN(nodes, free)
    requires free != [] && rest != [] ==> rest[|rest| - 1] == free[|free| - 1]
    ensures EndOk(m, rest, removals)
  {
  }

  lemma FirstN<T>(nodes: seq<Node<T>>, free: seq<nat>)
    requires FreeChain(nodes, free) && free != []
    ensures free[0] < |nodes| && nodes[free[0]].N == if |free| == 1 then EndN(nodes, free) else To(free[1])
  {
    assert nodes[free[0]] == nodes[free[0]];
  }

  ghost predicate Distinct(s: seq<nat>) {
    forall i, j :: 0 <= i < j < |s| ==> s[i] != s[j]
  }

  /** `live`, `free` and `taken` share no slot and are exactly the first `capacity` slots. */
  ghost predicate Partition(live: seq<nat>, free: seq<nat>, taken: set<nat>, capacity: nat) {
    && Distinct(live) && Distinct(free)
    && (forall k: nat :: k in live ==> k !in free && k !in taken)
    && (forall k: nat :: k in free ==> k !in taken)
    && (forall k: nat :: k < capacity <==> k in live || k in free || k in taken)
    && |live| + |free| + |taken| == capacity
  }

  /** Slot `k` is at no place of chain `s` other than `p`. */
  ghost predicate OnlyAt(s: seq<nat>, k: nat, p: int) {
    forall i | 0 <= i < |s| && i != p :: s[i] != k
  }

  lemma FreeOnlyAt(live: seq<nat>, free: seq<nat>, taken: set<nat>, capacity: nat, p: nat)
    requires Partition(live, free, taken, capacity) && p < |free|
    ensures OnlyAt(live, free[p], -1) && OnlyAt(free, free[p], p) && free[p] < capacity
  {
    assert free[p] in free;
  }

  lemma LiveOnlyAt(live: seq<nat>, free: seq<nat>, taken: set<nat>, capacity: nat, p: nat)
    requires Partition(live, free, taken, capacity) && p < |live|
    ensures OnlyAt(live, live[p], p) && OnlyAt(free, live[p], -1) && live[p] < capacity
  {
    assert live[p] in live;
  }

  lemma TakenOnlyAt(live: seq<nat>, free: seq<nat>, capacity: nat, k: nat)
    requires Partition(live, free, {k}, capacity)
    ensures OnlyAt(live, k, -1) && OnlyAt(free, k, -1) && k < capacity
  {
    forall i | 0 <= i < |live| ensures live[i] != k {
      assert live[i] in live;
    }
    forall i | 0 <= i < |free| ensures free[i] != k {
      assert free[i] in free;
    }
    assert k in {k};
  }

  /** A new block: `n` slots on from `capacity`, in order. */
  function Block(capacity: nat, n: nat): (s: seq<nat>)
    ensures |s| == n && forall i :: 0 <= i < n ==> s[i] == capacity + i
  {
    seq(n, i requires 0 <= i => capacity + i)
  }

  lemma PartitionGrow(live: seq<nat>, free: seq<nat>, capacity: nat, n: nat)
    requires Partition(live, free, {}, capacity)
    ensures Partition(live, free + Block(capacity, n), {}, capacity + n)
  {
    var b := Block(capacity, n);
    forall i | 0 <= i < |free| ensures free[i] < capacity {
      assert free[i] in free;
    }
    forall k: nat ensures k in free + b <==> k in free || capacity <= k < capacity + n {
      if capacity <= k < capacity + n {
        assert b[k - capacity] == k;
      }
    }
  }

  lemma PartitionPop(live: seq<nat>, free: seq<nat>, capacity: nat)
    requires Partition(live, free, {}, capacity) && free != []
    ensures Partition(live, free[1..], {free[0]}, capacity)
  {
    assert forall k: nat :: k in free <==> k == free[0] || k in free[1..];
  }

  lemma PartitionAppend(live: seq<nat>, free: seq<nat>, capacity: nat, k: nat)
    requires Partition(live, free, {k}, capacity)
    ensures Partition(live + [k], free, {}, capacity)
  {
    assert forall j: nat :: j in live + [k] <==> j in live || j == k;
  }

  lemma TakeNext<X>(before: seq<X>, s: seq<X>, i: nat)
    requires i < |s|
    ensures before + s[..i + 1] == before + s[..i] + [s[i]]
  {
  }

  /** A sequence without its place `p`. */
  function Without<X>(s: seq<X>, p: nat): (r: seq<X>)
    requires p < |s|
    ensures |r| == |s| - 1
    ensures forall i | 0 <= i < |r| :: r[i] == if i < p then s[i] else s[i + 1]
  {
    s[..p] + s[p + 1..]
  }

  lemma PartitionTake(live: seq<nat>, free: seq<nat>, capacity: nat, p: nat)
    requires Partition(live, free, {}, capacity) && p < |live|
    ensures Partition(Without(live, p), free, {live[p]}, capacity)
  {
    var left := Without(live, p);
    forall j: nat ensures j in left <==> j in live && j != live[p] {
      if j in live && j != live[p] {
        var i :| 0 <= i < |live| && live[i] == j;
        assert left[if i < p then i else i - 1] == j;
      }
    }
    assert live[p] in live;
  }

  lemma PartitionReturn(live: seq<nat>, free: seq<nat>, capacity: nat, k: nat)
    requires Partition(live, free, {k}, capacity)
    ensures Partition(live, free + [k], {}, capacity)
  {
    assert forall j: nat :: j in free + [k] <==> j in free || j == k;
  }

  /** Taking the first free node keeps both chains. */
  lemma PopLinks<T>(nodes: seq<Node<T>>, live: seq<nat>, free: seq<nat>, contents: seq<T>) returns (m: seq<Node<T>>)
    requires LiveChain(nodes, live) && FreeChain(nodes, free) && Holds(nodes, live, contents) && |free| >= 2
    requires OnlyAt(live, free[0], -1) && OnlyAt(free, free[0], 0)
    requires OnlyAt(live, free[1], -1) && OnlyAt(free, free[1], 1)
    ensures free[0] < |nodes| && free[1] < |nodes| && nodes[free[0]].N == To(free[1])
    ensures m == SetP(SetN(SetP(nodes, free[1], Nil), free[0], Nil), free[0], Nil)
    ensures LiveChain(m, live) && FreeChain(m, free[1..]) && Holds(m, live, contents)
    ensures m[free[0]].N == m[free[0]].P == Nil && EndN(m, free[1..]) == EndN(nodes, free)
  {
    hide SetN, SetP;
    FirstN(nodes, free);
    assert free[1] < |nodes| && free[0] != free[1];
    m := SetP(SetN(SetP(nodes, free[1], Nil), free[0], Nil), free[0], Nil);
    assert m[free[1]] == nodes[free[1]].(P := Nil);
    assert forall j {:trigger m[j]} | 0 <= j < |nodes| && j != free[0] && j != free[1] :: m[j] == nodes[j];
    hide LiveChain, FreeChain, Holds, OnlyAt, EndN;
    LiveUntouched(nodes, m, live, contents, free[0], free[1]);
    PopRest(nodes, m, free);
  }

  /** A live chain whose nodes are as they were. */
  lemma LiveUntouched<T>(nodes: seq<Node<T>>, m: seq<Node<T>>, live: seq<nat>, contents: seq<T>, a: nat, b: nat)
    requires LiveChain(nodes, live) && Holds(nodes, live, contents) && |m| == |nodes|
    requires OnlyAt(live, a, -1) && OnlyAt(live, b, -1)
    requires forall j {:trigger m[j]} | 0 <= j < |nodes| && j != a && j != b :: m[j] == nodes[j]
    ensures LiveChain(m, live) && Holds(m, live, contents)
  {
  }

  /** A free chain without its first node, whose successor has become the first. */
  lemma PopRest<T>(nodes: seq<Node<T>>, m: seq<Node<T>>, free: seq<nat>)
    requires FreeChain(nodes, free) && |free| >= 2 && |m| == |nodes|
    requires OnlyAt(free, free[0], 0) && OnlyAt(free, free[1], 1)
    requires free[1] < |nodes| && m[free[1]] == nodes[free[1]].(P := Nil)
    requires forall j {:trigger m[j]} | 0 <= j < |nodes| && j != free[0] && j != free[1] :: m[j] == nodes[j]
    ensures FreeChain(m, free[1..]) && EndN(m, free[1..]) == EndN(nodes, free)
  {
    var rest := free[1..];
    forall i | 0 <= i < |rest|
      ensures rest[i] < |m| && m[rest[i]].P == Ref(rest, i - 1)
      ensures m[rest[i]].N == nodes[free[i + 1]].N && (i + 1 < |rest| ==> m[rest[i]].N == To(rest[i + 1]))
    {
      assert rest[i] == free[i + 1] && nodes[free[i + 1]].P == Ref(free, i);
    }
  }

  /** Linking a taken node behind the live tail keeps both chains and appends its element. */
  lemma AppendLinks<T>(nodes: seq<Node<T>>, live: seq<nat>, free: seq<nat>, contents: seq<T>, k: nat, x: T)
      returns (m: seq<Node<T>>)
    requires LiveChain(nodes, live) && FreeChain(nodes, free) && Holds(nodes, live, contents)
    requires k < |nodes| && nodes[k].N == Nil && OnlyAt(live, k, -1) && OnlyAt(free, k, -1)
    requires live != [] ==> OnlyAt(live, live[|live| - 1], |live| - 1) && OnlyAt(free, live[|live| - 1], -1)
    ensures m == (var m0 := SetP(SetData(nodes, k, x), k, Ref(live, |live| - 1));
                  if live != [] then SetN(m0, live[|live| - 1], To(k)) else m0)
    ensures LiveChain(m, live + [k]) && FreeChain(m, free) && Holds(m, live + [k], contents + [x])
    ensures EndN(m, free) == EndN(nodes, free)
  {
    hide SetN, SetP, SetData;
    m := SetP(SetData(nodes, k, x), k, Ref(live, |live| - 1));
    if live != [] {
      m := SetN(m, live[|live| - 1], To(k));
    }
    var all := live + [k];
    assert forall i | 0 <= i < |live| :: all[i] == live[i];
  }

  lemma RefAppend(live: seq<nat>, k: nat)
    ensures Ref(live + [k], 0) == if live == [] then To(k) else Ref(live, 0)
    ensures (Ref(live, |live| - 1) == Nil) == (live == [])
    ensures live != [] ==> Ref(live, |live| - 1) == To(live[|live| - 1])
  {
  }

  /** The ends of a chain without its place `p`. */
  lemma WithoutEnds(live: seq<nat>, p: nat)
    requires p < |live|
    ensures Ref(Without(live, p), 0) == if Ref(live, p - 1) == Nil then Ref(live, p + 1) else Ref(live, 0)
    ensures Ref(Without(live, p), |live| - 2) ==
            if Ref(live, p + 1) == Nil then Ref(live, p - 1) else Ref(live, |live| - 1)
    ensures Ref(Without(live, p), p) == Ref(live, p + 1)
  {
  }

  /** The links and elements of a live chain whose neighbours of place `p` point past it. */
  ghost predicate PassesOver<T>(m: seq<Node<T>>, live: seq<nat>, contents: seq<T>, p: nat)
    requires |contents| == |live|
  {
    && InRange(m, live)
    && forall j {:trigger m[live[j]]} | 0 <= j < |live| && j != p ::
      && m[live[j]].data == contents[j]
      && m[live[j]].N == (if j + 1 == p then Ref(live, p + 1) else Ref(live, j + 1))
      && m[live[j]].P == (if j == p + 1 then Ref(live, p - 1) else Ref(live, j - 1))
  }

  /** Unlinking the live node at `p` keeps both chains. */
  lemma UnlinkLinks<T>(nodes: seq<Node<T>>, live: seq<nat>, free: seq<nat>, contents: seq<T>, p: nat)
      returns (m: seq<Node<T>>)
    requires LiveChain(nodes, live) && FreeChain(nodes, free) && Holds(nodes, live, contents) && p < |live|
    requires OnlyAt(live, live[p], p)
    requires p > 0 ==> OnlyAt(live, live[p - 1], p - 1) && OnlyAt(free, live[p - 1], -1)
    requires p + 1 < |live| ==> OnlyAt(live, live[p + 1], p + 1) && OnlyAt(free, live[p + 1], -1)
    ensures Ref(live, p - 1) == Nil || Ref(live, p - 1).slot < |nodes|
    ensures Ref(live, p + 1) == Nil || Ref(live, p + 1).slot < |nodes|
    ensures m ==
            (var m0 := if Ref(live, p - 1) == Nil then nodes else SetN(nodes, Ref(live, p - 1).slot, Ref(live, p + 1));
             if Ref(live, p + 1) == Nil then m0 else SetP(m0, Ref(live, p + 1).slot, Ref(live, p - 1)))
    ensures LiveChain(m, Without(live, p)) && FreeChain(m, free) && Holds(m, Without(live, p), Without(contents, p))
    ensures EndN(m, free) == EndN(nodes, free)
    ensures live[p] < |nodes| && m[live[p]] == nodes[live[p]]
    ensures nodes[live[p]].P == Ref(live, p - 1) && nodes[live[p]].N == Ref(live, p + 1)
  {
    hide SetN, SetP;
    m := nodes;
    if p > 0 {
      m := SetN(m, live[p - 1], Ref(live, p + 1));
    }
    if p + 1 < |live| {
      m := SetP(m, live[p + 1], Ref(live, p - 1));
    }
    assert FreeChain(m, free) && EndN(m, free) == EndN(nodes, free);
    assert PassesOver(m, live, contents, p);
    assert live[p] < |nodes| && m[live[p]] == nodes[live[p]];
    hide FreeChain, OnlyAt;
    WithoutChain(m, live, contents, p);
  }

  /** A chain whose links pass over place `p` is the chain without it. */
  lemma WithoutChain<T>(m: seq<Node<T>>, live: seq<nat>, contents: seq<T>, p: nat)
    requires p < |live| == |contents| && PassesOver(m, live, contents, p)
    ensures LiveChain(m, Without(live, p)) && Holds(m, Without(live, p), Without(contents, p))
  {
    var rest := Without(live, p);
    forall i | 0 <= i < |rest|
      ensures rest[i] < |m| && m[rest[i]].P == Ref(rest, i - 1) && m[rest[i]].N == Ref(rest, i + 1)
      ensures m[rest[i]].data == Without(contents, p)[i]
    {
      var j := if i < p then i else i + 1;
      assert rest[i] == live[j] && m[live[j]].data == contents[j];
    }
  }

  /** What taking the live node at `p` out does to the chains, their ends and the partition. */
  lemma UnlinkStep<T>(nodes: seq<Node<T>>, live: seq<nat>, free: seq<nat>, contents: seq<T>, p: nat)
      returns (m: seq<Node<T>>, left: seq<nat>, rest: seq<T>)
    requires LiveChain(nodes, live) && FreeChain(nodes, free) && Holds(nodes, live, contents) && p < |live|
    requires Partition(live, free, {}, |nodes|)
    ensures |contents| == |live| && left == Without(live, p) && rest == Without(contents, p)
    ensures live[p] < |nodes| && nodes[live[p]].P == Ref(live, p - 1) && nodes[live[p]].N == Ref(live, p + 1)
    ensures Ref(live, p - 1) == Nil || Ref(live, p - 1).slot < |nodes|
    ensures Ref(live, p + 1) == Nil || Ref(live, p + 1).slot < |nodes|
    ensures m ==
            (var m0 := if Ref(live, p - 1) == Nil then nodes else SetN(nodes, Ref(live, p - 1).slot, Ref(live, p + 1));
             if Ref(live, p + 1) == Nil then m0 else SetP(m0, Ref(live, p + 1).slot, Ref(live, p - 1)))
    ensures m[live[p]] == nodes[live[p]]
    ensures LiveChain(m, left) && FreeChain(m, free) && Holds(m, left, rest) && EndN(m, free) == EndN(nodes, free)
    ensures Partition(left, free, {live[p]}, |nodes|)
    ensures Ref(left, 0) == if Ref(live, p - 1) == Nil then Ref(live, p + 1) else Ref(live, 0)
    ensures Ref(left, |left| - 1) == if Ref(live, p + 1) == Nil then Ref(live, p - 1) else Ref(live, |live| - 1)
    ensures Ref(left, p) == Ref(live, p + 1)
  {
    assert |contents| == |live|;
    hide Partition, LiveChain, FreeChain, Holds, OnlyAt, SetN, SetP;
    LiveOnlyAt(live, free, {}, |nodes|, p);
    if p > 0 {
      LiveOnlyAt(live, free, {}, |nodes|, p - 1);
    }
    if p + 1 < |live| {
      LiveOnlyAt(live, free, {}, |nodes|, p + 1);
    }
    PartitionTake(live, free, |nodes|, p);
    m := UnlinkLinks(nodes, live, free, contents, p);
    left, rest := Without(live, p), Without(contents, p);
    WithoutEnds(live, p);
  }

  /** Linking a node behind the free tail keeps both chains; its own N stays as it was. */
  lemma FreeLinks<T>(nodes: seq<Node<T>>, live: seq<nat>, free: seq<nat>, contents: seq<T>, k: nat)
      returns (m: seq<Node<T>>)
    requires LiveChain(nodes, live) && FreeChain(nodes, free) && Holds(nodes, live, contents)
    requires k < |nodes| && OnlyAt(live, k, -1) && OnlyAt(free, k, -1)
    requires free != [] ==> OnlyAt(live, free[|free| - 1], -1) && OnlyAt(free, free[|free| - 1], |free| - 1)
    ensures m == (var m0 := SetP(nodes, k, Ref(free, |free| - 1));
                  if free != [] then SetN(m0, free[|free| - 1], To(k)) else m0)
    ensures LiveChain(m, live) && FreeChain(m, free + [k]) && Holds(m, live, contents)
    ensures m[k].N == nodes[k].N == EndN(m, free + [k])
  {
    hide SetN, SetP;
    m := SetP(nodes, k, Ref(free, |free| - 1));
    if free != [] {
      m := SetN(m, free[|free| - 1], To(k));
    }
    var all := free + [k];
    assert forall i | 0 <= i < |free| :: all[i] == free[i];
  }

  /** `m` is `nodes` with a block behind it, its nodes linked in order and the first behind `tail`. */
  ghost predicate HasBlock<T>(nodes: seq<Node<T>>, tail: Ptr, m: seq<Node<T>>, n: nat) {
    && n > 0 && |m| == |nodes| + n
    && (forall k :: 0 <= k < |nodes| ==> m[k] == if tail == To(k) then nodes[k].(N := To(|nodes|)) else nodes[k])
    && m[|nodes|].P == tail
    && (forall k :: |nodes| < k < |m| ==> m[k].P == To(k - 1))
    && (forall k :: |nodes| <= k < |m| - 1 ==> m[k].N == To(k + 1))
    && m[|m| - 1].N == Nil
  }

  lemma BlockEnds(free: seq<nat>, capacity: nat, n: nat)
    requires n > 0
    ensures Ref(free + Block(capacity, n), |free| + n - 1) == To(capacity + n - 1)
    ensures Ref(free + Block(capacity, n), 0) == if free == [] then To(capacity) else Ref(free, 0)
    ensures |free + Block(capacity, n)| == |free| + n
  {
  }

  /** A block linked behind the free tail leaves the live chain as it was. */
  lemma BlockLive<T>(nodes: seq<Node<T>>, live: seq<nat>, free: seq<nat>, contents: seq<T>, m: seq<Node<T>>, n: nat)
    requires LiveChain(nodes, live) && Holds(nodes, live, contents)
    requires free != [] ==> OnlyAt(live, free[|free| - 1], -1)
    requires HasBlock(nodes, Ref(free, |free| - 1), m, n)
    ensures LiveChain(m, live) && Holds(m, live, contents)
  {
  }

  /** A block linked behind the free tail continues the free chain. */
  lemma BlockFree<T>(nodes: seq<Node<T>>, free: seq<nat>, m: seq<Node<T>>, n: nat)
    requires FreeChain(nodes, free)
    requires free != [] ==> OnlyAt(free, free[|free| - 1], |free| - 1)
    requires HasBlock(nodes, Ref(free, |free| - 1), m, n)
    ensures FreeChain(m, free + Block(|nodes|, n))
  {
    hide HasBlock, Block, OnlyAt;
    var all := free + Block(|nodes|, n);
    forall i | 0 <= i < |all|
      ensures all[i] < |m| && m[all[i]].P == Ref(all, i - 1)
      ensures i + 1 < |all| ==> m[all[i]].N == To(all[i + 1])
    {
      if i < |free| {
        BlockOld(nodes, free, m, n, i);
      } else {
        BlockNew(nodes, free, m, n, i);
      }
    }
  }

  lemma BlockOld<T>(nodes: seq<Node<T>>, free: seq<nat>, m: seq<Node<T>>, n: nat, i: nat)
    requires FreeChain(nodes, free) && i < |free| && OnlyAt(free, free[|free| - 1], |free| - 1)
    requires HasBlock(nodes, Ref(free, |free| - 1), m, n)
    ensures var all := free + Block(|nodes|, n);
      all[i] < |m| && m[all[i]].P == Ref(all, i - 1) && (i + 1 < |all| ==> m[all[i]].N == To(all[i + 1]))
  {
    var all := free + Block(|nodes|, n);
    assert all[i] == free[i] && (i + 1 < |free| ==> all[i + 1] == free[i + 1]) && (i > 0 ==> all[i - 1] == free[i - 1]);
    assert nodes[free[i]].P == Ref(free, i - 1);
  }

  lemma BlockNew<T>(nodes: seq<Node<T>>, free: seq<nat>, m: seq<Node<T>>, n: nat, i: nat)
    requires HasBlock(nodes, Ref(free, |free| - 1), m, n) && |free| <= i < |free| + n
    ensures var all := free + Block(|nodes|, n);
      all[i] < |m| && m[all[i]].P == Ref(all, i - 1) && (i + 1 < |all| ==> m[all[i]].N == To(all[i + 1]))
  {
    var all := free + Block(|nodes|, n);
    assert all[i] == |nodes| + (i - |free|);
  }

  lemma BlockEndN<T>(nodes: seq<Node<T>>, free: seq<nat>, tail: Ptr, m: seq<Node<T>>, n: nat)
    requires HasBlock(nodes, tail, m, n)
    ensures EndN(m, free + Block(|nodes|, n)) == Nil
  {
  }

  /** The free chain and the partition after a block more. */
  lemma GrowFree<T>(nodes: seq<Node<T>>, live: seq<nat>, free: seq<nat>, contents: seq<T>, head: Ptr, tail: Ptr,
                    m: seq<Node<T>>, n: nat) returns (all: seq<nat>)
    requires Linked(nodes, live, free, contents, head, tail) && Partition(live, free, {}, |nodes|)
    requires HasBlock(nodes, tail, m, n) && n > 0
    ensures Linked(m, live, all, contents, if head == Nil then To(|nodes|) else head, To(|nodes| + n - 1))
    ensures Partition(live, all, {}, |nodes| + n) && EndN(m, all) == Nil
  {
    hide Partition, LiveChain, FreeChain, Holds, HasBlock, Block, OnlyAt, EndN;
    if free != [] {
      FreeOnlyAt(live, free, {}, |nodes|, |free| - 1);
    }
    PartitionGrow(live, free, |nodes|, n);
    BlockLive(nodes, live, free, contents, m, n);
    BlockFree(nodes, free, m, n);
    BlockEndN(nodes, free, tail, m, n);
    BlockEnds(free, |nodes|, n);
    all := free + Block(|nodes|, n);
  }

  /** What the list's own numbers are after some calls, with how many nodes are live and were removed. */
  datatype Tally = Tally(count: nat, capacity: nat, live: nat, removals: nat)

  /** A block more when the list's own count says there is no room for `n`. */
  function Ensured(t: Tally, n: nat): Tally {
    if t.count + n > t.capacity then t.(capacity := t.capacity + BLOCK) else t
  }

  /** Appending `n` elements finds two free nodes before each of its pops. */
  predicate AppendSafe(t: Tally, n: nat) {
    n == 0 || Ensured(t, n).capacity - t.live >= n + 1
  }

  lemma NothingToAppend(t: Tally)
    ensures AppendSafe(t, 0)
  {
  }

  function Appended(t: Tally, n: nat): Tally {
    Ensured(t, n).(count := t.count + n, live := t.live + n)
  }

  function Removed(t: Tally): Tally
    requires t.live > 0
  {
    t.(live := t.live - 1, removals := t.removals + 1)
  }

  datatype Call = AppendCall | RemoveCall(place: nat)

  /** How many nodes are live after some single appends and removals. */
  function LiveAfter(calls: seq<Call>): int {
    if calls == [] then 0
    else LiveAfter(calls[..|calls| - 1]) + if calls[|calls| - 1].AppendCall? then 1 else -1
  }

  /** Only live nodes are removed. */
  predicate Feasible(calls: seq<Call>) {
    calls != [] ==>
      && Feasible(calls[..|calls| - 1])
      && (calls[|calls| - 1].RemoveCall? ==> calls[|calls| - 1].place < LiveAfter(calls[..|calls| - 1]))
  }

  /** The tally of a new list after some calls, or None when an append found fewer than two free nodes. */
  function After(calls: seq<Call>): (t: Option<Tally>)
    requires Feasible(calls)
    ensures t.Some? ==> t.value.live == LiveAfter(calls) && t.value.count == t.value.live + t.value.removals
  {
    if calls == [] then Some(Tally(0, 0, 0, 0)) else
    match After(calls[..|calls| - 1])
    case None => None
    case Some(t) =>
      if calls[|calls| - 1].RemoveCall? then Some(Removed(t))
      else if AppendSafe(t, 1) then Some(Appended(t, 1))
      else None
  }

  /** The first `n` calls are all appends. */
  predicate Opening(calls: seq<Call>, n: nat) {
    n <= |calls| && forall i :: 0 <= i < n ==> calls[i].AppendCall?
  }

  lemma OpeningStep(before: seq<Call>, calls: seq<Call>)
    requires calls != [] && before == calls[..|calls| - 1]
    ensures Opening(calls, |calls|) <==> Opening(before, |before|) && calls[|calls| - 1].AppendCall?
    ensures |before| >= 64 ==> (Opening(calls, 64) <==> Opening(before, 64))
    ensures |before| <= 63 && Opening(calls, 64) ==> |before| == 63 && Opening(calls, |calls|)
  {
  }

  /** What holds of the tally after a run that met no unsafe pop. */
  predicate RunTally(t: Tally, calls: seq<Call>) {
    && t.count == t.live + t.removals <= t.capacity
    && (t.removals == 0 <==> Opening(calls, |calls|))
    && (t.removals == 0 ==> t.count == |calls| <= 63 && t.capacity == (if calls == [] then 0 else 64))
  }

  /** One append is unsafe only at count 63 with nothing removed yet. */
  lemma UnsafeOnlyAt63(t: Tally, calls: seq<Call>)
    requires RunTally(t, calls)
    ensures AppendSafe(t, 1) <==> !(t.count == 63 && t.removals == 0)
  {
  }

  /** A run of single appends and removals finds every pop safe unless it opens with 64 appends in a row: the
      64th, at count 63 with nothing removed yet, is the only one that can find a single free node. */
  lemma {:induction false} UnsafeIff64AppendsFirst(calls: seq<Call>)
    requires Feasible(calls)
    ensures After(calls).None? <==> Opening(calls, 64)
    ensures After(calls).Some? ==> RunTally(After(calls).value, calls)
  {
    if calls != [] {
      var before := calls[..|calls| - 1];
      UnsafeIff64AppendsFirst(before);
      OpeningStep(before, calls);
      hide Opening;
      if After(before).Some? {
        UnsafeOnlyAt63(After(before).value, before);
      }
    }
  }

  /** AppendMany of `n` elements to a new list is safe only up to 63: it adds one block however large `n` is. */
  lemma NewListTakes63(n: nat)
    ensures AppendSafe(Tally(0, 0, 0, 0), n) <==> n <= 63
  {
  }

  /** The elements that satisfy `keep`, in order. */
  function Kept<X>(s: seq<X>, keep: X -> bool): seq<X> {
    if s == [] then [] else
    var x := s[|s| - 1];
    Kept(s[..|s| - 1], keep) + if keep(x) then [x] else []
  }

  lemma KeptStep<X>(values: seq<X>, k: nat, keep: X -> bool)
    requires k < |values|
    ensures Kept(values[..k + 1], keep) == Kept(values[..k], keep) + (if keep(values[k]) then [values[k]] else [])
  {
    assert values[..k + 1][..k] == values[..k];
  }

  /** Moving the next element over to the kept part, or taking it out, of a sequence split in two. */
  lemma SplitStep<X>(kept: seq<X>, values: seq<X>, k: nat)
    requires k < |values|
    ensures (kept + values[k..])[|kept|] == values[k]
    ensures kept + values[k..] == kept + [values[k]] + values[k + 1..]
    ensures Without(kept + values[k..], |kept|) == kept + values[k + 1..]
  {
    assert values[k..] == [values[k]] + values[k + 1..];
    var c := kept + values[k..];
    assert c[|kept| + 1..] == values[k + 1..];
  }

  lemma SlotStep(live: seq<nat>, i: nat, all: seq<nat>, k: nat)
    requires i < |live| && k < |all| && live[i..] == all[k..]
    ensures all[..k + 1] == all[..k] + [live[i]]
    ensures live[i + 1..] == all[k + 1..] && Without(live, i)[i..] == all[k + 1..]
  {
    assert live[i] == live[i..][0] && all[k] == all[k..][0];
    assert live[i + 1..] == live[i..][1..] && all[k + 1..] == all[k..][1..];
  }

  /** The filtering loop after `k` of the elements `values` in the nodes `all`: `visited` are the nodes visited,
      `kept` the elements that stayed, `live` and `contents` the list as it is. */
  ghost predicate Filtering<X>(all: seq<nat>, values: seq<X>, keep: X -> bool, k: nat, visited: seq<nat>, kept: seq<X>,
                               live: seq<nat>, contents: seq<X>)
    requires k <= |all| == |values|
  {
    && visited == all[..k] && kept == Kept(values[..k], keep)
    && |kept| <= |live| && live[|kept|..] == all[k..] && contents == kept + values[k..]
  }

  lemma FilterStarts<X>(all: seq<nat>, values: seq<X>, keep: X -> bool)
    requires |all| == |values|
    ensures Filtering(all, values, keep, 0, [], [], all, values)
  {
  }

  lemma FilterEnds<X>(all: seq<nat>, values: seq<X>, keep: X -> bool, k: nat, visited: seq<nat>, kept: seq<X>,
                      live: seq<nat>, contents: seq<X>)
    requires |values| == |all| == k && Filtering(all, values, keep, k, visited, kept, live, contents)
    ensures visited == all && contents == Kept(values, keep)
  {
    hide Kept;
    assert all[..k] == all && values[..k] == values && values[k..] == [];
  }

  lemma FilterStep<X>(all: seq<nat>, values: seq<X>, keep: X -> bool, k: nat, visited: seq<nat>, kept: seq<X>,
                      live: seq<nat>, contents: seq<X>)
    requires k < |all| == |values| && Filtering(all, values, keep, k, visited, kept, live, contents)
    requires |live| == |contents| == |kept| + |all| - k
    ensures contents[|kept|] == values[k]
    ensures if keep(values[k])
            then Filtering(all, values, keep, k + 1, visited + [live[|kept|]], kept + [values[k]], live, contents)
            else Filtering(all, values, keep, k + 1, visited + [live[|kept|]], kept, Without(live, |kept|),
                           Without(contents, |kept|))
  {
    SlotStep(live, |kept|, all, k);
    KeptStep(values, k, keep);
    SplitStep(kept, values, k);
    hide Kept, Without;
  }

  /** The next call of Next moves the iterator to place `i`, or finds the end when there is no such place. */
  ghost predicate NextIs(node: Ptr, first: bool, live: seq<nat>, i: nat) {
    && i <= |live|
    && (first ==> node == Ref(live, i))
    && (!first ==> (i > 0 && node == Ref(live, i - 1)) || (node == Nil && i == |live|))
  }

  class NodeIterator {
    var node: Ptr
    var first: bool

    constructor (node: Ptr, first: bool)
      ensures this.node == node && this.first == first
    {
      this.node, this.first := node, first;
    }

    method Next<T>(nodes: seq<Node<T>>, ghost live: seq<nat>, ghost i: nat) returns (more: bool)
      requires LiveChain(nodes, live) && NextIs(node, first, live, i)
      modifies this
      ensures more == (i < |live|) && node == Ref(live, i) && !first
      ensures more ==> NextIs(node, first, live, i + 1)
    {
      if first {
        first := false;
        return node != Nil;
      }
      if node != Nil {
        node := nodes[node.slot].N;
      }
      return node != Nil;
    }
  }

  /** Allocate a block and link its nodes one behind the other, the first behind `tail`. */
  method NewBlock<T(0)>(nodes: seq<Node<T>>, tail: Ptr) returns (m: seq<Node<T>>)
    requires tail == Nil || tail.slot < |nodes|
    ensures |m| == |nodes| + BLOCK && HasBlock(nodes, tail, m, BLOCK)
  {
    hide SetN, SetP;
    var zero: T := *;
    var base := |nodes|;
    m := SetP(nodes + seq(BLOCK, _ => Node(zero, Nil, Nil)), base, tail);
    if tail != Nil {
      m := SetN(m, tail.slot, To(base));
    }
    var prev := To(base);
    for i := 1 to BLOCK
      invariant |m| == base + BLOCK && prev == To(base + i - 1)
      invariant forall k :: 0 <= k < base ==> m[k] == if tail == To(k) then nodes[k].(N := To(base)) else nodes[k]
      invariant m[base].P == tail
      invariant forall k :: base < k < base + i ==> m[k].P == To(k - 1)
      invariant forall k :: base <= k < base + i - 1 ==> m[k].N == To(k + 1)
      invariant m[base + BLOCK - 1].N == Nil
    {
      m := SetP(m, base + i, prev);
      m := SetN(m, prev.slot, To(base + i));
      prev := m[prev.slot].N;
    }
  }

  lemma {:induction false} FailureStays(calls: seq<Call>, n: nat)
    requires Feasible(calls) && n <= |calls| && Feasible(calls[..n]) && After(calls[..n]) == None
    ensures After(calls) == None
    decreases |calls|
  {
    if n == |calls| {
      assert calls[..n] == calls;
    } else {
      assert calls[..|calls| - 1][..n] == calls[..n];
      FailureStays(calls[..|calls| - 1], n);
    }
  }

  lemma {:induction false} FeasiblePrefix(calls: seq<Call>, n: nat)
    requires Feasible(calls) && n <= |calls|
    ensures Feasible(calls[..n])
    decreases |calls|
  {
    if n == |calls| {
      assert calls[..n] == calls;
    } else {
      assert calls[..|calls| - 1][..n] == calls[..n];
      FeasiblePrefix(calls[..|calls| - 1], n);
    }
  }

  /** The tally after one call more. */
  lemma NextCall(calls: seq<Call>, i: nat, t: Tally)
    requires Feasible(calls) && i < |calls| && Feasible(calls[..i]) && After(calls[..i]) == Some(t)
    ensures Feasible(calls[..i + 1]) && (calls[i].RemoveCall? ==> calls[i].place < t.live)
    ensures After(calls[..i + 1]) ==
      if calls[i].RemoveCall? then Some(Removed(t)) else if AppendSafe(t, 1) then Some(Appended(t, 1)) else None
  {
    FeasiblePrefix(calls, i + 1);
    assert calls[..i + 1][..i] == calls[..i];
  }

  /** Remove the node at a place, found with an iterator. */
  method RemoveAt<T(0)>(list: LinkedList<T>, place: nat)
    requires list.Valid() && place < |list.live|
    modifies list
    ensures list.Valid() && list.Tallied() == Removed(old(list.Tallied()))
    ensures list.contents == Without(old(list.contents), place)
  {
    hide LiveChain, FreeChain, Holds, Partition, EndOk, Without;
    var at := list.Iterator();
    var more := at.Next(list.nodes, list.live, 0);
    for i := 0 to place
      invariant fresh(at) && at.node == Ref(list.live, i) && NextIs(at.node, at.first, list.live, i + 1)
      modifies at
    {
      more := at.Next(list.nodes, list.live, i + 1);
    }
    var _ := list.RemoveNode(at.node.slot, place);
  }

  lemma RunStarts(calls: seq<Call>)
    requires Feasible(calls)
    ensures Feasible(calls[..0]) && After(calls[..0]) == Some(Tally(0, 0, 0, 0))
    ensures calls[..|calls|] == calls && (After(calls).None? <==> Opening(calls, 64))
  {
    hide Opening, RunTally;
    UnsafeIff64AppendsFirst(calls);
    assert calls[..0] == [] && calls[..|calls|] == calls;
  }

  /** One call. False when it dereferences nil. */
  method RunCall<T(0)>(list: LinkedList<T>, call: Call, x: T) returns (ok: bool)
    requires list.Valid() && (call.RemoveCall? ==> call.place < list.Tallied().live)
    modifies list
    ensures ok <==> call.AppendCall? ==> AppendSafe(old(list.Tallied()), 1)
    ensures ok ==>
      && list.Valid()
      && list.Tallied() == if call.AppendCall? then Appended(old(list.Tallied()), 1) else Removed(old(list.Tallied()))
  {
    hide Linked, Partition, EndOk, AppendSafe, Appended;
    ok := true;
    match call {
      case AppendCall =>
        var node := list.Append(x);
        ok := node.Some?;
      case RemoveCall(place) =>
        RemoveAt(list, place);
    }
  }

  /** Any single appends, and removals of any live nodes, on a new list: it dereferences nil exactly when the calls
      open with 64 appends in a row. */
  method RunCalls<T(0)>(calls: seq<Call>, x: T) returns (crashed: bool)
    requires Feasible(calls)
    ensures crashed <==> Opening(calls, 64)
  {
    hide *;
    RunStarts(calls);
    var list := new LinkedList<T>();
    for i := 0 to |calls|
      invariant fresh(list) && list.Valid() && Feasible(calls[..i]) && After(calls[..i]) == Some(list.Tallied())
    {
      NextCall(calls, i, list.Tallied());
      var ok := RunCall(list, calls[i], x);
      if !ok {
        FailureStays(calls, i + 1);
        return true;
      }
    }
    crashed := false;
  }

  /** A slice appended to a new list arrives whole up to 63 elements, and dereferences nil from 64 on. */
  method NewListOf<T(0)>(data: seq<T>) returns (list: LinkedList<T>, ok: bool)
    ensures fresh(list) && (ok <==> |data| <= 63)
    ensures ok ==> list.Valid() && list.contents == data
  {
    hide Linked, Partition, EndOk;
    NewListTakes63(|data|);
    list := new LinkedList<T>();
    ok := list.AppendMany(data);
  }

  class LinkedList<T(0)> {
    /** The allocated blocks end to end. */
    var nodes: seq<Node<T>>
    var count: nat
    var capacity: nat
    var head: Ptr
    var tail: Ptr
    var freeHead: Ptr
    var freeTail: Ptr

    /** The live and the free nodes in chain order, the elements in order, and how many nodes were removed. */
    ghost var live: seq<nat>
    ghost var free: seq<nat>
    ghost var contents: seq<T>
    ghost var removals: nat

    ghost predicate Chains()
      reads this
    {
      && |nodes| == capacity && head == Ref(live, 0)
      && Linked(nodes, live, free, contents, freeHead, freeTail)
    }

    ghost predicate Valid()
      reads this
    {
      && Chains() && Partition(live, free, {}, capacity)
      && tail == Ref(live, |live| - 1)
      && count == |live| + removals
      && EndOk(nodes, free, removals)
    }

    /** A lone free node leads nowhere, or, stale, to a live node. */
    lemma LoneFree()
      requires Valid() && |free| == 1
      ensures EndN(nodes, free) == Nil || (removals > 0 && EndN(nodes, free).slot in live)
    {
      hide Linked;
      assert free == [free[0]];
    }

    ghost function Tallied(): Tally
      reads this
    {
      Tally(count, capacity, |live|, removals)
    }

    constructor ()
      ensures Valid() && contents == [] && Tallied() == Tally(0, 0, 0, 0)
    {
      nodes, count, capacity := [], 0, 0;
      head, tail, freeHead, freeTail := Nil, Nil, Nil, Nil;
      live, free, contents, removals := [], [], [], 0;
    }

    method EnsureCapacity(n: nat)
      requires Valid()
      modifies this`nodes, this`capacity, this`freeHead, this`freeTail, this`free
      ensures Valid() && Tallied() == Ensured(old(Tallied()), n)
      ensures n > 0 ==> free != [] && (AppendSafe(old(Tallied()), n) <==> |free| > n)
      ensures n > 0 && |free| <= n ==> EndN(nodes, free) == Nil
    {
      assert |live| + |free| == capacity;
      hide Linked, Distinct;
      if count + n > capacity {
        Grow();
        assert |live| + |free| == capacity;
      }
    }

    method Grow()
      requires Chains() && Partition(live, free, {}, capacity)
      modifies this`nodes, this`capacity, this`freeHead, this`freeTail, this`free
      ensures Chains() && Partition(live, free, {}, capacity) && capacity == old(capacity) + BLOCK
      ensures EndN(nodes, free) == Nil
    {
      assert freeTail == Nil || freeTail.slot < |nodes|;
      hide Partition, Linked, HasBlock, Ref, EndN;
      var base := capacity;
      var grown := NewBlock(nodes, freeTail);
      ghost var all := GrowFree(nodes, live, free, contents, freeHead, freeTail, grown, BLOCK);
      var first := freeHead;
      if first == Nil {
        first := To(base);
      }
      Install(grown, first, To(base + BLOCK - 1), all);
    }

    /** Take over the nodes and the free chain of a grown list. */
    method Install(grown: seq<Node<T>>, first: Ptr, last: Ptr, ghost all: seq<nat>)
      requires head == Ref(live, 0) && Linked(grown, live, all, contents, first, last)
      requires Partition(live, all, {}, |grown|)
      modifies this`nodes, this`capacity, this`freeHead, this`freeTail, this`free
      ensures Chains() && Partition(live, free, {}, capacity) && capacity == |grown|
      ensures nodes == grown && free == all
    {
      hide Partition, Linked, Ref;
      nodes, free, freeHead, freeTail, capacity := grown, all, first, last, |grown|;
    }

    /** Take the first free node. Its successor is used without a check: with a lone free node that leads nowhere,
        this dereferences nil, and None is returned. */
    method PopFreeNode() returns (node: Option<nat>)
      requires Chains() && Partition(live, free, {}, capacity) && free != []
      requires |free| == 1 ==> EndN(nodes, free) == Nil
      modifies this`nodes, this`freeHead, this`free
      ensures node == None <==> |old(free)| == 1
      ensures node == None ==> unchanged(this)
      ensures node.Some? ==>
        && Chains() && Partition(live, free, {node.value}, capacity) && EndN(nodes, free) == old(EndN(nodes, free))
        && node.value == old(free[0]) && free == old(free[1..])
        && node.value < |nodes| && nodes[node.value].N == nodes[node.value].P == Nil
    {
      hide Partition, LiveChain, FreeChain, Holds, OnlyAt, SetN, SetP;
      FreeOnlyAt(live, free, {}, capacity, 0);
      var first := freeHead.slot;
      FirstN(nodes, free);
      if nodes[first].N == Nil {
        return None;
      }
      FreeOnlyAt(live, free, {}, capacity, 1);
      PartitionPop(live, free, capacity);
      ghost var m := PopLinks(nodes, live, free, contents);
      hide EndN;
      freeHead := nodes[first].N;
      nodes := SetP(nodes, freeHead.slot, Nil);
      nodes := SetN(nodes, first, Nil);
      nodes := SetP(nodes, first, Nil);
      free := free[1..];
      return Some(first);
    }

    /** Take a free node and link it behind `prev`, the end of the live chain. */
    method PopAndLink(data: T, prev: Ptr) returns (node: Option<nat>)
      requires Chains() && Partition(live, free, {}, capacity) && free != [] && prev == Ref(live, |live| - 1)
      requires |free| == 1 ==> EndN(nodes, free) == Nil
      modifies this`nodes, this`freeHead, this`head, this`free, this`live, this`contents
      ensures node == None <==> |old(free)| == 1
      ensures node == None ==> unchanged(this)
      ensures node.Some? ==>
        && Chains() && Partition(live, free, {}, capacity) && EndN(nodes, free) == old(EndN(nodes, free))
        && live == old(live) + [node.value] && contents == old(contents) + [data] && free == old(free)[1..]
    {
      hide Partition, LiveChain, FreeChain, Holds, OnlyAt, SetN, SetP, SetData, EndN;
      node := PopFreeNode();
      if node == None {
        return;
      }
      var slot := node.value;
      TakenOnlyAt(live, free, capacity, slot);
      if live != [] {
        LiveOnlyAt(live, free, {slot}, capacity, |live| - 1);
      }
      PartitionAppend(live, free, capacity, slot);
      ghost var m := AppendLinks(nodes, live, free, contents, slot, data);
      RefAppend(live, slot);
      hide Ref;
      nodes := SetData(nodes, slot, data);
      nodes := SetP(nodes, slot, prev);
      if prev != Nil {
        nodes := SetN(nodes, prev.slot, To(slot));
      } else {
        head := To(slot);
      }
      live, contents := live + [slot], contents + [data];
    }

    /** Append one element. It dereferences nil, and None is returned, exactly when it finds a single free node: that
        node then leads nowhere. */
    method Append(data: T) returns (node: Option<nat>)
      requires Valid()
      modifies this
      ensures node.Some? <==> AppendSafe(old(Tallied()), 1)
      ensures node.Some? ==>
        && Valid() && contents == old(contents) + [data] && live == old(live) + [node.value]
        && Tallied() == Appended(old(Tallied()), 1)
    {
      hide Linked, Partition, EndN, EndOk, AppendSafe;
      EnsureCapacity(1);
      ghost var was, before := free, nodes;
      node := PopAndLink(data, tail);
      if node.Some? {
        tail := To(node.value);
        count := count + 1;
        EndStays(before, was, nodes, free, removals);
      }
    }

    /** Append a slice. It adds one block at most, however long the slice is, and dereferences nil exactly when the
        free nodes do not exceed the elements. */
    method AppendMany(data: seq<T>) returns (ok: bool)
      requires Valid()
      modifies this
      ensures ok <==> AppendSafe(old(Tallied()), |data|)
      ensures ok ==> Valid() && contents == old(contents) + data && Tallied() == Appended(old(Tallied()), |data|)
    {
      hide Linked, Partition, EndN, EndOk, AppendSafe;
      NothingToAppend(Tallied());
      EnsureCapacity(|data|);
      ghost var was, before := free, nodes;
      var prev := tail;
      for i := 0 to |data|
        invariant Chains() && Partition(live, free, {}, capacity) && prev == Ref(live, |live| - 1)
        invariant |live| == |old(live)| + i && contents == old(contents) + data[..i] && i <= |was| && free == was[i..]
        invariant capacity == Ensured(old(Tallied()), |data|).capacity
        invariant count == old(count) && removals == old(removals) && EndN(nodes, free) == EndN(before, was)
        invariant |data| > 0 ==> i < |was|
      {
        TakeNext(old(contents), data, i);
        var node := PopAndLink(data[i], prev);
        if node == None {
          return false;
        }
        prev := To(node.value);
      }
      assert data[..|data|] == data;
      tail := prev;
      count := count + |data|;
      EndStays(before, was, nodes, free, removals);
      ok := true;
    }

    /** Take a live node out of the live chain. */
    method Unlink(current: nat, ghost p: nat) returns (next: Ptr)
      requires Valid() && p < |live| && live[p] == current
      modifies this`nodes, this`head, this`tail, this`live, this`contents
      ensures Chains() && Partition(live, free, {current}, capacity) && tail == Ref(live, |live| - 1)
      ensures live == Without(old(live), p) && contents == Without(old(contents), p)
      ensures next == Ref(live, p) && current < |nodes| && nodes[current].N == next
    {
      hide Partition, LiveChain, FreeChain, Holds, SetN, SetP, Ref, Without, EndN, EndOk;
      ghost var m, left, rest := UnlinkStep(nodes, live, free, contents, p);
      var prev := nodes[current].P;
      next := nodes[current].N;
      if prev != Nil {
        nodes := SetN(nodes, prev.slot, next);
      } else {
        head := next;
      }
      if next != Nil {
        nodes := SetP(nodes, next.slot, prev);
      } else {
        tail := prev;
      }
      live, contents := left, rest;
    }

    /** Put a node taken off the live chain behind the free tail. Its N stays as it was. */
    method PushFree(current: nat)
      requires Chains() && Partition(live, free, {current}, capacity) && current < |nodes|
      modifies this`nodes, this`freeHead, this`freeTail, this`free
      ensures Chains() && Partition(live, free, {}, capacity) && free == old(free) + [current]
      ensures current < |nodes| && nodes[current].N == old(nodes[current].N) == EndN(nodes, free)
    {
      hide Partition, LiveChain, FreeChain, Holds, OnlyAt, SetN, SetP, EndN;
      TakenOnlyAt(live, free, capacity, current);
      if free != [] {
        FreeOnlyAt(live, free, {current}, capacity, |free| - 1);
      }
      PartitionReturn(live, free, capacity, current);
      ghost var m := FreeLinks(nodes, live, free, contents, current);
      nodes := SetP(nodes, current, freeTail);
      if freeTail != Nil {
        nodes := SetN(nodes, freeTail.slot, To(current));
      } else {
        freeHead := To(current);
      }
      freeTail := To(current);
      free := free + [current];
    }

    /** Unlink a live node and put it behind the free tail. Its N and the list's count stay as they were. */
    method RemoveNode(current: nat, ghost p: nat) returns (next: Ptr)
      requires Valid() && p < |live| && live[p] == current
      modifies this
      ensures Valid() && live == Without(old(live), p) && contents == Without(old(contents), p)
      ensures next == Ref(live, p) && EndN(nodes, free) == next
      ensures free == old(free) + [current] && current < |nodes| && nodes[current].N == next
      ensures Tallied() == Removed(old(Tallied()))
    {
      hide LiveChain, FreeChain, Holds, Distinct;
      next := Unlink(current, p);
      PushFree(current);
      removals := removals + 1;
      assert p < |live| ==> live[p] in live && live[p] != current;
    }

    method Iterator() returns (at: NodeIterator)
      requires Valid()
      ensures fresh(at) && NextIs(at.node, at.first, live, 0)
    {
      at := new NodeIterator(head, true);
    }

    /** Remove the node an iterator stands on; the one returned goes on with the node after it. */
    method Remove(at: NodeIterator, ghost p: nat) returns (next: NodeIterator)
      requires Valid() && at.node == Ref(live, p)
      modifies this
      ensures Valid()
      ensures if p < |old(live)|
              then live == Without(old(live), p) && contents == Without(old(contents), p)
                && fresh(next) && NextIs(next.node, next.first, live, p)
              else live == old(live) && contents == old(contents) && next == at
    {
      next := at;
      if at.node != Nil {
        var node := RemoveNode(at.node.slot, p);
        next := new NodeIterator(node, node != Nil);
      }
    }

    /** The loop that removes while it iterates: it visits every node of the list once, in order, and leaves
        the elements that satisfy `keep`. */
    method Filter(keep: T -> bool) returns (ghost visited: seq<nat>)
      requires Valid()
      modifies this
      ensures Valid() && visited == old(live) && contents == Kept(old(contents), keep)
    {
      ghost var all, values, kept := live, contents, [];
      ghost var k := 0;
      visited := [];
      assert |contents| == |live|;
      FilterStarts(all, values, keep);
      hide Partition, Holds, FreeChain, LiveChain, Kept, Without, NextIs, Filtering;
      var at := Iterator();
      while true
        invariant Valid() && fresh(at) && NextIs(at.node, at.first, live, |kept|)
        invariant k <= |all| == |values| && |live| == |kept| + |all| - k
        invariant Filtering(all, values, keep, k, visited, kept, live, contents)
        decreases |all| - k
      {
        ghost var i := |kept|;
        var more := at.Next(nodes, live, i);
        if !more {
          FilterEnds(all, values, keep, k, visited, kept, live, contents);
          break;
        }
        FilterStep(all, values, keep, k, visited, kept, live, contents);
        var slot := at.node.slot;
        visited := visited + [slot];
        var stays := Test(slot, keep, i);
        if stays {
          kept := kept + [values[k]];
        } else {
          at := Remove(at, i);
        }
        k := k + 1;
      }
    }

    method Test(slot: nat, keep: T -> bool, ghost i: nat) returns (stays: bool)
      requires Valid() && i < |live| && slot == live[i]
      ensures |contents| == |live| && stays == keep(contents[i])
    {
      stays := keep(nodes[slot].data);
    }
  }
}
