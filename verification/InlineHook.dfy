/** The inline hook: measure a prologue, relocate it into a trampoline, overwrite the entry with an
    absolute jump. Addresses are integers; displacements are 32-bit. */
module InlineHook {
  import opened Words
  import opened Bytes
  import opened X64Decode

  /** One instruction of the prologue. */
  datatype Item = Item(off: nat, insn: Insn)

  /** The instructions from `at` up to the first boundary at or past 14 bytes; at most 12 in all. */
  function Measure(code: seq<Byte>, at: nat, count: nat): Option<seq<Item>>
    requires at <= |code| && count <= 12
    decreases 12 - count
  {
    if at >= 14 then Some([])
    else if count == 12 || !Decode(code[at..]).Accepted? then None
    else
      DecodedShape(code[at..]);
      var insn := Decode(code[at..]).insn;
      var rest := Measure(code, at + insn.len, count + 1);
      if rest.None? then None else Some([Item(at, insn)] + rest.value)
  }

  /** How many bytes the instructions span. */
  function Copied(items: seq<Item>): nat {
    if items == [] then 0 else items[|items| - 1].off + items[|items| - 1].insn.len
  }

  /** The signed 32-bit field at offset `f`. */
  function Field(code: seq<Byte>, f: nat): int
    requires f + 4 <= |code|
  {
    Signed32(FromLe4(code[f..f + 4]))
  }

  function Patch(bytes: seq<Byte>, f: nat, v: int): (r: seq<Byte>)
    requires f + 4 <= |bytes|
    ensures |r| == |bytes|
  {
    bytes[..f] + Le4(v) + bytes[f + 4..]
  }

  predicate InCode(code: seq<Byte>, item: Item) {
    && item.off + item.insn.len <= |code|
    && (FieldAt(item.insn) != 0 ==> FieldAt(item.insn) + 4 <= item.insn.len)
  }

  /** The displacement an item needs in the trampoline: the same absolute target from the new place. */
  function Moved(code: seq<Byte>, item: Item, delta: int): int
    requires InCode(code, item) && FieldAt(item.insn) != 0
  {
    Field(code, item.off + FieldAt(item.insn)) + delta
  }

  predicate Reaches(code: seq<Byte>, item: Item, delta: int)
    requires InCode(code, item)
  {
    FieldAt(item.insn) != 0 ==> FitsInt32(Moved(code, item, delta))
  }

  /** The copy with the fields of the first `k` items fixed up. */
  function Relocate(code: seq<Byte>, items: seq<Item>, delta: int, k: nat): (r: Option<seq<Byte>>)
    requires k <= |items| && forall i | i in items :: InCode(code, i) && i.off + i.insn.len <= Copied(items)
    requires Copied(items) <= |code|
    ensures r.Some? ==> |r.value| == Copied(items)
  {
    if k == 0 then Some(code[..Copied(items)])
    else
      var before := Relocate(code, items, delta, k - 1);
      var item := items[k - 1];
      if before.None? || FieldAt(item.insn) == 0 then before
      else if !FitsInt32(Moved(code, item, delta)) then None
      else Some(Patch(before.value, item.off + FieldAt(item.insn), Moved(code, item, delta)))
  }

  /** An absolute jump through the eight bytes that follow it. */
  function Jump(target: int): (s: seq<Byte>)
    ensures |s| == 14
  {
    [0xFF, 0x25, 0, 0, 0, 0] + Le8(target)
  }

  /** Where a jump of that form at offset `at` goes. */
  function JumpTarget(bytes: seq<Byte>, at: nat): Option<int> {
    if at + 14 <= |bytes| && bytes[at..at + 6] == [0xFF, 0x25, 0, 0, 0, 0] then Some(FromLe8(bytes[at + 6..at + 14]))
    else None
  }

  // ---- Shape of a measured prologue ----

  predicate Ordered(items: seq<Item>) {
    forall i, j :: 0 <= i < j < |items| ==> items[i].off + items[i].insn.len <= items[j].off
  }

  /** Measured items lie in the code, follow each other, and decode where they stand. */
  predicate Measured(code: seq<Byte>, at: nat, items: seq<Item>) {
    && (forall i | i in items ::
          InCode(code, i) && at <= i.off && 1 <= i.insn.len && Decode(code[i.off..]) == Accepted(i.insn))
    && Ordered(items)
    && (items != [] ==> Copied(items) >= 14 && items[0].off == at)
  }

  /** One instruction of a measurement that succeeds. */
  lemma MeasureStep(code: seq<Byte>, at: nat, count: nat)
    requires at < 14 && at <= |code| && count <= 12 && Measure(code, at, count).Some?
    ensures count < 12 && Decode(code[at..]).Accepted?
    ensures var insn := Decode(code[at..]).insn;
            && 1 <= insn.len && at + insn.len <= |code|
            && Measure(code, at + insn.len, count + 1).Some?
            && Measure(code, at, count).value == [Item(at, insn)] + Measure(code, at + insn.len, count + 1).value
            && InCode(code, Item(at, insn))
  {
    hide Decode;
    DecodedShape(code[at..]);
  }

  lemma ConsMeasured(code: seq<Byte>, item: Item, rest: seq<Item>)
    requires InCode(code, item) && 1 <= item.insn.len && Decode(code[item.off..]) == Accepted(item.insn)
    requires Measured(code, item.off + item.insn.len, rest)
    requires rest == [] ==> item.off + item.insn.len >= 14
    ensures Measured(code, item.off, [item] + rest)
  {
    hide Decode;
    var items := [item] + rest;
    forall j | 1 <= j < |items| ensures item.off + item.insn.len <= items[j].off {
      assert items[j] in rest;
    }
    assert rest != [] ==> Copied(items) == Copied(rest);
  }

  lemma {:induction false} MeasureShape(code: seq<Byte>, at: nat, count: nat)
    requires at <= |code| && count <= 12 && Measure(code, at, count).Some?
    ensures Measured(code, at, Measure(code, at, count).value)
    ensures at < 14 ==> Measure(code, at, count).value != []
    decreases 12 - count
  {
    hide Decode;
    if at < 14 {
      MeasureStep(code, at, count);
      var insn := Decode(code[at..]).insn;
      hide Measure;
      MeasureShape(code, at + insn.len, count + 1);
      ConsMeasured(code, Item(at, insn), Measure(code, at + insn.len, count + 1).value);
    }
  }

  lemma ItemsEnd(items: seq<Item>)
    requires Ordered(items)
    ensures forall i | i in items :: i.off + i.insn.len <= Copied(items)
  {
    forall i | i in items ensures i.off + i.insn.len <= Copied(items) {
      var k :| 0 <= k < |items| && items[k] == i;
    }
  }

  lemma MeasuredFits(code: seq<Byte>)
    requires Measure(code, 0, 0).Some?
    ensures var items := Measure(code, 0, 0).value;
            && Measured(code, 0, items) && 14 <= Copied(items) <= |code|
            && forall i | i in items :: InCode(code, i) && i.off + i.insn.len <= Copied(items)
  {
    hide Decode, Measure;
    MeasureShape(code, 0, 0);
    var items := Measure(code, 0, 0).value;
    ItemsEnd(items);
    assert items[|items| - 1] in items;
  }

  /** The trampoline: relocated prologue, then a jump back to the rest of the original. */
  function Trampoline(code: seq<Byte>, tAddr: int, trampAddr: int): Option<seq<Byte>> {
    if Measure(code, 0, 0).None? then None
    else
      MeasuredFits(code);
      var items := Measure(code, 0, 0).value;
      var body := Relocate(code, items, tAddr - trampAddr, |items|);
      if body.None? then None else Some(body.value + Jump(tAddr + Copied(items)))
  }

  // ---- What relocation does to the bytes ----

  predicate InSomeField(items: seq<Item>, k: nat, pos: nat)
    requires k <= |items|
  {
    exists j :: 0 <= j < k && FieldOf(items[j], pos)
  }

  predicate FieldOf(item: Item, pos: int) {
    FieldAt(item.insn) != 0 && item.off + FieldAt(item.insn) <= pos < item.off + FieldAt(item.insn) + 4
  }

  lemma PatchAt(bytes: seq<Byte>, f: nat, v: int)
    requires f + 4 <= |bytes|
    ensures Patch(bytes, f, v)[f..f + 4] == Le4(v)
    ensures forall pos: nat | pos < |bytes| && !(f <= pos < f + 4) :: Patch(bytes, f, v)[pos] == bytes[pos]
  {
    hide Le4;
  }

  /** The bytes a correct relocation of the first `k` items leaves. */
  predicate RelocatedBytes(code: seq<Byte>, items: seq<Item>, delta: int, k: nat, r: seq<Byte>)
    requires k <= |items| && (forall i | i in items :: InCode(code, i)) && |r| <= |code|
  {
    && (forall j | 0 <= j < k :: FieldMoved(code, items[j], delta, r))
    && (forall pos: nat | pos < |r| && !InSomeField(items, k, pos) :: r[pos] == code[pos])
  }

  predicate FieldMoved(code: seq<Byte>, item: Item, delta: int, r: seq<Byte>)
    requires InCode(code, item)
  {
    FieldAt(item.insn) != 0 ==>
      var f := item.off + FieldAt(item.insn);
      f + 4 <= |r| && FitsInt32(Moved(code, item, delta)) && r[f..f + 4] == Le4(Moved(code, item, delta))
  }

  lemma PatchNext(code: seq<Byte>, items: seq<Item>, delta: int, k: nat, before: seq<Byte>)
    requires 0 < k <= |items| && Ordered(items) && |before| == Copied(items) <= |code|
    requires forall i | i in items :: InCode(code, i) && i.off + i.insn.len <= Copied(items)
    requires RelocatedBytes(code, items, delta, k - 1, before)
    requires FieldAt(items[k - 1].insn) != 0 && FitsInt32(Moved(code, items[k - 1], delta))
    ensures RelocatedBytes(code, items, delta, k,
                           Patch(before, items[k - 1].off + FieldAt(items[k - 1].insn),
                                 Moved(code, items[k - 1], delta)))
  {
    hide Le4, Moved, FitsInt32, Patch, Copied;
    var item := items[k - 1];
    var f, v := item.off + FieldAt(item.insn), Moved(code, item, delta);
    assert item in items;
    var r := Patch(before, f, v);
    PatchAt(before, f, v);
    forall j | 0 <= j < k - 1 ensures FieldMoved(code, items[j], delta, r) {
      assert items[j] in items && FieldMoved(code, items[j], delta, before);
      var g := items[j].off + FieldAt(items[j].insn);
      if FieldAt(items[j].insn) != 0 {
        assert r[g..g + 4] == before[g..g + 4];
      }
    }
    forall pos: nat | pos < |r| && !InSomeField(items, k, pos) ensures r[pos] == code[pos] {
      FieldPrefix(items, k, pos);
    }
  }

  /** After `k` fix-ups each of the first `k` fields holds its moved displacement and every other byte is
      the original. */
  lemma {:induction false} RelocateBytes(code: seq<Byte>, items: seq<Item>, delta: int, k: nat)
    requires k <= |items| && Ordered(items) && Copied(items) <= |code|
    requires forall i | i in items :: InCode(code, i) && i.off + i.insn.len <= Copied(items)
    requires Relocate(code, items, delta, k).Some?
    ensures RelocatedBytes(code, items, delta, k, Relocate(code, items, delta, k).value)
  {
    hide Le4, Moved, FitsInt32, Patch, Copied;
    if k > 0 {
      RelocateOne(code, items, delta, k);
      hide Relocate, RelocatedBytes, Ordered, FieldAt;
      RelocateBytes(code, items, delta, k - 1);
      var before := Relocate(code, items, delta, k - 1).value;
      if FieldAt(items[k - 1].insn) != 0 {
        PatchNext(code, items, delta, k, before);
      } else {
        PlainNext(code, items, delta, k, before);
      }
    }
  }

  /** One fix-up more, where all succeed. */
  lemma RelocateOne(code: seq<Byte>, items: seq<Item>, delta: int, k: nat)
    requires 0 < k <= |items| && Copied(items) <= |code|
    requires forall i | i in items :: InCode(code, i) && i.off + i.insn.len <= Copied(items)
    requires Relocate(code, items, delta, k).Some?
    ensures items[k - 1] in items && Relocate(code, items, delta, k - 1).Some?
    ensures var before, item := Relocate(code, items, delta, k - 1).value, items[k - 1];
      && (FieldAt(item.insn) == 0 ==> Relocate(code, items, delta, k).value == before)
      && (FieldAt(item.insn) != 0 ==>
          && FitsInt32(Moved(code, item, delta))
          && Relocate(code, items, delta, k).value ==
             Patch(before, item.off + FieldAt(item.insn), Moved(code, item, delta)))
  {
    hide Moved, FitsInt32, Patch, Copied;
  }

  lemma PlainNext(code: seq<Byte>, items: seq<Item>, delta: int, k: nat, before: seq<Byte>)
    requires 0 < k <= |items| && |before| <= |code|
    requires forall i | i in items :: InCode(code, i)
    requires RelocatedBytes(code, items, delta, k - 1, before) && FieldAt(items[k - 1].insn) == 0
    ensures RelocatedBytes(code, items, delta, k, before)
  {
    hide Le4, Moved, FitsInt32;
    forall pos: nat | pos < |before| && !InSomeField(items, k, pos) ensures before[pos] == code[pos] {
      FieldPrefix(items, k, pos);
    }
  }

  lemma FieldPrefix(items: seq<Item>, k: nat, pos: nat)
    requires 0 < k <= |items|
    ensures InSomeField(items, k, pos) <==> InSomeField(items, k - 1, pos) || FieldOf(items[k - 1], pos)
  {
  }

  /** Every relocated item agrees with the original outside its own field. */
  lemma ItemAgrees(code: seq<Byte>, items: seq<Item>, delta: int, tail: seq<Byte>, j: nat)
    requires Measured(code, 0, items) && j < |items| && Copied(items) <= |code|
    requires forall i | i in items :: InCode(code, i) && i.off + i.insn.len <= Copied(items)
    requires Relocate(code, items, delta, |items|).Some?
    ensures var q := Relocate(code, items, delta, |items|).value + tail;
            items[j].off <= |q| && AgreeOutsideField(code[items[j].off..], q[items[j].off..], items[j].insn)
  {
    hide Relocate, Decode, Le4, Moved;
    RelocateBytes(code, items, delta, |items|);
    var r := Relocate(code, items, delta, |items|).value;
    var item := items[j];
    assert item in items;
    forall k: nat | k < item.insn.len && !InField(item.insn, k) ensures (r + tail)[item.off + k] == code[item.off + k] {
      assert !InSomeField(items, |items|, item.off + k) by {
        OnlyOwnField(code, items, j, item.off + k);
      }
    }
  }

  /** A byte of item `j` can only lie in item `j`'s field. */
  lemma OnlyOwnField(code: seq<Byte>, items: seq<Item>, j: nat, pos: nat)
    requires Ordered(items) && j < |items| && forall i | i in items :: InCode(code, i)
    requires items[j].off <= pos < items[j].off + items[j].insn.len
    requires !InField(items[j].insn, pos - items[j].off)
    ensures !InSomeField(items, |items|, pos)
  {
    forall i | 0 <= i < |items| ensures !FieldOf(items[i], pos) {
      assert items[i] in items;
    }
  }

  /** Code that agrees with every measured item outside its field is measured the same way. */
  lemma {:induction false} MeasureStable(code: seq<Byte>, q: seq<Byte>, at: nat, count: nat)
    requires at <= |code| && at <= |q| && count <= 12 && Measure(code, at, count).Some?
    requires forall i | i in Measure(code, at, count).value ::
               i.off <= |code| && i.off <= |q| && AgreeOutsideField(code[i.off..], q[i.off..], i.insn)
    ensures Measure(q, at, count) == Measure(code, at, count)
    decreases 12 - count
  {
    hide Decode;
    if at < 14 {
      MeasureStep(code, at, count);
      var insn := Decode(code[at..]).insn;
      var items, rest := Measure(code, at, count).value, Measure(code, at + insn.len, count + 1).value;
      assert items[0] == Item(at, insn) && items[0] in items;
      DecodeStable(code[at..], q[at..]);
      MeasureStable(code, q, at + insn.len, count + 1);
    }
  }

  // ---- Meaning: the instructions with their absolute targets ----

  /** An instruction with its displacement blanked, and the absolute addresses it refers to. */
  datatype Op = Op(skeleton: seq<Byte>, ripTarget: Option<int>, callTarget: Option<int>)

  function Blank(insn: Insn, bytes: seq<Byte>): seq<Byte> {
    seq(|bytes|, k requires 0 <= k < |bytes| => if InField(insn, k) then 0 else bytes[k])
  }

  function OpOf(code: seq<Byte>, base: int, item: Item): Op
    requires InCode(code, item)
  {
    var next := base + item.off + item.insn.len;
    Op(Blank(item.insn, code[item.off..item.off + item.insn.len]),
       if item.insn.rip != 0 then Some(next + Field(code, item.off + FieldAt(item.insn))) else None,
       if item.insn.rel != 0 then Some(next + Field(code, item.off + FieldAt(item.insn))) else None)
  }

  /** The prologue of code loaded at `base`, as the decoder reads it. */
  function Disassemble(code: seq<Byte>, base: int): Option<seq<Op>> {
    if Measure(code, 0, 0).None? then None
    else
      MeasuredFits(code);
      var items := Measure(code, 0, 0).value;
      Some(seq(|items|, k requires 0 <= k < |items| => assert items[k] in items; OpOf(code, base, items[k])))
  }

  lemma OpMoves(code: seq<Byte>, q: seq<Byte>, tAddr: int, trampAddr: int, item: Item)
    requires InCode(code, item) && InCode(q, item)
    requires AgreeOutsideField(code[item.off..], q[item.off..], item.insn)
    requires FieldAt(item.insn) != 0 ==>
               Field(q, item.off + FieldAt(item.insn)) ==
                   Field(code, item.off + FieldAt(item.insn)) + (tAddr - trampAddr)
    ensures OpOf(q, trampAddr, item) == OpOf(code, tAddr, item)
  {
    hide Field;
    var a, b := code[item.off..item.off + item.insn.len], q[item.off..item.off + item.insn.len];
    forall k | 0 <= k < item.insn.len && !InField(item.insn, k) ensures a[k] == b[k] {
      assert code[item.off..][k] == q[item.off..][k];
    }
    assert Blank(item.insn, a) == Blank(item.insn, b);
  }

  /** Relocated code followed by anything lists as the original does. */
  lemma RelocatedListing(code: seq<Byte>, items: seq<Item>, tAddr: int, trampAddr: int, tail: seq<Byte>)
    requires Measured(code, 0, items) && Copied(items) <= |code|
    requires forall i | i in items :: InCode(code, i) && i.off + i.insn.len <= Copied(items)
    requires Relocate(code, items, tAddr - trampAddr, |items|).Some?
    requires Measure(code, 0, 0) == Some(items)
    ensures var q := Relocate(code, items, tAddr - trampAddr, |items|).value + tail;
            Measure(q, 0, 0) == Some(items) && Disassemble(q, trampAddr) == Disassemble(code, tAddr)
  {
    hide Decode, Measure, Relocate, OpOf, Measured, Copied, Disassemble;
    var q := Relocate(code, items, tAddr - trampAddr, |items|).value + tail;
    SameMeasure(code, items, tAddr - trampAddr, tail);
    MeasuredFits(q);
    forall k | 0 <= k < |items|
      ensures items[k] in items && OpOf(q, trampAddr, items[k]) == OpOf(code, tAddr, items[k])
    {
      ItemMoves(code, items, tAddr, trampAddr, tail, k);
    }
    SameListing(code, q, tAddr, trampAddr, items);
  }

  /** The trampoline runs the same instructions with the same absolute targets, then jumps to the
      original boundary at or beyond the 14 overwritten bytes. */
  lemma TrampolineMeansTheSame(code: seq<Byte>, tAddr: int, trampAddr: int)
    requires Trampoline(code, tAddr, trampAddr).Some?
    requires 0 <= tAddr && tAddr + |code| < 0x1_0000_0000_0000_0000
    ensures Measure(code, 0, 0).Some?
    ensures var tramp, items := Trampoline(code, tAddr, trampAddr).value, Measure(code, 0, 0).value;
            && Measure(tramp, 0, 0) == Measure(code, 0, 0)
            && Disassemble(tramp, trampAddr) == Disassemble(code, tAddr)
            && 14 <= Copied(items) <= |code|
            && |tramp| == Copied(items) + 14
            && JumpTarget(tramp, Copied(items)) == Some(tAddr + Copied(items))
  {
    hide Decode, Measure, Relocate, Le8, Disassemble;
    MeasuredFits(code);
    var items := Measure(code, 0, 0).value;
    RelocatedListing(code, items, tAddr, trampAddr, Jump(tAddr + Copied(items)));
    JumpBack(Relocate(code, items, tAddr - trampAddr, |items|).value, tAddr + Copied(items));
  }

  lemma SameListing(code: seq<Byte>, q: seq<Byte>, tAddr: int, trampAddr: int, items: seq<Item>)
    requires Measure(code, 0, 0) == Some(items) && Measure(q, 0, 0) == Some(items)
    requires forall i | i in items :: InCode(code, i) && InCode(q, i)
    requires forall k | 0 <= k < |items| ::
               items[k] in items && OpOf(q, trampAddr, items[k]) == OpOf(code, tAddr, items[k])
    ensures Disassemble(q, trampAddr) == Disassemble(code, tAddr)
  {
    hide Measure, OpOf;
    assert Disassemble(q, trampAddr).value == Disassemble(code, tAddr).value;
  }

  lemma SameMeasure(code: seq<Byte>, items: seq<Item>, delta: int, tail: seq<Byte>)
    requires Measure(code, 0, 0) == Some(items) && Copied(items) <= |code|
    requires Measured(code, 0, items) && forall i | i in items :: InCode(code, i) && i.off + i.insn.len <= Copied(items)
    requires Relocate(code, items, delta, |items|).Some?
    ensures Measure(Relocate(code, items, delta, |items|).value + tail, 0, 0) == Some(items)
  {
    hide Decode, Measure, Relocate, AgreeOutsideField;
    var q := Relocate(code, items, delta, |items|).value + tail;
    forall i | i in items
      ensures i.off <= |code| && i.off <= |q| && AgreeOutsideField(code[i.off..], q[i.off..], i.insn)
    {
      var j :| 0 <= j < |items| && items[j] == i;
      ItemAgrees(code, items, delta, tail, j);
    }
    MeasureStable(code, q, 0, 0);
  }

  lemma SliceBefore(r: seq<Byte>, tail: seq<Byte>, f: nat)
    ensures f + 4 <= |r| ==> (r + tail)[f..f + 4] == r[f..f + 4]
  {
  }

  /** A moved field holds its old value plus the distance. */
  lemma FieldValue(code: seq<Byte>, r: seq<Byte>, tail: seq<Byte>, item: Item, delta: int)
    requires InCode(code, item) && item.off + item.insn.len <= |r|
    requires FieldMoved(code, item, delta, r)
    ensures InCode(r + tail, item)
    ensures FieldAt(item.insn) != 0 ==>
              Field(r + tail, item.off + FieldAt(item.insn)) == Field(code, item.off + FieldAt(item.insn)) + delta
  {
    hide Le4, FromLe4;
    if FieldAt(item.insn) != 0 {
      SliceBefore(r, tail, item.off + FieldAt(item.insn));
      SignedRoundTrip(Moved(code, item, delta));
    }
  }

  lemma RelocatedField(code: seq<Byte>, items: seq<Item>, delta: int, k: nat)
    requires k < |items| && Ordered(items) && Copied(items) <= |code|
    requires forall i | i in items :: InCode(code, i) && i.off + i.insn.len <= Copied(items)
    requires Relocate(code, items, delta, |items|).Some?
    ensures InCode(code, items[k]) && items[k].off + items[k].insn.len <= Copied(items)
    ensures FieldMoved(code, items[k], delta, Relocate(code, items, delta, |items|).value)
  {
    assert items[k] in items;
    RelocateBytes(code, items, delta, |items|);
    hide FieldMoved, InSomeField, Relocate, Copied;
  }

  lemma OneMoves(code: seq<Byte>, r: seq<Byte>, tail: seq<Byte>, item: Item, tAddr: int, trampAddr: int)
    requires InCode(code, item) && item.off + item.insn.len <= |r|
    requires FieldMoved(code, item, tAddr - trampAddr, r)
    requires item.off <= |r + tail| && AgreeOutsideField(code[item.off..], (r + tail)[item.off..], item.insn)
    ensures InCode(r + tail, item) && OpOf(r + tail, trampAddr, item) == OpOf(code, tAddr, item)
  {
    FieldValue(code, r, tail, item, tAddr - trampAddr);
    hide FieldMoved, AgreeOutsideField, OpOf, Field;
    OpMoves(code, r + tail, tAddr, trampAddr, item);
  }

  lemma ItemMoves(code: seq<Byte>, items: seq<Item>, tAddr: int, trampAddr: int, tail: seq<Byte>, k: nat)
    requires k < |items| && Measured(code, 0, items) && Copied(items) <= |code|
    requires forall i | i in items :: InCode(code, i) && i.off + i.insn.len <= Copied(items)
    requires Relocate(code, items, tAddr - trampAddr, |items|).Some?
    ensures var q := Relocate(code, items, tAddr - trampAddr, |items|).value + tail;
            items[k] in items && InCode(q, items[k]) && OpOf(q, trampAddr, items[k]) == OpOf(code, tAddr, items[k])
  {
    hide Decode, Relocate, OpOf, FieldMoved, InCode, Copied, AgreeOutsideField;
    RelocatedField(code, items, tAddr - trampAddr, k);
    ItemAgrees(code, items, tAddr - trampAddr, tail, k);
    OneMoves(code, Relocate(code, items, tAddr - trampAddr, |items|).value, tail, items[k], tAddr, trampAddr);
    assert items[k] in items;
  }

  lemma JumpBack(body: seq<Byte>, target: int)
    requires 0 <= target < 0x1_0000_0000_0000_0000
    ensures JumpTarget(body + Jump(target), |body|) == Some(target)
  {
    hide Le8, FromLe8;
    var all := body + Jump(target);
    assert all[|body|..|body| + 6] == [0xFF, 0x25, 0, 0, 0, 0];
    assert all[|body| + 6..|body| + 14] == Le8(target);
    Le8RoundTrip(target);
  }

  // ---- Targets inside the function itself ----

  /** The function once its entry is overwritten. */
  function Hooked(code: seq<Byte>, detour: int): (h: seq<Byte>)
    requires 14 <= |code|
    ensures |h| == |code|
  {
    Jump(detour) + code[14..]
  }

  predicate RefersTo(op: Op, target: int) {
    op.ripTarget == Some(target) || op.callTarget == Some(target)
  }

  /** From offset `o` on, the hooked function reads as the original. */
  predicate Stands(code: seq<Byte>, detour: int, o: nat)
    requires 14 <= |code| && o <= |code|
  {
    Hooked(code, detour)[o..] == code[o..]
  }

  predicate Spared(code: seq<Byte>, detour: int, o: nat)
    requires 14 <= |code|
  {
    o < 14 ==> code[o..14] == Jump(detour)[o..]
  }

  lemma StandsIff(code: seq<Byte>, detour: int, o: nat)
    requires 14 <= |code| && o <= |code|
    ensures Stands(code, detour, o) <==> Spared(code, detour, o)
  {
    hide Jump;
    var h := Hooked(code, detour);
    forall i | 14 <= i < |code| ensures h[i] == code[i] {
    }
    if o < 14 && Stands(code, detour, o) {
      forall i | o <= i < 14 ensures Jump(detour)[i] == code[i] {
        assert h[o..][i - o] == h[i] == Jump(detour)[i] && code[o..][i - o] == code[i];
      }
      assert code[o..14] == Jump(detour)[o..];
    }
    if Spared(code, detour, o) {
      forall i | o <= i < |code| ensures h[i] == code[i] {
        if i < 14 {
          assert code[o..14][i - o] == code[i] && Jump(detour)[o..][i - o] == Jump(detour)[i];
        }
      }
    }
  }

  /** What `ops` refer to within the function still stands there once it is hooked. */
  ghost predicate TargetsStand(ops: seq<Op>, code: seq<Byte>, tAddr: int, detour: int)
    requires 14 <= |code|
  {
    forall op, target | op in ops && RefersTo(op, target) && tAddr <= target <= tAddr + |code| ::
      Stands(code, detour, target - tAddr)
  }

  /** The `ops` refer to none of the overwritten bytes, but to such as the jump has too. */
  ghost predicate TargetsSpared(ops: seq<Op>, code: seq<Byte>, tAddr: int, detour: int)
    requires 14 <= |code|
  {
    forall op, target | op in ops && RefersTo(op, target) && tAddr <= target < tAddr + 14 ::
      code[target - tAddr..14] == Jump(detour)[target - tAddr..]
  }

  /** The targets of the trampoline within the function mean the original code exactly when those of the original
      prologue spare the overwritten bytes. */
  lemma TargetsStandIff(code: seq<Byte>, tAddr: int, trampAddr: int, detour: int)
    requires Trampoline(code, tAddr, trampAddr).Some?
    requires 0 <= tAddr && tAddr + |code| < 0x1_0000_0000_0000_0000
    ensures 14 <= |code| && Disassemble(code, tAddr).Some?
    ensures Disassemble(Trampoline(code, tAddr, trampAddr).value, trampAddr).Some?
    ensures TargetsStand(Disassemble(Trampoline(code, tAddr, trampAddr).value, trampAddr).value, code, tAddr, detour)
       <==> TargetsSpared(Disassemble(code, tAddr).value, code, tAddr, detour)
  {
    hide Trampoline, Measure, RefersTo, Stands, Jump;
    TrampolineMeansTheSame(code, tAddr, trampAddr);
    var ops := Disassemble(code, tAddr).value;
    hide Disassemble;
    forall op, target | op in ops && RefersTo(op, target) && tAddr <= target <= tAddr + |code|
      ensures Stands(code, detour, target - tAddr) <==> Spared(code, detour, target - tAddr)
    {
      StandsIff(code, detour, target - tAddr);
    }
  }

  /** A prologue that begins with a jump to itself. */
  function SelfJump(): seq<Byte> {
    [0xE9, 0xFB, 0xFF, 0xFF, 0xFF, 0xE9, 0, 0, 0, 0, 0xE9, 0, 0, 0, 0]
  }

  lemma RelJumpDecodes(p: seq<Byte>)
    requires 5 <= |p| && p[0] == 0xE9
    ensures Decode(p) == Accepted(Insn(5, 0, 1))
  {
    assert OpcodeAt(p, 0) == 0;
  }

  lemma SelfJumpMeasured()
    ensures Measure(SelfJump(), 0, 0) ==
            Some([Item(0, Insn(5, 0, 1)), Item(5, Insn(5, 0, 1)), Item(10, Insn(5, 0, 1))])
  {
    hide Decode;
    var code := SelfJump();
    RelJumpDecodes(code[0..]);
    RelJumpDecodes(code[5..]);
    RelJumpDecodes(code[10..]);
    assert Measure(code, 15, 3) == Some([]);
    var third, second := [Item(10, Insn(5, 0, 1))], [Item(5, Insn(5, 0, 1)), Item(10, Insn(5, 0, 1))];
    assert Measure(code, 10, 2) == Some(third) by { assert third == [Item(10, Insn(5, 0, 1))] + []; }
    assert Measure(code, 5, 1) == Some(second) by { assert second == [Item(5, Insn(5, 0, 1))] + third; }
    assert [Item(0, Insn(5, 0, 1))] + second
        == [Item(0, Insn(5, 0, 1)), Item(5, Insn(5, 0, 1)), Item(10, Insn(5, 0, 1))];
  }

  /** From its trampoline it comes to the hook. */
  lemma SelfJumpMeetsHook(tAddr: int, detour: int)
    ensures Disassemble(SelfJump(), tAddr).Some?
    ensures !TargetsSpared(Disassemble(SelfJump(), tAddr).value, SelfJump(), tAddr, detour)
  {
    hide Measure, Decode;
    var code, op := SelfJump(), Item(0, Insn(5, 0, 1));
    SelfJumpMeasured();
    MeasuredFits(code);
    assert code[1..5] == [0xFB, 0xFF, 0xFF, 0xFF];
    assert FromLe4([0xFB, 0xFF, 0xFF, 0xFF]) == 0xFFFF_FFFB;
    var ops := Disassemble(code, tAddr).value;
    assert ops[0] in ops && RefersTo(ops[0], tAddr);
    assert code[0..14][0] != Jump(detour)[0..][0];
  }

  // ---- When the relocation succeeds ----

  /** Relocation fails exactly when some field cannot reach its target from the new place. */
  lemma {:induction false} RelocateIff(code: seq<Byte>, items: seq<Item>, delta: int, k: nat)
    requires k <= |items| && Copied(items) <= |code|
    requires forall i | i in items :: InCode(code, i) && i.off + i.insn.len <= Copied(items)
    ensures Relocate(code, items, delta, k).Some? <==>
            forall j | 0 <= j < k :: items[j] in items && Reaches(code, items[j], delta)
  {
    hide Moved, FitsInt32, Patch;
    if k > 0 {
      RelocateIff(code, items, delta, k - 1);
      assert items[k - 1] in items;
    }
  }

  /** Every address the near search tries is within 0x5FFFFFFF of the target. */
  lemma NearSearchDistance(target: int, d: int)
    requires 0x10000 <= d < 0x6000_0000 && d % 0x10000 == 0
    ensures -0x5FFF_FFFF <= (target - d) - (target - d) % 0x10000 - target <= 0x5FFF_FFFF
    ensures -0x5FFF_FFFF <= (target + d) - (target + d) % 0x10000 - target <= 0x5FFF_FFFF
  {
  }

  /** From a page that near, a field of at most 0x20000000 either way always reaches. */
  lemma NearPageReaches(code: seq<Byte>, tAddr: int, page: int)
    requires Measure(code, 0, 0).Some?
    requires -0x5FFF_FFFF <= page - tAddr <= 0x5FFF_FFFF
    requires forall i | i in Measure(code, 0, 0).value && InCode(code, i) && FieldAt(i.insn) != 0 ::
               -0x2000_0000 <= Field(code, i.off + FieldAt(i.insn)) <= 0x2000_0000
    ensures Trampoline(code, tAddr, page).Some?
  {
    hide Measure, Field, Relocate, Decode;
    MeasuredFits(code);
    var items := Measure(code, 0, 0).value;
    forall j | 0 <= j < |items| ensures items[j] in items && Reaches(code, items[j], tAddr - page) {
      assert items[j] in items;
    }
    RelocateIff(code, items, tAddr - page, |items|);
  }

  /** A hooked function cannot be hooked again: its entry no longer decodes. */
  lemma HookedIsRefused(detour: int, rest: seq<Byte>)
    ensures Decode(Jump(detour) + rest) == Refused
    ensures Measure(Jump(detour) + rest, 0, 0).None?
  {
    hide Le8;
    var code := Jump(detour) + rest;
    assert code[0] == 0xFF;
    assert OpcodeAt(code, 0) == 0;
    assert code[0..] == code;
  }

  // ---- Code ----

  /** The decoder as it runs: an index advanced over the bytes at `at`. */
  method DecodeAt(code: array<Byte>, at: nat) returns (d: Decoded)
    requires at <= code.Length
    ensures d == Decode(code[at..])
  {
    hide TakesModrm, TakesModrm0F, OperandAt, WithOperand;
    ghost var p := code[at..];
    var i := OpcodeIndex(code, at);
    if at + i == code.Length {
      return Overrun;
    }
    var op := code[at + i];
    assert p[i] == op;
    i := i + 1;
    if Plain(op) {
      d := Bounded(code, at, i, 0, 0);
    } else if TakesModrm(op) {
      d := ModrmAt(code, at, i, 0);
    } else if op == 0x0F {
      if at + i == code.Length {
        return Overrun;
      }
      var op2 := code[at + i];
      assert p[i] == op2;
      if TakesModrm0F(op2) {
        d := ModrmAt(code, at, i + 1, 0);
      } else {
        d := Refused;
      }
    } else if op == 0x83 {
      d := ModrmAt(code, at, i, 1);
    } else if op == 0x81 || op == 0xC7 {
      d := ModrmAt(code, at, i, 4);
    } else if op == 0xE8 || op == 0xE9 {
      d := Bounded(code, at, i + 4, 0, i);
    } else {
      d := Refused;
    }
  }

  /** The prefix loop. */
  method OpcodeIndex(code: array<Byte>, at: nat) returns (i: nat)
    requires at <= code.Length
    ensures at + i <= code.Length && i == OpcodeAt(code[at..], 0)
  {
    i := 0;
    while at + i < code.Length
      invariant at + i <= code.Length
      invariant OpcodeAt(code[at..], 0) == OpcodeAt(code[at..], i)
    {
      var b := code[at + i];
      assert code[at..][i] == b;
      if b == 0xF0 || b == 0xF2 || b == 0xF3 || b == 0x66 || b == 0x67 {
        i := i + 1;
      } else if b / 16 == 4 {
        i := i + 1;
        break;
      } else {
        break;
      }
    }
  }

  method Bounded(code: array<Byte>, at: nat, i: nat, rip: nat, rel: nat) returns (d: Decoded)
    requires at <= code.Length
    ensures d == Finish(code[at..], i, rip, rel)
  {
    d := if at + i > code.Length then Overrun else Accepted(Insn(i, rip, rel));
  }

  /** Past the ModRM byte at `start`, its SIB and displacement, and an immediate of `imm` bytes. */
  method ModrmAt(code: array<Byte>, at: nat, start: nat, imm: nat) returns (d: Decoded)
    requires at <= code.Length
    ensures d == WithOperand(code[at..], start, imm)
  {
    ghost var p := code[at..];
    var i, rip := start, 0;
    if at + i >= code.Length {
      return Overrun;
    }
    var m := code[at + i];
    assert p[i] == m;
    var mod, rm := m / 64, m % 8;
    i := i + 1;
    if mod != 3 {
      if rm == 4 {
        if at + i >= code.Length {
          return Overrun;
        }
        var sib := code[at + i];
        assert p[i] == sib;
        i := i + 1;
        if mod == 0 && sib % 8 == 5 {
          i := i + 4;
        }
      } else if mod == 0 && rm == 5 {
        rip := i;
        i := i + 4;
      }
      if mod == 1 {
        i := i + 1;
      } else if mod == 2 {
        i := i + 4;
      }
    }
    d := Bounded(code, at, i + imm, rip, 0);
  }

  /** Items found so far followed by the rest of the measurement. */
  function Joined(found: seq<Item>, rest: Option<seq<Item>>): Option<seq<Item>> {
    if rest.None? then None else Some(found + rest.value)
  }

  lemma JoinedStep(found: seq<Item>, code: seq<Byte>, at: nat)
    requires at <= |code| && at < 14 && |found| < 12 && Decode(code[at..]).Accepted?
    ensures at + Decode(code[at..]).insn.len <= |code|
    ensures var insn := Decode(code[at..]).insn;
            Joined(found, Measure(code, at, |found|))
            == Joined(found + [Item(at, insn)], Measure(code, at + insn.len, |found| + 1))
  {
    DecodedShape(code[at..]);
    hide Decode;
    var item, rest := Item(at, Decode(code[at..]).insn), Measure(code, at + Decode(code[at..]).insn.len, |found| + 1);
    assert rest.Some? ==> found + ([item] + rest.value) == found + [item] + rest.value;
  }

  lemma JoinNothing(items: seq<Item>, rest: Option<seq<Item>>)
    ensures Joined([], rest) == rest && Joined(items, Some([])) == Some(items) && Joined(items, None) == None
  {
    if rest.Some? {
      assert [] + rest.value == rest.value;
    }
    assert items + [] == items;
  }

  lemma MeasureEnds(code: seq<Byte>, at: nat, count: nat)
    requires at <= |code| && count <= 12
    ensures at >= 14 ==> Measure(code, at, count) == Some([])
    ensures at < 14 && (count == 12 || !Decode(code[at..]).Accepted?) ==> Measure(code, at, count) == None
  {
    hide Decode;
  }

  method MeasurePrologue(t: array<Byte>) returns (ok: bool, ins: seq<Item>, copied: nat)
    ensures ok <==> Measure(t[..], 0, 0).Some?
    ensures ok ==> ins == Measure(t[..], 0, 0).value && copied == Copied(ins)
  {
    ghost var code := t[..];
    JoinNothing([], Measure(code, 0, 0));
    hide Decode, Measure, Joined, Copied;
    ins, copied := [], 0;
    CopiedStep([], 0, Insn(0, 0, 0));
    while copied < 14
      invariant copied <= t.Length && |ins| <= 12 && copied == Copied(ins)
      invariant Measure(code, 0, 0) == Joined(ins, Measure(code, copied, |ins|))
      decreases 12 - |ins|
    {
      MeasureEnds(code, copied, |ins|);
      JoinNothing(ins, None);
      if |ins| >= 12 {
        return false, ins, copied;
      }
      var d := DecodeFrom(t, copied, code);
      if !d.Accepted? {
        return false, ins, copied;
      }
      JoinedStep(ins, code, copied);
      CopiedStep(ins, copied, d.insn);
      ins := ins + [Item(copied, d.insn)];
      copied := copied + d.insn.len;
    }
    MeasureEnds(code, copied, |ins|);
    JoinNothing(ins, None);
    ok := true;
  }

  method DecodeFrom(t: array<Byte>, at: nat, ghost code: seq<Byte>) returns (d: Decoded)
    requires at <= t.Length && code == t[..]
    ensures d == Decode(code[at..])
  {
    hide Decode;
    d := DecodeAt(t, at);
    assert code[at..] == t[at..];
  }

  lemma CopiedStep(ins: seq<Item>, at: nat, insn: Insn)
    ensures Copied([]) == 0 && Copied(ins + [Item(at, insn)]) == at + insn.len
  {
  }

  lemma PatchPrefix(a: seq<Byte>, f: nat, v: int, n: nat)
    requires f + 4 <= n <= |a|
    ensures Patch(a, f, v)[..n] == Patch(a[..n], f, v)
  {
    hide Le4;
  }

  method Store4(a: array<Byte>, f: nat, v: int)
    requires f + 4 <= a.Length
    modifies a
    ensures a[..] == Patch(old(a[..]), f, v)
  {
    var b := Le4(v);
    a[f], a[f + 1], a[f + 2], a[f + 3] := b[0], b[1], b[2], b[3];
  }

  method StoreJump(a: array<Byte>, f: nat, target: int)
    requires f + 14 <= a.Length
    modifies a
    ensures a[..] == old(a[..f]) + Jump(target) + old(a[f + 14..])
  {
    var b := Jump(target);
    forall k | 0 <= k < 14 {
      a[f + k] := b[k];
    }
  }

  method Load4(t: array<Byte>, f: nat) returns (v: int)
    requires f + 4 <= t.Length
    ensures v == Field(t[..], f)
  {
    assert t[..][f..f + 4] == t[f..f + 4];
    v := Signed32(FromLe4(t[f..f + 4]));
  }

  /** Rewrite the field at `f` of the copy: `from` is the end of the instruction in the target, `to` its
      end in the trampoline. False when the absolute target is out of reach. */
  method MoveField(t: array<Byte>, tramp: array<Byte>, f: nat, from: int, to: int, copied: nat) returns (ok: bool)
    requires t != tramp && f + 4 <= copied <= t.Length && copied <= tramp.Length
    modifies tramp
    ensures ok <==> FitsInt32(Field(t[..], f) + (from - to))
    ensures ok ==> tramp[..copied] == Patch(old(tramp[..copied]), f, Field(t[..], f) + (from - to))
    ensures !ok ==> tramp[..] == old(tramp[..])
  {
    hide Field;
    var disp := Load4(t, f);
    var target := from + disp;
    var moved := target - to;
    if moved < -0x8000_0000 || moved > 0x7FFF_FFFF {
      return false;
    }
    PatchPrefix(tramp[..], f, moved, copied);
    assert tramp[..][..copied] == tramp[..copied];
    Store4(tramp, f, moved);
    assert tramp[..][..copied] == tramp[..copied];
    ok := true;
  }

  /** The fix-up loop over the copied instructions. */
  method FixUp(t: array<Byte>, tramp: array<Byte>, tAddr: int, trampAddr: int, ins: seq<Item>, copied: nat)
      returns (ok: bool)
    requires t != tramp && tramp.Length == copied + 14 && copied == Copied(ins) <= t.Length
    requires forall i | i in ins :: InCode(t[..], i) && i.off + i.insn.len <= copied
    requires forall i | i in ins :: i.insn.rip == 0 || i.insn.rel == 0
    requires tramp[..copied] == t[..copied]
    modifies tramp
    ensures ok <==> Relocate(t[..], ins, tAddr - trampAddr, |ins|).Some?
    ensures ok ==> tramp[..copied] == Relocate(t[..], ins, tAddr - trampAddr, |ins|).value
  {
    hide Field, Patch, Copied;
    ghost var code, delta := t[..], tAddr - trampAddr;
    for j := 0 to |ins|
      invariant t[..] == code
      invariant Relocate(code, ins, delta, j) == Some(tramp[..copied])
    {
      assert ins[j] in ins;
      var o, len := ins[j].off, ins[j].insn.len;
      ok := true;
      if ins[j].insn.rip != 0 {
        ok := MoveField(t, tramp, o + ins[j].insn.rip, tAddr + o + len, trampAddr + o + len, copied);
      }
      if ok && ins[j].insn.rel != 0 {
        ok := MoveField(t, tramp, o + ins[j].insn.rel, tAddr + o + len, trampAddr + o + len, copied);
      }
      if !ok {
        FailedStays(code, ins, delta, j + 1, |ins|);
        return;
      }
    }
    ok := true;
  }

  lemma {:induction false} FailedStays(code: seq<Byte>, items: seq<Item>, delta: int, k: nat, n: nat)
    requires k <= n <= |items| && Copied(items) <= |code|
    requires forall i | i in items :: InCode(code, i) && i.off + i.insn.len <= Copied(items)
    requires Relocate(code, items, delta, k).None?
    ensures Relocate(code, items, delta, n).None?
  {
    if k < n {
      FailedStays(code, items, delta, k, n - 1);
    }
  }

  /** Install the hook. `page` is the address VirtualAlloc found, `unprotected` whether VirtualProtect
      agreed. On any failure the target keeps its bytes. */
  method Hook(t: array<Byte>, tAddr: int, detour: int, page: Option<int>, unprotected: bool)
    returns (ok: bool, tramp: array<Byte>)
    modifies t
    ensures ok <==> page.Some? && unprotected && Trampoline(old(t[..]), tAddr, page.value).Some?
    ensures ok ==> fresh(tramp) && tramp[..] == Trampoline(old(t[..]), tAddr, page.value).value
    ensures ok ==> t.Length >= 14 && t[..] == Jump(detour) + old(t[14..])
    ensures !ok ==> t[..] == old(t[..])
  {
    hide Measure, Relocate, Jump, InCode, Copied;
    tramp := new Byte[0];
    var measured, ins, copied := MeasurePrologue(t);
    if !measured || page.None? {
      return false, tramp;
    }
    ghost var code := t[..];
    MeasuredFits(code);
    MeasuredOneField(code, ins);
    tramp := new Byte[copied + 14](_ => 0);
    forall k | 0 <= k < copied {
      tramp[k] := t[k];
    }
    assert t[..] == code && tramp[..copied] == t[..copied];
    var fixed := FixUp(t, tramp, tAddr, page.value, ins, copied);
    if !fixed {
      return false, tramp;
    }
    StoreJump(tramp, copied, tAddr + copied);
    assert tramp[..] == Trampoline(code, tAddr, page.value).value;
    if !unprotected {
      return false, tramp;
    }
    StoreJump(t, 0, detour);
    ok := true;
  }

  lemma MeasuredOneField(code: seq<Byte>, items: seq<Item>)
    requires Measured(code, 0, items)
    ensures forall i | i in items :: i.insn.rip == 0 || i.insn.rel == 0
  {
    hide Decode;
    forall i | i in items ensures i.insn.rip == 0 || i.insn.rel == 0 {
      DecodedShape(code[i.off..]);
    }
  }

  /** Hooking a hooked target fails and changes nothing. */
  method HookTwice(t: array<Byte>, tAddr: int, detour: int, again: int, page: Option<int>, page2: Option<int>)
    returns (first: bool, second: bool)
    modifies t
    ensures first ==> !second
    ensures first ==> t.Length >= 14 && t[..] == Jump(detour) + old(t[14..])
  {
    hide Jump, Trampoline;
    var tramp, tramp2;
    first, tramp := Hook(t, tAddr, detour, page, true);
    ghost var hooked := t[..];
    second, tramp2 := Hook(t, tAddr, again, page2, true);
    if first {
      HookedIsRefused(detour, hooked[14..]);
      assert Jump(detour) + hooked[14..] == hooked;
      NoTrampoline(hooked, tAddr, page2);
    }
  }

  lemma NoTrampoline(code: seq<Byte>, tAddr: int, page: Option<int>)
    requires Measure(code, 0, 0).None?
    ensures page.Some? ==> Trampoline(code, tAddr, page.value).None?
  {
  }

  /** An allocation at an address, of which zero means anywhere. */
  predicate Succeeds(free: Word64 -> bool, anywhere: Option<Word64>, at: Word64) {
    if at == 0 then anywhere.Some? else free(at)
  }

  /** Within the search's distance, around the ends of the address space if need be. */
  predicate InReach(target: Word64, page: Word64) {
    Wrap64(page - target) <= 0x5FFF_FFFF || Wrap64(target - page) <= 0x5FFF_FFFF
  }

  /** The page is one of the two k pages from that of the target, and no candidate tried before succeeds: nearer ones
      first, and of two that are as near the lower one. */
  predicate FirstAt(target: Word64, free: Word64 -> bool, anywhere: Option<Word64>, page: Word64, k: nat) {
    && (page == Below(target, k) || (page == Above(target, k) && !Succeeds(free, anywhere, Below(target, k))))
    && forall j: nat | 1 <= j < k ::
         !Succeeds(free, anywhere, Below(target, j)) && !Succeeds(free, anywhere, Above(target, j))
  }

  /** The search for a page near the target. `free` says at which addresses an allocation succeeds, and `anywhere`
      what one without an address gives. */
  method AllocNear(target: Word64, free: Word64 -> bool, anywhere: Option<Word64>)
      returns (page: Option<Word64>, near: bool)
    ensures near ==> page.Some? && page.value != 0 && free(page.value) && InReach(target, page.value)
    ensures near && 0x6000_0000 <= target < 0x8000_0000_0000 ==> -0x5FFF_FFFF <= page.value - target <= 0x5FFF_FFFF
    ensures near ==> exists k: nat | 1 <= k < 0x6000 :: FirstAt(target, free, anywhere, page.value, k)
    ensures !near ==> page == anywhere
    ensures !near ==>
      || (forall k: nat | 1 <= k < 0x6000 ::
            !Succeeds(free, anywhere, Below(target, k)) && !Succeeds(free, anywhere, Above(target, k)))
      || (anywhere.Some? && exists k: nat :: 1 <= k < 0x6000 && (Below(target, k) == 0 || Above(target, k) == 0))
  {
    var d := 0x10000;
    ghost var k := 1;
    hide InReach, Succeeds;
    while d < 0x6000_0000
      invariant 1 <= k <= 0x6000 && d == k * 0x10000
      invariant forall j: nat | 1 <= j < k ::
        !Succeeds(free, anywhere, Below(target, j)) && !Succeeds(free, anywhere, Above(target, j))
      decreases 0x6000_0000 - d
    {
      var low: Word64 := Wrap64(target - d) - Wrap64(target - d) % 0x10000;
      assert low == Below(target, k);
      CandidatesReach(target, k);
      SucceedsIs(free, anywhere, low);
      if low == 0 && anywhere.Some? {
        return anywhere, false;
      }
      if low != 0 && free(low) {
        assert FirstAt(target, free, anywhere, low, k);
        return Some(low), true;
      }
      var high: Word64 := Wrap64(target + d) - Wrap64(target + d) % 0x10000;
      assert high == Above(target, k);
      SucceedsIs(free, anywhere, high);
      if high == 0 && anywhere.Some? {
        return anywhere, false;
      }
      if high != 0 && free(high) {
        assert FirstAt(target, free, anywhere, high, k);
        return Some(high), true;
      }
      d := d + 0x10000;
      k := k + 1;
    }
    return anywhere, false;
  }

  /** The candidates are the pages of 0x10000 bytes k before and k after the one the target lies in, around the ends of
      the address space. */
  lemma CandidatesAre(target: Word64, k: nat)
    requires 1 <= k < 0x6000
    ensures Below(target, k) == (target / 0x10000 - k) % 0x1_0000_0000_0000 * 0x10000
    ensures Above(target, k) == (target / 0x10000 + k) % 0x1_0000_0000_0000 * 0x10000
  {
    PageOf(target - k * 0x10000);
    PageOf(target + k * 0x10000);
  }

  /** Pages do not straddle the ends of the address space. */
  lemma PageOf(x: int)
    ensures Wrap64(x) - Wrap64(x) % 0x10000 == x / 0x10000 % 0x1_0000_0000_0000 * 0x10000
  {
    var q := x / 0x1_0000_0000_0000_0000;
    assert x == q * 0x1_0000_0000_0000_0000 + Wrap64(x);
    assert x / 0x10000 == q * 0x1_0000_0000_0000 + Wrap64(x) / 0x10000;
  }

  lemma SucceedsIs(free: Word64 -> bool, anywhere: Option<Word64>, at: Word64)
    ensures Succeeds(free, anywhere, at) <==> if at == 0 then anywhere.Some? else free(at)
  {
  }

  /** Every candidate lies in reach of every target. */
  lemma CandidatesReach(target: Word64, k: nat)
    requires 1 <= k < 0x6000
    ensures InReach(target, Below(target, k)) && InReach(target, Above(target, k))
  {
    var d, low, high := k * 0x10000, Wrap64(target - k * 0x10000) % 0x10000, Wrap64(target + k * 0x10000) % 0x10000;
    RoundedDown(target - d);
    RoundedDown(target + d);
    Apart(target, d + low);
    Apart(target, d - high);
  }

  lemma RoundedDown(x: int)
    ensures Wrap64(x) - Wrap64(x) % 0x10000 == Wrap64(x - Wrap64(x) % 0x10000)
  {
  }

  lemma Apart(t: Word64, x: Word64)
    ensures Wrap64(t - Wrap64(t - x)) == x && Wrap64(Wrap64(t + x) - t) == x
  {
    WrapMinus(t, t - x);
    var from: int := t;
    WrapTwice(from + x, -from);
  }

  lemma WrapMinus(t: Word64, d: int)
    ensures Wrap64(t - Wrap64(d)) == Wrap64(t - d)
  {
    assert t - Wrap64(d) == t - d + d / 0x1_0000_0000_0000_0000 * 0x1_0000_0000_0000_0000;
  }

  function Below(target: Word64, k: nat): Word64 {
    Wrap64(target - k * 0x10000) - Wrap64(target - k * 0x10000) % 0x10000
  }

  function Above(target: Word64, k: nat): Word64 {
    Wrap64(target + k * 0x10000) - Wrap64(target + k * 0x10000) % 0x10000
  }
}
