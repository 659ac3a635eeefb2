/** What the hook does to a prologue, said of instructions instead of the decoder's answers: which instructions it
    takes, when it can move them, and what the trampoline then holds. */
module PrintedHook {
  import opened Words
  import opened Bytes
  import opened X64Decode
  import opened X64Format
  import opened InlineHook

  function PrintAll(xs: seq<Instruction>): seq<Byte> {
    if xs == [] then [] else Print(xs[0]) + PrintAll(xs[1..])
  }

  /** `code` begins with `xs`: as few instructions as cover 14 bytes, and no more than 12. */
  ghost predicate Prologue(code: seq<Byte>, xs: seq<Instruction>) {
    && xs != [] && |xs| <= 12 && (forall x | x in xs :: WellFormed(x))
    && PrintAll(xs) <= code
    && |PrintAll(xs[..|xs| - 1])| < 14 <= |PrintAll(xs)|
  }

  /** An instruction with its relative displacement, if it has one, moved. */
  function Shifted(x: Instruction, delta: int): Instruction {
    match x.body
    case Call(disp) => x.(body := Call(disp + delta))
    case Jmp(disp) => x.(body := Jmp(disp + delta))
    case Using(opcode, reg, place, imm) =>
      if place.AtNext? then x.(body := Using(opcode, reg, AtNext(place.disp + delta), imm)) else x
    case _ => x
  }

  function ShiftedAll(xs: seq<Instruction>, delta: int): (ys: seq<Instruction>)
    ensures |ys| == |xs| && forall k :: 0 <= k < |xs| ==> ys[k] == Shifted(xs[k], delta)
  {
    seq(|xs|, k requires 0 <= k < |xs| => Shifted(xs[k], delta))
  }

  /** The address an instruction refers to, when the next one is at `next`. */
  function Target(x: Instruction, next: int): Option<int> {
    match x.body
    case Call(disp) => Some(next + disp)
    case Jmp(disp) => Some(next + disp)
    case Using(_, _, place, _) => if place.AtNext? then Some(next + place.disp) else None
    case _ => None
  }

  /** The address the k-th of `xs` refers to, when they lie at `base`. */
  function TargetAt(xs: seq<Instruction>, base: int, k: nat): Option<int>
    requires k < |xs|
  {
    Target(xs[k], base + |PrintAll(xs[..k + 1])|)
  }

  // ---- The same instructions, measured and printed ----

  function ItemsOf(xs: seq<Instruction>, at: nat): (items: seq<Item>)
    ensures |items| == |xs|
  {
    if xs == [] then [] else [Item(at, InsnOf(xs[0]))] + ItemsOf(xs[1..], at + |Print(xs[0])|)
  }

  lemma {:induction false} PrologueMeasured(code: seq<Byte>, xs: seq<Instruction>, at: nat, count: nat)
    requires (forall x | x in xs :: WellFormed(x)) && |xs| + count <= 12
    requires at <= |code| && PrintAll(xs) <= code[at..]
    requires if xs == [] then at >= 14
             else at + |PrintAll(xs[..|xs| - 1])| < 14 <= at + |PrintAll(xs)|
    ensures Measure(code, at, count) == Some(ItemsOf(xs, at))
    decreases |xs|
  {
    hide Decode, Print, InsnOf, WellFormed;
    if xs != [] {
      var x, n := xs[0], |Print(xs[0])|;
      AcceptsIff(code[at..]);
      assert Print(x) <= code[at..];
      assert InsnOf(x).len == n by { LengthOf(x); }
      assert code[at + n..] == code[at..][n..];
      if |xs| > 1 {
        assert xs[..|xs| - 1][1..] == xs[1..][..|xs[1..]| - 1];
      }
      PrologueMeasured(code, xs[1..], at + n, count + 1);
    }
  }

  lemma LengthOf(x: Instruction)
    ensures InsnOf(x).len == |Print(x)|
  {
  }

  lemma {:induction false} MeasuredPrologue(code: seq<Byte>, at: nat, count: nat) returns (xs: seq<Instruction>)
    requires at <= |code| && count <= 12 && Measure(code, at, count).Some?
    ensures (forall x | x in xs :: WellFormed(x)) && |xs| + count <= 12
    ensures PrintAll(xs) <= code[at..]
    ensures if xs == [] then at >= 14
            else at + |PrintAll(xs[..|xs| - 1])| < 14 <= at + |PrintAll(xs)|
    decreases 12 - count
  {
    hide Decode, Print, InsnOf, WellFormed;
    xs := [];
    if at < 14 {
      MeasureStep(code, at, count);
      var x := AcceptedIsPrint(code[at..]);
      var n := |Print(x)|;
      LengthOf(x);
      assert code[at + n..] == code[at..][n..];
      var rest := MeasuredPrologue(code, at + n, count + 1);
      xs := [x] + rest;
      assert xs[1..] == rest;
      if rest != [] {
        assert xs[..|xs| - 1] == [x] + rest[..|rest| - 1];
      }
    }
  }

  // ---- Relocation ----

  /** The displacement that depends on where the instruction stands. */
  function Displacement(x: Instruction): int
    requires RipRelative(x) || Branches(x)
  {
    match x.body
    case Call(disp) => disp
    case Jmp(disp) => disp
    case Using(_, _, place, _) => place.disp
  }

  lemma SlicePart(s: seq<Byte>, a: seq<Byte>, f: seq<Byte>, b: seq<Byte>)
    requires s == a + f + b && |f| == 4
    ensures s[|a|..|a| + 4] == f && s[..|a|] == a && s[|a| + 4..] == b
  {
  }

  /** The bytes before the field, and behind it. */
  function BeforeField(x: Instruction): seq<Byte> {
    Prefixes(x) + match x.body
                  case Call(_) => [0xE8]
                  case Jmp(_) => [0xE9]
                  case Using(opcode, reg, _, _) => OpcodeBytes(opcode) + [Modrm(0, reg, 5)]
                  case _ => []
  }

  function BehindField(x: Instruction): seq<Byte> {
    if x.body.Using? then x.body.imm else []
  }

  lemma FieldPrinted(x: Instruction)
    requires RipRelative(x) || Branches(x)
    ensures |BeforeField(x)| == FieldAt(InsnOf(x))
    ensures Print(x) == BeforeField(x) + Le4(Displacement(x)) + BehindField(x)
  {
    hide Le4, Prefixes, OpcodeBytes;
    if x.body.Using? {
      var b := x.body;
      assert PlaceBytes(b.reg, b.place) == [Modrm(0, b.reg, 5)] + Le4(b.place.disp);
    }
  }

  lemma ShiftedParts(x: Instruction, delta: int)
    ensures BeforeField(Shifted(x, delta)) == BeforeField(x) && BehindField(Shifted(x, delta)) == BehindField(x)
    ensures RipRelative(Shifted(x, delta)) == RipRelative(x) && Branches(Shifted(x, delta)) == Branches(x)
    ensures RipRelative(x) || Branches(x) ==> Displacement(Shifted(x, delta)) == Displacement(x) + delta
    ensures !RipRelative(x) && !Branches(x) ==> Shifted(x, delta) == x
  {
    hide OpcodeBytes, LegacyBytes;
  }

  lemma FieldOrNot(x: Instruction)
    ensures FieldAt(InsnOf(x)) != 0 <==> RipRelative(x) || Branches(x)
  {
    hide Prefixes, OpcodeBytes, Print;
  }

  lemma FieldReads(x: Instruction, code: seq<Byte>, off: nat)
    requires WellFormed(x) && off <= |code| && Print(x) <= code[off..]
    ensures InCode(code, Item(off, InsnOf(x))) && off + |Print(x)| <= |code|
    ensures FieldAt(InsnOf(x)) != 0 ==>
      && (RipRelative(x) || Branches(x))
      && Field(code, off + FieldAt(InsnOf(x))) == Displacement(x)
  {
    hide Print, WellFormed, InsnOf, Le4, FromLe4, Signed32, FitsInt32, Displacement, RipRelative, Branches;
    FieldOrNot(x);
    LengthOf(x);
    if RipRelative(x) || Branches(x) {
      FieldPrinted(x);
      var f, disp := |BeforeField(x)|, Displacement(x);
      DisplacementFits(x);
      SignedRoundTrip(disp);
      SlicePart(Print(x), BeforeField(x), Le4(disp), BehindField(x));
      assert code[off + f..off + f + 4] == Print(x)[f..f + 4];
    }
  }

  lemma DisplacementFits(x: Instruction)
    requires WellFormed(x) && (RipRelative(x) || Branches(x))
    ensures FitsInt32(Displacement(x))
    ensures forall delta :: WellFormed(Shifted(x, delta)) <==> FitsInt32(Displacement(x) + delta)
  {
  }

  lemma ShiftedPrint(x: Instruction, delta: int)
    requires WellFormed(x)
    ensures |Print(Shifted(x, delta))| == |Print(x)|
    ensures FieldAt(InsnOf(x)) == 0 ==> Shifted(x, delta) == x
    ensures FieldAt(InsnOf(x)) != 0 ==>
      && (RipRelative(x) || Branches(x)) && FieldAt(InsnOf(x)) + 4 <= |Print(x)|
      && Print(Shifted(x, delta)) == Patch(Print(x), FieldAt(InsnOf(x)), Displacement(x) + delta)
      && (WellFormed(Shifted(x, delta)) <==> FitsInt32(Displacement(x) + delta))
  {
    hide Print, WellFormed, InsnOf, Le4, FitsInt32, Displacement, RipRelative, Branches, Shifted;
    FieldOrNot(x);
    ShiftedParts(x, delta);
    if RipRelative(x) || Branches(x) {
      FieldPrinted(x);
      FieldPrinted(Shifted(x, delta));
      DisplacementFits(x);
      SlicePart(Print(x), BeforeField(x), Le4(Displacement(x)), BehindField(x));
    }
  }

  lemma {:induction false} PrintConcat(a: seq<Instruction>, b: seq<Instruction>)
    ensures PrintAll(a + b) == PrintAll(a) + PrintAll(b)
  {
    hide Print;
    if a == [] {
      assert a + b == b;
    } else {
      PrintConcat(a[1..], b);
      assert (a + b)[1..] == a[1..] + b;
    }
  }

  /** The prints around the k-th. */
  lemma PrintSplits(xs: seq<Instruction>, k: nat)
    requires k < |xs|
    ensures PrintAll(xs) == PrintAll(xs[..k]) + Print(xs[k]) + PrintAll(xs[k + 1..])
    ensures PrintAll(xs[..k + 1]) == PrintAll(xs[..k]) + Print(xs[k])
    ensures PrintAll(xs[k..]) == Print(xs[k]) + PrintAll(xs[k + 1..])
  {
    hide Print, PrintAll;
    var init, one, rest := xs[..k], [xs[k]], xs[k + 1..];
    SplitsAt(xs, k);
    PrintOne(xs[k]);
    PrintConcat(init, one);
    PrintConcat(one, rest);
    PrintConcat(init + one, rest);
  }

  lemma SplitsAt<T>(s: seq<T>, k: nat)
    requires k < |s|
    ensures s[..k + 1] == s[..k] + [s[k]] && s[k..] == [s[k]] + s[k + 1..] && s == s[..k] + [s[k]] + s[k + 1..]
  {
  }

  lemma PrintOne(x: Instruction)
    ensures PrintAll([x]) == Print(x) && PrintAll([]) == []
  {
    hide Print;
    assert [x][1..] == [];
  }

  lemma {:induction false} ItemAt(xs: seq<Instruction>, at: nat, k: nat)
    requires k < |xs|
    ensures ItemsOf(xs, at)[k] == Item(at + |PrintAll(xs[..k])|, InsnOf(xs[k]))
  {
    hide Print, InsnOf;
    if k > 0 {
      ItemAt(xs[1..], at + |Print(xs[0])|, k - 1);
      assert xs[1..][..k - 1] == xs[..k][1..];
    }
  }

  lemma CopiedIs(xs: seq<Instruction>)
    ensures Copied(ItemsOf(xs, 0)) == |PrintAll(xs)|
  {
    hide Print, InsnOf;
    if xs != [] {
      var k := |xs| - 1;
      ItemAt(xs, 0, k);
      PrintSplits(xs, k);
      LengthOf(xs[k]);
      assert xs[..k + 1] == xs;
    }
  }

  /** All displacements still fit. */
  ghost predicate Reach(xs: seq<Instruction>, delta: int) {
    forall y | y in ShiftedAll(xs, delta) :: WellFormed(y)
  }

  lemma {:induction false} ShiftedLength(xs: seq<Instruction>, delta: int)
    requires forall x | x in xs :: WellFormed(x)
    ensures |PrintAll(ShiftedAll(xs, delta))| == |PrintAll(xs)|
  {
    hide Print, Shifted, WellFormed;
    if xs != [] {
      ShiftedPrint(xs[0], delta);
      ShiftedLength(xs[1..], delta);
      assert ShiftedAll(xs, delta)[1..] == ShiftedAll(xs[1..], delta);
    }
  }

  lemma PatchWithin(a: seq<Byte>, s: seq<Byte>, b: seq<Byte>, f: nat, v: int)
    requires f + 4 <= |s|
    ensures Patch(a + s + b, |a| + f, v) == a + Patch(s, f, v) + b
  {
    hide Le4;
  }

  /** What is relocated once the first `k` instructions are. */
  function Mixed(xs: seq<Instruction>, delta: int, k: nat): seq<Byte>
    requires k <= |xs|
  {
    PrintAll(ShiftedAll(xs[..k], delta)) + PrintAll(xs[k..])
  }

  lemma MixedStep(xs: seq<Instruction>, delta: int, k: nat)
    requires k < |xs| && forall x | x in xs :: WellFormed(x)
    ensures var f, n, m := FieldAt(InsnOf(xs[k])), |PrintAll(xs[..k])|, Mixed(xs, delta, k);
      if f == 0 then Shifted(xs[k], delta) == xs[k] && Mixed(xs, delta, k + 1) == m
      else
        && (RipRelative(xs[k]) || Branches(xs[k])) && n + f + 4 <= |m|
        && Mixed(xs, delta, k + 1) == Patch(m, n + f, Displacement(xs[k]) + delta)
        && (WellFormed(Shifted(xs[k], delta)) <==> FitsInt32(Displacement(xs[k]) + delta))
  {
    hide Print, Shifted, WellFormed, InsnOf, Patch, Displacement, RipRelative, Branches, FitsInt32;
    var x, a, b := xs[k], PrintAll(ShiftedAll(xs[..k], delta)), PrintAll(xs[k + 1..]);
    ShiftedPrint(x, delta);
    ShiftedLength(xs[..k], delta);
    PrintSplits(xs, k);
    var ys := ShiftedAll(xs[..k + 1], delta);
    PrintSplits(ys, k);
    assert ys[..k + 1] == ys && ys[..k] == ShiftedAll(xs[..k], delta);
    assert Mixed(xs, delta, k) == a + Print(x) + b;
    assert Mixed(xs, delta, k + 1) == a + Print(Shifted(x, delta)) + b;
    if FieldAt(InsnOf(x)) != 0 {
      PatchWithin(a, Print(x), b, FieldAt(InsnOf(x)), Displacement(x) + delta);
    }
  }

  /** Relocation succeeds as far as the displacements fit, and gives the shifted prints. */
  lemma {:induction false} RelocatesPrints(code: seq<Byte>, xs: seq<Instruction>, delta: int, k: nat)
    requires (forall x | x in xs :: WellFormed(x)) && k <= |xs| && PrintAll(xs) <= code
    requires forall i | i in ItemsOf(xs, 0) :: InCode(code, i) && i.off + i.insn.len <= Copied(ItemsOf(xs, 0))
    requires Copied(ItemsOf(xs, 0)) <= |code|
    ensures Relocate(code, ItemsOf(xs, 0), delta, k) ==
      if Reach(xs[..k], delta) then Some(Mixed(xs, delta, k)) else None
  {
    hide Print, WellFormed, InsnOf, Displacement, RipRelative, Branches, FitsInt32, Shifted, Patch, Mixed, Copied,
      Field, InCode, Reach, ItemsOf, PrintAll;
    CopiedIs(xs);
    if k == 0 {
      assert Reach(xs[..0], delta) by { NoneReach(xs[..0], delta); }
      MixedNone(xs, delta);
      assert code[..|PrintAll(xs)|] == PrintAll(xs);
    } else {
      var x, n := xs[k - 1], |PrintAll(xs[..k - 1])|;
      RelocatesPrints(code, xs, delta, k - 1);
      ItemAt(xs, 0, k - 1);
      MixedStep(xs, delta, k - 1);
      PrintSplits(xs, k - 1);
      PrintThere(code, xs, k - 1);
      FieldReads(x, code, n);
      ReachStep(xs, delta, k - 1);
    }
  }

  lemma PrintThere(code: seq<Byte>, xs: seq<Instruction>, k: nat)
    requires PrintAll(xs) <= code && k < |xs|
    ensures |PrintAll(xs[..k])| <= |code| && Print(xs[k]) <= code[|PrintAll(xs[..k])|..]
  {
    hide Print, PrintAll;
    PrintSplits(xs, k);
  }

  lemma NoneReach(xs: seq<Instruction>, delta: int)
    requires xs == []
    ensures Reach(xs, delta)
  {
  }

  lemma MixedNone(xs: seq<Instruction>, delta: int)
    ensures Mixed(xs, delta, 0) == PrintAll(xs)
    ensures Mixed(xs, delta, |xs|) == PrintAll(ShiftedAll(xs, delta))
  {
    hide Print, Shifted;
    assert xs[0..] == xs && xs[..|xs|] == xs;
  }

  lemma ReachStep(xs: seq<Instruction>, delta: int, k: nat)
    requires k < |xs| && (forall x | x in xs :: WellFormed(x))
    ensures Reach(xs[..k + 1], delta) <==> Reach(xs[..k], delta) && WellFormed(Shifted(xs[k], delta))
  {
    hide WellFormed, Shifted;
    var ys := ShiftedAll(xs[..k + 1], delta);
    assert ys == ShiftedAll(xs[..k], delta) + [Shifted(xs[k], delta)];
  }

  // ---- The trampoline ----

  /** Of a prologue the trampoline is made exactly when every displacement still fits, and it is the prologue's
      instructions, each with its displacement moved by the distance, and the jump behind them. */
  lemma TrampolineIs(code: seq<Byte>, xs: seq<Instruction>, tAddr: int, trampAddr: int)
    requires Prologue(code, xs)
    ensures Trampoline(code, tAddr, trampAddr) ==
      if Reach(xs, tAddr - trampAddr)
      then Some(PrintAll(ShiftedAll(xs, tAddr - trampAddr)) + [0xFF, 0x25, 0, 0, 0, 0] + Le8(tAddr + |PrintAll(xs)|))
      else None
  {
    hide Print, WellFormed, InsnOf, Shifted, Mixed, Copied, InCode, Reach, Measure, Relocate, Le8;
    assert code[0..] == code;
    PrologueMeasured(code, xs, 0, 0);
    MeasuredFits(code);
    CopiedIs(xs);
    RelocatesPrints(code, xs, tAddr - trampAddr, |xs|);
    MixedNone(xs, tAddr - trampAddr);
    assert xs[..|xs|] == xs;
    var moved, back := PrintAll(ShiftedAll(xs, tAddr - trampAddr)), Le8(tAddr + |PrintAll(xs)|);
    assert moved + [0xFF, 0x25, 0, 0, 0, 0] + back == moved + ([0xFF, 0x25, 0, 0, 0, 0] + back);
  }

  /** There is a trampoline exactly when the code begins with a prologue whose displacements still fit. */
  lemma TrampolineIff(code: seq<Byte>, tAddr: int, trampAddr: int)
    ensures Trampoline(code, tAddr, trampAddr).Some? <==>
            exists xs :: Prologue(code, xs) && Reach(xs, tAddr - trampAddr)
  {
    hide Prologue, Reach, Relocate;
    if Trampoline(code, tAddr, trampAddr).Some? {
      var xs := PrologueOf(code);
      TrampolineIs(code, xs, tAddr, trampAddr);
    }
    if xs :| Prologue(code, xs) && Reach(xs, tAddr - trampAddr) {
      TrampolineIs(code, xs, tAddr, trampAddr);
    }
  }

  lemma PrologueOf(code: seq<Byte>) returns (xs: seq<Instruction>)
    requires Measure(code, 0, 0).Some?
    ensures Prologue(code, xs)
  {
    hide Measure, Print, WellFormed;
    xs := MeasuredPrologue(code, 0, 0);
    assert code[0..] == code;
  }

  /** Each instruction of the trampoline refers to the address it referred to before. */
  lemma TargetsKept(xs: seq<Instruction>, tAddr: int, trampAddr: int, k: nat)
    requires (forall x | x in xs :: WellFormed(x)) && k < |xs|
    ensures TargetAt(ShiftedAll(xs, tAddr - trampAddr), trampAddr, k) == TargetAt(xs, tAddr, k)
  {
    hide Print, WellFormed, PrintAll;
    var delta := tAddr - trampAddr;
    assert ShiftedAll(xs, delta)[..k + 1] == ShiftedAll(xs[..k + 1], delta);
    ShiftedLength(xs[..k + 1], delta);
  }

  // ---- The listing ----

  /** The instruction with its relative displacement, if it has one, zero. */
  function Unplaced(x: Instruction): Instruction {
    if RipRelative(x) || Branches(x) then Shifted(x, -Displacement(x)) else x
  }

  lemma ZeroField()
    ensures Le4(0) == [0, 0, 0, 0]
  {
  }

  lemma BlankPrint(x: Instruction)
    requires WellFormed(x)
    ensures Blank(InsnOf(x), Print(x)) == Print(Unplaced(x))
  {
    hide Print, WellFormed, InsnOf, Le4, FitsInt32, Displacement, RipRelative, Branches, Shifted;
    FieldOrNot(x);
    if RipRelative(x) || Branches(x) {
      ShiftedPrint(x, -Displacement(x));
      ZeroField();
      var s, f := Print(x), FieldAt(InsnOf(x));
      assert Patch(s, f, 0) == s[..f] + [0, 0, 0, 0] + s[f + 4..];
      assert Blank(InsnOf(x), s) == s[..f] + [0, 0, 0, 0] + s[f + 4..];
    } else {
      assert Blank(InsnOf(x), Print(x)) == Print(x);
    }
  }

  /** The listing of an instruction that stands at `off` of code loaded at `base`. */
  function Listed(x: Instruction, next: int): Op {
    Op(Print(Unplaced(x)), if RipRelative(x) then Target(x, next) else None,
       if Branches(x) then Target(x, next) else None)
  }

  lemma OpIs(x: Instruction, code: seq<Byte>, off: nat, base: int)
    requires WellFormed(x) && off <= |code| && Print(x) <= code[off..]
    ensures InCode(code, Item(off, InsnOf(x)))
    ensures OpOf(code, base, Item(off, InsnOf(x))) == Listed(x, base + off + |Print(x)|)
  {
    hide Print, WellFormed, InsnOf, Blank, Unplaced, Field;
    FieldReads(x, code, off);
    LengthOf(x);
    BlankPrint(x);
    assert code[off..off + |Print(x)|] == Print(x);
    FieldKind(x);
  }

  lemma FieldKind(x: Instruction)
    ensures InsnOf(x).rip != 0 <==> RipRelative(x)
    ensures InsnOf(x).rel != 0 <==> Branches(x)
  {
    hide Prefixes, OpcodeBytes, Print;
  }

  lemma DisassembleIs(code: seq<Byte>, base: int, items: seq<Item>, k: nat)
    requires Measure(code, 0, 0) == Some(items) && k < |items|
    ensures InCode(code, items[k]) && Disassemble(code, base).Some? && |Disassemble(code, base).value| == |items|
    ensures Disassemble(code, base).value[k] == OpOf(code, base, items[k])
  {
    hide OpOf, InCode, Measure;
    MeasuredFits(code);
    assert items[k] in items;
  }

  lemma OneListed(code: seq<Byte>, xs: seq<Instruction>, base: int, k: nat)
    requires Prologue(code, xs) && k < |xs| && Measure(code, 0, 0) == Some(ItemsOf(xs, 0))
    ensures Disassemble(code, base).Some? && |Disassemble(code, base).value| == |xs|
    ensures Disassemble(code, base).value[k] == Listed(xs[k], base + |PrintAll(xs[..k + 1])|)
  {
    hide Print, WellFormed, InsnOf, Listed, OpOf, InCode, Measure, PrintAll, Disassemble, ItemsOf;
    DisassembleIs(code, base, ItemsOf(xs, 0), k);
    PrintThere(code, xs, k);
    ItemAt(xs, 0, k);
    OpIs(xs[k], code, |PrintAll(xs[..k])|, base);
    PrintSplits(xs, k);
  }

  /** Disassembled at `base`, a prologue lists its own instructions: what each is apart from its relative displacement,
      and the address it refers to. */
  lemma ListingIs(code: seq<Byte>, xs: seq<Instruction>, base: int)
    requires Prologue(code, xs)
    ensures var ops := Disassemble(code, base);
            && ops.Some? && |ops.value| == |xs|
            && forall k | 0 <= k < |xs| :: ops.value[k] == Listed(xs[k], base + |PrintAll(xs[..k + 1])|)
  {
    hide Listed, Measure, PrintAll, Disassemble, ItemsOf, WellFormed;
    assert code[0..] == code && xs != [];
    assert Measure(code, 0, 0) == Some(ItemsOf(xs, 0)) by {
      PrologueMeasured(code, xs, 0, 0);
    }
    OneListed(code, xs, base, 0);
    forall k | 0 <= k < |xs|
      ensures Disassemble(code, base).value[k] == Listed(xs[k], base + |PrintAll(xs[..k + 1])|)
    {
      OneListed(code, xs, base, k);
    }
  }
}
