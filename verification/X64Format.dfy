/** The instructions the hook can relocate, as a format of their own: prefixes, opcode, ModRM, SIB, displacement and
    immediate, printed to bytes. The decoder reads back exactly what is printed. */
module X64Format {
  import opened Words
  import opened Bytes
  import opened X64Decode

  type Register = x: int | 0 <= x < 8

  /** Scale and index of a SIB byte. */
  type Index = x: int | 0 <= x < 32

  type Nibble = x: int | 0 <= x < 16

  datatype Legacy = Lock | Repne | Rep | OperandSize | AddressSize

  datatype Alu = Add | Or | Sub | Xor

  datatype Sse =
    | Endbr | LongNop | MovUpsLoad | MovUpsStore | MovApsLoad | MovApsStore | Ucomiss | Comiss
    | AndPs | AndnPs | OrPs | XorPs | AddPs | MulPs | SubPs | DivPs
    | MovdLoad | MovdqaLoad | MovdStore | MovdqaStore | MovqStore | Pxor

  /** The opcodes that take a ModRM byte. `wide` and `load` are the two low bits of an opcode. */
  datatype Opcode =
    | Arith(alu: Alu, wide: bool, load: bool)
    | Test(wide: bool)
    | Mov(wide: bool, load: bool)
    | Lea
    | Movsxd
    | TwoByte(sse: Sse)
    | ArithImm8
    | ArithImm32
    | MovImm32

  /** A ModRM byte with what it asks for: a register, or memory at a register, at the next instruction's address, or at
      a SIB's base and index, with a displacement of one byte, of four, or of none. */
  datatype Place =
    | Direct(rm: Register)
    | At(base: Register)
    | AtNext(disp: int)
    | Near(base: Register, disp8: Byte)
    | Far(base: Register, disp: int)
    | Indexed(index: Index, base: Register)
    | IndexedOnly(index: Index, disp: int)
    | IndexedNear(index: Index, base: Register, disp8: Byte)
    | IndexedFar(index: Index, base: Register, disp: int)

  datatype Body =
    | Push(reg: Register)
    | Nop
    | Ret
    | Using(opcode: Opcode, reg: Register, place: Place, imm: seq<Byte>)
    | Call(disp: int)
    | Jmp(disp: int)

  datatype Instruction = Instruction(legacy: seq<Legacy>, rex: Option<Nibble>, body: Body)

  // ---- Printing ----

  function LegacyByte(l: Legacy): Byte {
    match l
    case Lock => 0xF0
    case Repne => 0xF2
    case Rep => 0xF3
    case OperandSize => 0x66
    case AddressSize => 0x67
  }

  function LegacyBytes(ls: seq<Legacy>): (s: seq<Byte>)
    ensures |s| == |ls|
    ensures forall k :: 0 <= k < |s| ==> s[k] == LegacyByte(ls[k])
  {
    seq(|ls|, k requires 0 <= k < |ls| => LegacyByte(ls[k]))
  }

  function Prefixes(x: Instruction): seq<Byte> {
    LegacyBytes(x.legacy) + if x.rex.Some? then [0x40 + x.rex.value] else []
  }

  function AluByte(alu: Alu): Byte {
    match alu
    case Add => 0x00
    case Or => 0x08
    case Sub => 0x28
    case Xor => 0x30
  }

  function SseByte(sse: Sse): Byte {
    match sse
    case Endbr => 0x1E
    case LongNop => 0x1F
    case MovUpsLoad => 0x10
    case MovUpsStore => 0x11
    case MovApsLoad => 0x28
    case MovApsStore => 0x29
    case Ucomiss => 0x2E
    case Comiss => 0x2F
    case AndPs => 0x54
    case AndnPs => 0x55
    case OrPs => 0x56
    case XorPs => 0x57
    case AddPs => 0x58
    case MulPs => 0x59
    case SubPs => 0x5C
    case DivPs => 0x5E
    case MovdLoad => 0x6E
    case MovdqaLoad => 0x6F
    case MovdStore => 0x7E
    case MovdqaStore => 0x7F
    case MovqStore => 0xD6
    case Pxor => 0xEF
  }

  function Bit(b: bool): int {
    if b then 1 else 0
  }

  function OpcodeBytes(op: Opcode): seq<Byte> {
    match op
    case Arith(alu, wide, load) => [AluByte(alu) + Bit(wide) + 2 * Bit(load)]
    case Test(wide) => [0x84 + Bit(wide)]
    case Mov(wide, load) => [0x88 + Bit(wide) + 2 * Bit(load)]
    case Lea => [0x8D]
    case Movsxd => [0x63]
    case TwoByte(sse) => [0x0F, SseByte(sse)]
    case ArithImm8 => [0x83]
    case ArithImm32 => [0x81]
    case MovImm32 => [0xC7]
  }

  function ImmSize(op: Opcode): nat {
    match op
    case ArithImm8 => 1
    case ArithImm32 => 4
    case MovImm32 => 4
    case _ => 0
  }

  function Modrm(mod: int, reg: Register, rm: Register): Byte
    requires 0 <= mod < 4
  {
    64 * mod + 8 * reg + rm
  }

  function PlaceBytes(reg: Register, place: Place): seq<Byte> {
    match place
    case Direct(rm) => [Modrm(3, reg, rm)]
    case At(base) => [Modrm(0, reg, base)]
    case AtNext(disp) => [Modrm(0, reg, 5)] + Le4(disp)
    case Near(base, disp8) => [Modrm(1, reg, base), disp8]
    case Far(base, disp) => [Modrm(2, reg, base)] + Le4(disp)
    case Indexed(index, base) => [Modrm(0, reg, 4), 8 * index + base]
    case IndexedOnly(index, disp) => [Modrm(0, reg, 4), 8 * index + 5] + Le4(disp)
    case IndexedNear(index, base, disp8) => [Modrm(1, reg, 4), 8 * index + base, disp8]
    case IndexedFar(index, base, disp) => [Modrm(2, reg, 4), 8 * index + base] + Le4(disp)
  }

  function BodyBytes(b: Body): (s: seq<Byte>)
    ensures s != []
  {
    match b
    case Push(reg) => [0x50 + reg]
    case Nop => [0x90]
    case Ret => [0xC3]
    case Using(opcode, reg, place, imm) => OpcodeBytes(opcode) + PlaceBytes(reg, place) + imm
    case Call(disp) => [0xE8] + Le4(disp)
    case Jmp(disp) => [0xE9] + Le4(disp)
  }

  function Print(x: Instruction): (s: seq<Byte>)
    ensures s != []
  {
    Prefixes(x) + BodyBytes(x.body)
  }

  /** Register 4 stands for a SIB byte and, without a displacement, register 5 for the next instruction's address or
      for no base. */
  predicate PlaceOk(place: Place) {
    match place
    case Direct(_) => true
    case At(base) => base != 4 && base != 5
    case AtNext(disp) => FitsInt32(disp)
    case Near(base, _) => base != 4
    case Far(base, disp) => base != 4 && FitsInt32(disp)
    case Indexed(_, base) => base != 5
    case IndexedOnly(_, disp) => FitsInt32(disp)
    case IndexedNear(_, _, _) => true
    case IndexedFar(_, _, disp) => FitsInt32(disp)
  }

  /** Additions and disjunctions are covered only into memory. */
  predicate WellFormed(x: Instruction) {
    match x.body
    case Using(opcode, _, place, imm) =>
      && PlaceOk(place) && |imm| == ImmSize(opcode)
      && (opcode.Arith? && opcode.load ==> opcode.alu.Sub? || opcode.alu.Xor?)
    case Call(disp) => FitsInt32(disp)
    case Jmp(disp) => FitsInt32(disp)
    case _ => true
  }

  // ---- What the decoder should make of a print ----

  predicate RipRelative(x: Instruction) {
    x.body.Using? && x.body.place.AtNext?
  }

  predicate Branches(x: Instruction) {
    x.body.Call? || x.body.Jmp?
  }

  /** The length, and the place of the one displacement that depends on where the instruction stands. */
  function InsnOf(x: Instruction): Insn {
    Insn(|Print(x)|,
         if RipRelative(x) then |Prefixes(x)| + |OpcodeBytes(x.body.opcode)| + 1 else 0,
         if Branches(x) then |Prefixes(x)| + 1 else 0)
  }

  lemma {:induction false} PrefixesEnd(p: seq<Byte>, i: nat, ls: seq<Legacy>, rex: Option<Nibble>)
    requires i + |ls| + (if rex.Some? then 1 else 0) < |p|
    requires forall k | 0 <= k < |ls| :: p[i + k] == LegacyByte(ls[k])
    requires rex.Some? ==> p[i + |ls|] == 0x40 + rex.value
    requires rex.None? ==> !LegacyPrefix(p[i + |ls|]) && p[i + |ls|] / 16 != 4
    ensures OpcodeAt(p, i) == i + |ls| + if rex.Some? then 1 else 0
    decreases |ls|
  {
    if ls != [] {
      assert p[i] == LegacyByte(ls[0]);
      forall k | 0 <= k < |ls| - 1 ensures p[i + 1 + k] == LegacyByte(ls[1..][k]) {
        assert p[i + (k + 1)] == LegacyByte(ls[k + 1]);
      }
      PrefixesEnd(p, i + 1, ls[1..], rex);
    }
  }

  lemma ModrmFields(mod: int, reg: Register, rm: Register)
    requires 0 <= mod < 4
    ensures Modrm(mod, reg, rm) / 64 == mod && Modrm(mod, reg, rm) % 8 == rm
  {
  }

  /** What the decoder makes of a ModRM byte with the two fields `mod` and `rm`. */
  lemma OperandByFields(p: seq<Byte>, i: nat, mod: int, rm: int)
    requires i < |p| && p[i] / 64 == mod && p[i] % 8 == rm
    ensures mod == 3 ==> OperandAt(p, i) == Operand(i + 1, 0)
    ensures mod != 3 && rm == 4 && i + 1 >= |p| ==> OperandAt(p, i) == NoOperand
    ensures mod != 3 && rm == 4 && i + 1 < |p| ==>
      OperandAt(p, i) ==
      Operand(i + 2 + if mod == 1 then 1 else if mod == 2 || p[i + 1] % 8 == 5 then 4 else 0, 0)
    ensures mod == 0 && rm == 5 ==> OperandAt(p, i) == Operand(i + 5, i + 1)
    ensures mod == 0 && rm != 4 && rm != 5 ==> OperandAt(p, i) == Operand(i + 1, 0)
    ensures mod == 1 && rm != 4 ==> OperandAt(p, i) == Operand(i + 2, 0)
    ensures mod == 2 && rm != 4 ==> OperandAt(p, i) == Operand(i + 5, 0)
  {
  }

  /** The two fields of a place's ModRM byte, and the base of its SIB byte. */
  function ModOf(place: Place): int {
    match place
    case Direct(_) => 3
    case Near(_, _) => 1
    case Far(_, _) => 2
    case IndexedNear(_, _, _) => 1
    case IndexedFar(_, _, _) => 2
    case _ => 0
  }

  function RmOf(place: Place): Register {
    match place
    case Direct(rm) => rm
    case At(base) => base
    case AtNext(_) => 5
    case Near(base, _) => base
    case Far(base, _) => base
    case _ => 4
  }

  function SibOf(place: Place): Option<Byte> {
    match place
    case Indexed(index, base) => Some(8 * index + base)
    case IndexedOnly(index, _) => Some(8 * index + 5)
    case IndexedNear(index, base, _) => Some(8 * index + base)
    case IndexedFar(index, base, _) => Some(8 * index + base)
    case _ => None
  }

  function DispOf(place: Place): seq<Byte> {
    match place
    case AtNext(disp) => Le4(disp)
    case Near(_, disp8) => [disp8]
    case Far(_, disp) => Le4(disp)
    case IndexedOnly(_, disp) => Le4(disp)
    case IndexedNear(_, _, disp8) => [disp8]
    case IndexedFar(_, _, disp) => Le4(disp)
    case _ => []
  }

  lemma PlaceParts(reg: Register, place: Place)
    ensures PlaceBytes(reg, place) ==
            [Modrm(ModOf(place), reg, RmOf(place))] + (if SibOf(place).Some? then [SibOf(place).value] else [])
            + DispOf(place)
  {
    hide Le4, Modrm;
  }

  lemma PlaceDecodes(p: seq<Byte>, i: nat, reg: Register, place: Place, tail: seq<Byte>)
    requires PlaceOk(place) && i <= |p| && p[i..] == PlaceBytes(reg, place) + tail
    ensures OperandAt(p, i) == Operand(i + |PlaceBytes(reg, place)|, if place.AtNext? then i + 1 else 0)
  {
    var s := PlaceBytes(reg, place) + tail;
    PlaceParts(reg, place);
    hide Le4, OperandAt, Modrm, PlaceBytes;
    ModrmFields(ModOf(place), reg, RmOf(place));
    assert p[i] == s[0];
    assert |s| >= 2 ==> p[i + 1] == s[1];
    OperandByFields(p, i, ModOf(place), RmOf(place));
  }

  /** The decoder knows every opcode of the format, and with which immediate. */
  lemma OpcodeDecodes(p: seq<Byte>, j: nat, x: Body)
    requires x.Using? && WellFormed(Instruction([], None, x))
    requires OpcodeAt(p, 0) == j && j + |OpcodeBytes(x.opcode)| <= |p|
    requires p[j..j + |OpcodeBytes(x.opcode)|] == OpcodeBytes(x.opcode)
    ensures Decode(p) == WithOperand(p, j + |OpcodeBytes(x.opcode)|, ImmSize(x.opcode))
  {
    hide OpcodeAt, WithOperand, PlaceOk;
    var s := p[j..j + |OpcodeBytes(x.opcode)|];
    assert s[0] == p[j] && (|s| == 2 ==> s[1] == p[j + 1]);
  }

  lemma UsingDecodes(p: seq<Byte>, j: nat, b: Body, tail: seq<Byte>)
    requires b.Using? && WellFormed(Instruction([], None, b))
    requires j <= |p| && OpcodeAt(p, 0) == j && p[j..] == BodyBytes(b) + tail
    ensures Decode(p) == Accepted(Insn(j + |BodyBytes(b)|,
                                       if b.place.AtNext? then j + |OpcodeBytes(b.opcode)| + 1 else 0, 0))
  {
    hide OpcodeAt, OperandAt, PlaceBytes, Decode, OpcodeBytes, PlaceOk, ImmSize, TakesModrm, TakesModrm0F, Plain;
    var n, rest := |OpcodeBytes(b.opcode)|, b.imm + tail;
    var s := OpcodeBytes(b.opcode) + (PlaceBytes(b.reg, b.place) + rest);
    assert p[j..] == s && s[..n] == OpcodeBytes(b.opcode) && s[n..] == PlaceBytes(b.reg, b.place) + rest;
    assert p[j..][..n] == p[j..j + n] && p[j..][n..] == p[j + n..];
    PlaceDecodes(p, j + n, b.reg, b.place, rest);
    OpcodeDecodes(p, j, b);
  }

  lemma BodyDecodes(p: seq<Byte>, j: nat, x: Instruction, tail: seq<Byte>)
    requires WellFormed(x) && j == |Prefixes(x)|
    requires j <= |p| && OpcodeAt(p, 0) == j && p[j..] == BodyBytes(x.body) + tail
    ensures Decode(p) == Accepted(InsnOf(x))
  {
    hide OpcodeAt, OperandAt, PlaceBytes, Prefixes, Le4;
    if x.body.Using? {
      UsingDecodes(p, j, x.body, tail);
    } else {
      assert p[j] == (BodyBytes(x.body) + tail)[0];
    }
  }

  /** The decoder accepts every print, whatever follows it, at its length and with its field. */
  lemma PrintDecodes(x: Instruction, tail: seq<Byte>)
    requires WellFormed(x)
    ensures Decode(Print(x) + tail) == Accepted(InsnOf(x))
  {
    hide Decode, BodyBytes;
    var p, j := Print(x) + tail, |Prefixes(x)|;
    var s := BodyBytes(x.body);
    assert p[j..] == s + tail;
    assert p[j] == s[0];
    NoPrefix(x.body);
    PrefixesEnd(p, 0, x.legacy, x.rex);
    BodyDecodes(p, j, x, tail);
  }

  lemma NoPrefix(b: Body)
    ensures !LegacyPrefix(BodyBytes(b)[0]) && BodyBytes(b)[0] / 16 != 4
  {
  }

  // ---- Reading back ----

  lemma Digits(low: int, high: int)
    ensures 0 <= low < 0x100 ==> (low + 0x100 * high) / 0x100 == high && (low + 0x100 * high) % 0x100 == low
    ensures 0 <= low < 0x1_0000 ==> (low + 0x1_0000 * high) / 0x1_0000 == high
    ensures 0 <= low < 0x100_0000 ==> (low + 0x100_0000 * high) / 0x100_0000 == high
  {
  }

  lemma SignedWraps(u: int)
    requires 0 <= u < 0x1_0000_0000
    ensures FitsInt32(Signed32(u)) && Signed32(u) % 0x1_0000_0000 == u
  {
  }

  /** Four bytes are the print of the number they read as. */
  lemma Le4Back(s: seq<Byte>)
    requires |s| == 4
    ensures FitsInt32(Signed32(FromLe4(s))) && Le4(Signed32(FromLe4(s))) == s
  {
    var b0: int, b1: int, b2: int, b3: int := s[0], s[1], s[2], s[3];
    var u := FromLe4(s);
    SignedWraps(u);
    hide Signed32, FitsInt32;
    Digits(b0, b1 + 0x100 * b2 + 0x1_0000 * b3);
    Digits(b0 + 0x100 * b1, b2 + 0x100 * b3);
    Digits(b0 + 0x100 * b1 + 0x1_0000 * b2, b3);
    Digits(b1, b2 + 0x100 * b3);
    Digits(b2, b3);
    assert u / 0x100 == b1 + 0x100 * (b2 + 0x100 * b3);
    hide FromLe4;
    assert Le4(Signed32(u)) == [u % 256, u / 0x100 % 256, u / 0x1_0000 % 256, u / 0x100_0000];
  }

  /** What the decoder takes for an operand is a print. */
  lemma OperandIsPrint(p: seq<Byte>, i: nat) returns (reg: Register, place: Place)
    requires OperandAt(p, i).Operand? && OperandAt(p, i).next <= |p|
    ensures PlaceOk(place) && i < OperandAt(p, i).next && p[i..OperandAt(p, i).next] == PlaceBytes(reg, place)
  {
    assert i < |p|;
    var m: int := p[i];
    var mod, rm := m / 64, m % 8;
    reg := m / 8 % 8;
    assert m == Modrm(mod, reg, rm);
    OperandByFields(p, i, mod, rm);
    hide OperandAt, Modrm, PlaceBytes, Le4, FromLe4, Signed32;
    if mod < 3 && rm == 4 {
      place := SibIsPrint(p, i, mod);
    } else {
      place := NoSibIsPrint(p, i, mod, rm);
    }
    PlaceParts(reg, place);
    PartsSplit(p, i, OperandAt(p, i).next);
  }

  lemma PartsSplit(p: seq<Byte>, i: nat, n: nat)
    requires i < n <= |p|
    ensures p[i..n] == [p[i]] + p[i + 1..n] && (i + 1 < n ==> p[i..n] == [p[i]] + [p[i + 1]] + p[i + 2..n])
    ensures [p[i]] + [] + p[i + 1..n] == [p[i]] + p[i + 1..n]
  {
  }

  lemma SibIsPrint(p: seq<Byte>, i: nat, mod: int) returns (place: Place)
    requires i + 1 < |p| && 0 <= mod < 3
    requires i + 2 + (if mod == 1 then 1 else if mod == 2 || p[i + 1] % 8 == 5 then 4 else 0) <= |p|
    ensures PlaceOk(place) && ModOf(place) == mod && RmOf(place) == 4 && SibOf(place) == Some(p[i + 1])
    ensures var n := i + 2 + if mod == 1 then 1 else if mod == 2 || p[i + 1] % 8 == 5 then 4 else 0;
      DispOf(place) == p[i + 2..n]
  {
    hide Le4, FromLe4, Signed32, FitsInt32;
    var sib: int := p[i + 1];
    var index, base := sib / 8, sib % 8;
    if mod == 0 && base != 5 {
      place := Indexed(index, base);
    } else if mod == 1 {
      place := IndexedNear(index, base, p[i + 2]);
    } else {
      Le4Back(p[i + 2..i + 6]);
      var disp := Signed32(FromLe4(p[i + 2..i + 6]));
      place := if mod == 0 then IndexedOnly(index, disp) else IndexedFar(index, base, disp);
    }
  }

  lemma NoSibIsPrint(p: seq<Byte>, i: nat, mod: int, rm: Register) returns (place: Place)
    requires i < |p| && 0 <= mod < 4 && (mod == 3 || rm != 4)
    requires i + (if mod == 1 then 2 else if mod == 2 || (mod == 0 && rm == 5) then 5 else 1) <= |p|
    ensures PlaceOk(place) && ModOf(place) == mod && RmOf(place) == rm && SibOf(place) == None
    ensures var n := i + if mod == 1 then 2 else if mod == 2 || (mod == 0 && rm == 5) then 5 else 1;
      DispOf(place) == p[i + 1..n]
  {
    hide Le4, FromLe4, Signed32, FitsInt32;
    if mod == 3 {
      place := Direct(rm);
    } else if mod == 1 {
      place := Near(rm, p[i + 1]);
    } else if mod == 0 && rm != 5 {
      place := At(rm);
    } else {
      Le4Back(p[i + 1..i + 5]);
      var disp := Signed32(FromLe4(p[i + 1..i + 5]));
      place := if mod == 0 then AtNext(disp) else Far(rm, disp);
    }
  }

  lemma {:induction false} PrefixesArePrint(p: seq<Byte>, i: nat) returns (ls: seq<Legacy>, rex: Option<Nibble>)
    requires i <= |p|
    ensures p[i..OpcodeAt(p, i)] == Prefixes(Instruction(ls, rex, Nop))
    decreases |p| - i
  {
    ls, rex := [], None;
    if i < |p| {
      var b: int := p[i];
      if LegacyPrefix(b) {
        ls, rex := PrefixesArePrint(p, i + 1);
        var l := if b == 0xF0 then Lock else if b == 0xF2 then Repne else if b == 0xF3 then Rep
                 else if b == 0x66 then OperandSize else AddressSize;
        assert p[i..OpcodeAt(p, i)] == [p[i]] + p[i + 1..OpcodeAt(p, i + 1)];
        assert LegacyBytes([l] + ls) == [LegacyByte(l)] + LegacyBytes(ls);
        ls := [l] + ls;
      } else if b / 16 == 4 {
        rex := Some(b - 0x40);
      }
    }
  }

  lemma SseIsPrint(b: Byte) returns (sse: Sse)
    requires TakesModrm0F(b)
    ensures SseByte(sse) == b
  {
    sse := match b
      case 0x1E => Endbr
      case 0x1F => LongNop
      case 0x10 => MovUpsLoad
      case 0x11 => MovUpsStore
      case 0x28 => MovApsLoad
      case 0x29 => MovApsStore
      case 0x2E => Ucomiss
      case 0x2F => Comiss
      case 0x54 => AndPs
      case 0x55 => AndnPs
      case 0x56 => OrPs
      case 0x57 => XorPs
      case 0x58 => AddPs
      case 0x59 => MulPs
      case 0x5C => SubPs
      case 0x5E => DivPs
      case 0x6E => MovdLoad
      case 0x6F => MovdqaLoad
      case 0x7E => MovdStore
      case 0x7F => MovdqaStore
      case 0xD6 => MovqStore
      case _ => Pxor;
  }

  lemma OpcodeIsPrint(b: Byte) returns (op: Opcode)
    requires TakesModrm(b)
    ensures OpcodeBytes(op) == [b] && ImmSize(op) == 0
    ensures op.Arith? && op.load ==> op.alu.Sub? || op.alu.Xor?
  {
    var wide, load := b % 2 == 1, b / 2 % 2 == 1;
    op := if b == 0x8D then Lea
          else if b == 0x63 then Movsxd
          else if b < 0x08 then Arith(Add, wide, load)
          else if b < 0x10 then Arith(Or, wide, load)
          else if b < 0x30 then Arith(Sub, wide, load)
          else if b < 0x40 then Arith(Xor, wide, load)
          else if b < 0x88 then Test(wide)
          else Mov(wide, load);
  }

  lemma UsingIsPrint(p: seq<Byte>, j: nat, opcode: Opcode) returns (b: Body)
    requires opcode.Arith? && opcode.load ==> opcode.alu.Sub? || opcode.alu.Xor?
    requires j + |OpcodeBytes(opcode)| <= |p| && p[j..j + |OpcodeBytes(opcode)|] == OpcodeBytes(opcode)
    requires WithOperand(p, j + |OpcodeBytes(opcode)|, ImmSize(opcode)).Accepted?
    ensures WellFormed(Instruction([], None, b))
    ensures var n := WithOperand(p, j + |OpcodeBytes(opcode)|, ImmSize(opcode)).insn.len;
      j < n <= |p| && p[j..n] == BodyBytes(b)
  {
    hide OperandAt, PlaceOk, PlaceBytes, OpcodeBytes;
    var i := j + |OpcodeBytes(opcode)|;
    var next := OperandAt(p, i).next;
    var reg, place := OperandIsPrint(p, i);
    var imm := p[next..next + ImmSize(opcode)];
    b := Using(opcode, reg, place, imm);
    assert p[j..next + ImmSize(opcode)] == p[j..i] + p[i..next] + imm;
  }

  /** The opcode of what is accepted with a ModRM byte. */
  lemma ModrmIsPrint(p: seq<Byte>) returns (op: Opcode)
    requires Decode(p).Accepted? && OpcodeAt(p, 0) < |p|
    requires !Plain(p[OpcodeAt(p, 0)]) && p[OpcodeAt(p, 0)] != 0xE8 && p[OpcodeAt(p, 0)] != 0xE9
    ensures op.Arith? && op.load ==> op.alu.Sub? || op.alu.Xor?
    ensures var i := OpcodeAt(p, 0) + |OpcodeBytes(op)|;
      i <= |p| && p[OpcodeAt(p, 0)..i] == OpcodeBytes(op) && Decode(p) == WithOperand(p, i, ImmSize(op))
  {
    hide OpcodeAt, WithOperand, TakesModrm, TakesModrm0F;
    var j := OpcodeAt(p, 0);
    if TakesModrm(p[j]) {
      op := OpcodeIsPrint(p[j]);
    } else if p[j] == 0x0F {
      var sse := SseIsPrint(p[j + 1]);
      op := TwoByte(sse);
    } else {
      op := if p[j] == 0x83 then ArithImm8 else if p[j] == 0x81 then ArithImm32 else MovImm32;
    }
  }

  /** What is accepted without one. */
  lemma PlainIsPrint(p: seq<Byte>) returns (b: Body)
    requires Decode(p).Accepted? && OpcodeAt(p, 0) < |p|
    requires Plain(p[OpcodeAt(p, 0)]) || p[OpcodeAt(p, 0)] == 0xE8 || p[OpcodeAt(p, 0)] == 0xE9
    ensures WellFormed(Instruction([], None, b))
    ensures OpcodeAt(p, 0) < Decode(p).insn.len <= |p|
    ensures p[OpcodeAt(p, 0)..Decode(p).insn.len] == BodyBytes(b)
  {
    hide OpcodeAt, WithOperand, Le4, FromLe4, Signed32, FitsInt32;
    var j := OpcodeAt(p, 0);
    var op: int := p[j];
    if Plain(op) {
      b := if op == 0x90 then Nop else if op == 0xC3 then Ret else Push(op - 0x50);
    } else {
      Le4Back(p[j + 1..j + 5]);
      var disp := Signed32(FromLe4(p[j + 1..j + 5]));
      b := if op == 0xE8 then Call(disp) else Jmp(disp);
      assert p[j..j + 5] == [p[j]] + p[j + 1..j + 5];
    }
  }

  /** The body of what the decoder accepts, given where the opcode is. */
  lemma BodyIsPrint(p: seq<Byte>) returns (b: Body)
    requires Decode(p).Accepted?
    ensures WellFormed(Instruction([], None, b))
    ensures OpcodeAt(p, 0) < Decode(p).insn.len <= |p|
    ensures p[OpcodeAt(p, 0)..Decode(p).insn.len] == BodyBytes(b)
  {
    assert OpcodeAt(p, 0) < |p|;
    hide *;
    var op := p[OpcodeAt(p, 0)];
    if Plain(op) || op == 0xE8 || op == 0xE9 {
      b := PlainIsPrint(p);
    } else {
      var opcode := ModrmIsPrint(p);
      b := UsingIsPrint(p, OpcodeAt(p, 0), opcode);
    }
  }

  /** Everything the decoder accepts is the print of an instruction of the format. */
  lemma AcceptedIsPrint(p: seq<Byte>) returns (x: Instruction)
    requires Decode(p).Accepted?
    ensures WellFormed(x) && Print(x) <= p && Decode(p) == Accepted(InsnOf(x))
  {
    hide Decode, OpcodeAt, BodyBytes, InsnOf;
    var ls, rex := PrefixesArePrint(p, 0);
    var b := BodyIsPrint(p);
    x := Instruction(ls, rex, b);
    var j, n := OpcodeAt(p, 0), Decode(p).insn.len;
    assert p[..n] == p[0..j] + p[j..n];
    assert Prefixes(x) == Prefixes(Instruction(ls, rex, Nop));
    PrintDecodes(x, p[n..]);
    assert Print(x) + p[n..] == p;
  }

  /** Accepted exactly when the bytes begin with a print, and then as that instruction. */
  lemma AcceptsIff(p: seq<Byte>)
    ensures Decode(p).Accepted? <==> exists x :: WellFormed(x) && Print(x) <= p
    ensures forall x | WellFormed(x) && Print(x) <= p :: Decode(p) == Accepted(InsnOf(x))
  {
    hide Decode, WellFormed, Print, InsnOf;
    if Decode(p).Accepted? {
      var x := AcceptedIsPrint(p);
    }
    forall x | WellFormed(x) && Print(x) <= p ensures Decode(p) == Accepted(InsnOf(x)) {
      PrintDecodes(x, p[|Print(x)|..]);
      assert Print(x) + p[|Print(x)|..] == p;
    }
  }
}
