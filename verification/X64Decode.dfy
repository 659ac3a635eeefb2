/** The length decoder of the inline hook, over the bytes of a code region. Its grammar is its own:
    what it accepts, how long it takes it to be, and where a relative field lies. */
module X64Decode {
  import opened Words
  import opened Bytes

  /** `rip` and `rel` are the offsets of a RIP-relative disp32 and of a rel32; 0 means there is none. */
  datatype Insn = Insn(len: nat, rip: nat, rel: nat)

  /** Overrun: the instruction does not end inside the region. */
  datatype Decoded = Accepted(insn: Insn) | Refused | Overrun

  predicate LegacyPrefix(b: Byte) {
    b == 0xF0 || b == 0xF2 || b == 0xF3 || b == 0x66 || b == 0x67
  }

  predicate Plain(op: Byte) {
    0x50 <= op <= 0x57 || op == 0x90 || op == 0xC3
  }

  predicate TakesModrm(op: Byte) {
    || op == 0x84 || op == 0x85 || op == 0x88 || op == 0x89 || op == 0x8A || op == 0x8B
    || op == 0x8D || op == 0x63 || op == 0x00 || op == 0x01 || op == 0x08 || op == 0x09
    || op == 0x30 || op == 0x31 || op == 0x32 || op == 0x33
    || op == 0x28 || op == 0x29 || op == 0x2A || op == 0x2B
  }

  predicate TakesModrm0F(op: Byte) {
    || op == 0x1E || op == 0x1F || op == 0x10 || op == 0x11 || op == 0x28 || op == 0x29
    || op == 0x2E || op == 0x2F || op == 0x54 || op == 0x55 || op == 0x56 || op == 0x57
    || op == 0x58 || op == 0x59 || op == 0x5C || op == 0x5E || op == 0x6E || op == 0x6F
    || op == 0x7E || op == 0x7F || op == 0xD6 || op == 0xEF
  }

  /** Where the opcode is: after any legacy prefixes and at most one REX. */
  function OpcodeAt(p: seq<Byte>, i: nat): (j: nat)
    requires i <= |p|
    ensures i <= j <= |p|
    decreases |p| - i
  {
    if i == |p| then i
    else if LegacyPrefix(p[i]) then OpcodeAt(p, i + 1)
    else if p[i] / 16 == 4 then i + 1
    else i
  }

  /** The end of the ModRM byte at `i` with its SIB and displacement, and the RIP-relative field. */
  datatype Operand = Operand(next: nat, rip: nat) | NoOperand

  function OperandAt(p: seq<Byte>, i: nat): Operand {
    if i >= |p| then NoOperand
    else
      var m := p[i];
      var mod, rm := m / 64, m % 8;
      var disp := if mod == 1 then 1 else if mod == 2 then 4 else 0;
      if mod == 3 then Operand(i + 1, 0)
      else if rm == 4 then
        if i + 1 >= |p| then NoOperand
        else Operand(i + 2 + (if mod == 0 && p[i + 1] % 8 == 5 then 4 else 0) + disp, 0)
      else if mod == 0 && rm == 5 then Operand(i + 5, i + 1)
      else Operand(i + 1 + disp, 0)
  }

  function Finish(p: seq<Byte>, next: nat, rip: nat, rel: nat): Decoded {
    if next > |p| then Overrun else Accepted(Insn(next, rip, rel))
  }

  function WithOperand(p: seq<Byte>, i: nat, imm: nat): Decoded {
    match OperandAt(p, i)
    case NoOperand => Overrun
    case Operand(next, rip) => Finish(p, next + imm, rip, 0)
  }

  function Decode(p: seq<Byte>): Decoded {
    var j := OpcodeAt(p, 0);
    if j == |p| then Overrun
    else
      var op := p[j];
      if Plain(op) then Finish(p, j + 1, 0, 0)
      else if TakesModrm(op) then WithOperand(p, j + 1, 0)
      else if op == 0x0F then
        if j + 1 == |p| then Overrun
        else if TakesModrm0F(p[j + 1]) then WithOperand(p, j + 2, 0)
        else Refused
      else if op == 0x83 then WithOperand(p, j + 1, 1)
      else if op == 0x81 || op == 0xC7 then WithOperand(p, j + 1, 4)
      else if op == 0xE8 || op == 0xE9 then Finish(p, j + 5, 0, j + 1)
      else Refused
  }

  // ---- What a decoded instruction looks like ----

  /** The offset of the one relative field, or 0. */
  function FieldAt(insn: Insn): nat {
    insn.rip + insn.rel
  }

  /** An accepted instruction is non-empty and has at most one relative field, which lies inside it. */
  lemma DecodedShape(p: seq<Byte>)
    requires Decode(p).Accepted?
    ensures var i := Decode(p).insn;
            && 1 <= i.len <= |p| && (i.rip == 0 || i.rel == 0)
            && (FieldAt(i) != 0 ==> 1 <= FieldAt(i) && FieldAt(i) + 4 <= i.len)
  {
  }

  lemma {:induction false} SamePrefixes(p: seq<Byte>, q: seq<Byte>, i: nat)
    requires i <= |p| && OpcodeAt(p, i) < |p| && OpcodeAt(p, i) < |q|
    requires forall k | i <= k <= OpcodeAt(p, i) :: q[k] == p[k]
    ensures OpcodeAt(q, i) == OpcodeAt(p, i)
    decreases |p| - i
  {
    if LegacyPrefix(p[i]) {
      SamePrefixes(p, q, i + 1);
    }
  }

  /** Where `q` may differ from an instruction at the head of `p`: only in the relative field. */
  predicate AgreeOutsideField(p: seq<Byte>, q: seq<Byte>, insn: Insn) {
    && insn.len <= |p| && insn.len <= |q|
    && forall k | 0 <= k < insn.len && !InField(insn, k) :: q[k] == p[k]
  }

  predicate InField(insn: Insn, k: int) {
    FieldAt(insn) != 0 && FieldAt(insn) <= k < FieldAt(insn) + 4
  }

  lemma OperandStable(p: seq<Byte>, q: seq<Byte>, i: nat, imm: nat)
    requires 0 < i && WithOperand(p, i, imm).Accepted?
    requires AgreeOutsideField(p, q, WithOperand(p, i, imm).insn)
    ensures WithOperand(q, i, imm) == WithOperand(p, i, imm)
  {
    assert q[i] == p[i];
    if p[i] / 64 != 3 && p[i] % 8 == 4 {
      assert q[i + 1] == p[i + 1];
    }
  }

  lemma OpcodeStable(p: seq<Byte>, q: seq<Byte>)
    requires Decode(p).Accepted? && AgreeOutsideField(p, q, Decode(p).insn)
    ensures OpcodeAt(p, 0) < |p| && OpcodeAt(p, 0) < |q|
    ensures OpcodeAt(q, 0) == OpcodeAt(p, 0) && q[OpcodeAt(p, 0)] == p[OpcodeAt(p, 0)]
    ensures p[OpcodeAt(p, 0)] == 0x0F ==>
              OpcodeAt(p, 0) + 1 < |p| && OpcodeAt(p, 0) + 1 < |q| && q[OpcodeAt(p, 0) + 1] == p[OpcodeAt(p, 0) + 1]
  {
    hide OpcodeAt, TakesModrm, TakesModrm0F;
    var j := OpcodeAt(p, 0);
    forall k | 0 <= k <= j ensures q[k] == p[k] {
      assert !InField(Decode(p).insn, k);
    }
    SamePrefixes(p, q, 0);
    assert p[j] == 0x0F ==> !InField(Decode(p).insn, j + 1);
  }

  /** Rewriting the displacement of an instruction, and whatever follows it, never changes how it decodes. */
  lemma DecodeStable(p: seq<Byte>, q: seq<Byte>)
    requires Decode(p).Accepted? && AgreeOutsideField(p, q, Decode(p).insn)
    ensures Decode(q) == Decode(p)
  {
    hide OpcodeAt, OperandAt, WithOperand, TakesModrm, TakesModrm0F;
    OpcodeStable(p, q);
    var j := OpcodeAt(p, 0);
    var op := p[j];
    if Plain(op) {
    } else if TakesModrm(op) {
      OperandStable(p, q, j + 1, 0);
    } else if op == 0x0F {
      OperandStable(p, q, j + 2, 0);
    } else if op == 0x83 {
      OperandStable(p, q, j + 1, 1);
    } else if op == 0x81 || op == 0xC7 {
      OperandStable(p, q, j + 1, 4);
    }
  }
}
