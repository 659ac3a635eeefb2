/** The rgpu command stream: record layout, the C writer and reader, and the reader of the Vulkan renderer. */
module Wire {
  import opened Words
  import opened Bytes

  const HEADER: nat := 12
  const W32: int := 0x1_0000_0000

  function Wrap32(x: int): (w: Word32) {
    x % 0x1_0000_0000
  }

  datatype Command = Command(op: Word32, handle: Word32, args: seq<Byte>)

  /** A record: opcode, handle and argument length, then the arguments. */
  function Record(c: Command): (s: seq<Byte>)
    ensures |s| == HEADER + |c.args|
  {
    Le4(c.op) + Le4(c.handle) + Le4(|c.args|) + c.args
  }

  function Batch(cmds: seq<Command>): seq<Byte> {
    if cmds == [] then [] else Record(cmds[0]) + Batch(cmds[1..])
  }

  lemma {:induction false} BatchAppend(cmds: seq<Command>, c: Command)
    ensures Batch(cmds + [c]) == Batch(cmds) + Record(c)
  {
    hide Record;
    if cmds == [] {
      assert [c][1..] == [];
    } else {
      BatchAppend(cmds[1..], c);
      assert (cmds + [c])[1..] == cmds[1..] + [c];
    }
  }

  // ----- the C writer -----

  /** The writer's test, in 32-bit arithmetic. */
  predicate WriterAccepts(cap: Word32, len: Word32, argLen: Word32) {
    Wrap32(len + Wrap32(HEADER + argLen)) <= cap
  }

  /** The test means that the record fits, except when its end passes 2^32 and wraps to within the buffer. */
  lemma AcceptsMeansFitsIff(cap: Word32, len: Word32, argLen: Word32)
    ensures (WriterAccepts(cap, len, argLen) <==> len + HEADER + argLen <= cap)
       <==> !(len + HEADER + argLen >= W32 && Wrap32(len + HEADER + argLen) <= cap)
  {
    assert Wrap32(len + Wrap32(HEADER + argLen)) == Wrap32(len + HEADER + argLen);
  }

  /** What one call of the writer comes to. Overrun: the test let a record through that the buffer cannot hold, and
      the copy runs past its end. */
  datatype Outcome = Written | Refused | Overrun

  class BatchWriter {
    const buf: array<Byte>
    var cap: Word32
    var len: Word32
    var count: Word32
    ghost var written: seq<Command>

    ghost predicate Valid()
      reads this, buf
    {
      len <= cap == buf.Length && buf[..len] == Batch(written) && count == Wrap32(|written|)
    }

    constructor (buf: array<Byte>)
      requires buf.Length < W32
      ensures Valid() && this.buf == buf && cap == buf.Length && written == []
    {
      this.buf, cap, len, count, written := buf, buf.Length, 0, 0, [];
    }

    /** Copy bytes behind what the buffer holds. */
    method Put(bytes: seq<Byte>)
      requires len + |bytes| <= buf.Length == cap
      modifies this`len, buf
      ensures len == old(len) + |bytes| && buf[..len] == old(buf[..len]) + bytes
    {
      forall i | 0 <= i < |bytes| {
        buf[len + i] := bytes[i];
      }
      len := len + |bytes|;
    }

    method Emit(op: Word32, handle: Word32, args: seq<Byte>)
      requires |args| < W32 && len + HEADER + |args| <= buf.Length == cap
      modifies this`len, buf
      ensures len == old(len) + HEADER + |args|
      ensures buf[..len] == old(buf[..len]) + Record(Command(op, handle, args))
    {
      RecordParts(buf[..len], Command(op, handle, args));
      hide Record;
      Put(Le4(op) + Le4(handle) + Le4(|args|));
      if |args| > 0 {
        Put(args);
      }
    }

    method Cmd(op: Word32, handle: Word32, args: seq<Byte>) returns (out: Outcome)
      requires Valid() && |args| < W32
      modifies this, buf
      ensures var end := old(len) + HEADER + |args|;
        && (out == Written <==> end <= old(cap))
        && (out == Overrun <==> end >= W32 && Wrap32(end) <= old(cap))
      ensures out == Written ==> Valid() && cap == old(cap) && written == old(written) + [Command(op, handle, args)]
      ensures out == Refused ==> Valid() && buf[..] == old(buf[..]) && unchanged(this)
    {
      AcceptsMeansFitsIff(cap, len, |args|);
      var need := Wrap32(HEADER + |args|);
      if Wrap32(len + need) > cap {
        return Refused;
      }
      if len + HEADER + |args| > cap {
        return Overrun;
      }
      ghost var c := Command(op, handle, args);
      BatchAppend(written, c);
      CountStep(|written|);
      hide Batch, Record, Wrap32;
      Emit(op, handle, args);
      count := Wrap32(count + 1);
      written := written + [c];
      return Written;
    }
  }

  lemma RecordParts(before: seq<Byte>, c: Command)
    ensures before + (Le4(c.op) + Le4(c.handle) + Le4(|c.args|)) + c.args == before + Record(c)
    ensures c.args == [] ==> before + (Le4(c.op) + Le4(c.handle) + Le4(|c.args|)) == before + Record(c)
  {
    hide Le4;
  }

  lemma CountStep(n: nat)
    ensures Wrap32(Wrap32(n) + 1) == Wrap32(n + 1)
  {
  }

  // ----- the two readers -----

  /** A record as a reader sees it: its header, and where its arguments begin. */
  datatype Rec = Rec(op: Word32, handle: Word32, argLen: Word32, at: nat)

  function RecAt(p: seq<Byte>, pos: nat): Rec
    requires pos + HEADER <= |p|
  {
    Rec(FromLe4(p[pos..pos + 4]), FromLe4(p[pos + 4..pos + 8]), FromLe4(p[pos + 8..pos + 12]), pos + HEADER)
  }

  /** What one call of the C reader comes to: a record and the position after it, the end, or a header that lies
      beyond the bytes there are. */
  datatype Fetch = Got(rec: Rec, next: Word32) | Ended | PastBuffer

  /** One call of the C reader, told that `len` bytes lie at `p`. The first test is in 64-bit arithmetic, the
      second in 32-bit. */
  function CNext(p: seq<Byte>, len: Word32, pos: Word32): (r: Fetch)
    ensures r.Got? ==> r.rec.at == pos + HEADER <= |p|
  {
    if pos + HEADER > len then Ended else
    if pos + HEADER > |p| then PastBuffer else
    var rec := RecAt(p, pos);
    var adv := Wrap32(HEADER + rec.argLen);
    if Wrap32(pos + adv) > len then Ended else Got(rec, Wrap32(pos + adv))
  }

  /** One round of the Vulkan renderer's loop, whose arithmetic is 64-bit. */
  function VkNext(p: seq<Byte>, pos: nat): (r: Option<(Rec, nat)>)
    ensures r.Some? ==> pos < r.value.1 == r.value.0.at + r.value.0.argLen <= |p|
  {
    if pos + HEADER > |p| then None else
    var rec := RecAt(p, pos);
    if pos + HEADER + rec.argLen > |p| then None else Some((rec, pos + HEADER + rec.argLen))
  }

  /** The first `n` records the C reader gives, or as many as there are. */
  function CReads(p: seq<Byte>, pos: Word32, n: nat): (s: seq<Rec>)
    requires |p| < W32
    ensures |s| <= n
    decreases n
  {
    if n == 0 then [] else
    match CNext(p, |p|, pos)
    case Got(rec, next) => [rec] + CReads(p, next, n - 1)
    case _ => []
  }

  /** Every record the Vulkan renderer's loop visits. */
  function VkReads(p: seq<Byte>, pos: nat): (s: seq<Rec>)
    decreases |p| - pos
  {
    match VkNext(p, pos)
    case None => []
    case Some((rec, next)) => [rec] + VkReads(p, next)
  }

  /** Where that loop stops. */
  function VkStop(p: seq<Byte>, pos: nat): (e: nat)
    ensures pos <= e
    decreases |p| - pos
  {
    match VkNext(p, pos)
    case None => pos
    case Some((_, next)) => VkStop(p, next)
  }

  /** The header the Vulkan loop stops at, if there is one, does not end its arguments past 2^32. */
  predicate NoWrap(p: seq<Byte>, pos: nat) {
    var e := VkStop(p, pos);
    e + HEADER <= |p| ==> e + HEADER + RecAt(p, e).argLen < W32
  }

  function Take<X>(s: seq<X>, n: nat): seq<X> {
    if n < |s| then s[..n] else s
  }

  lemma NextAgrees(p: seq<Byte>, pos: Word32)
    requires |p| < W32 && (pos + HEADER <= |p| ==> pos + HEADER + RecAt(p, pos).argLen < W32)
    ensures CNext(p, |p|, pos) == match VkNext(p, pos) case None => Ended case Some((rec, next)) => Got(rec, next)
  {
    hide RecAt;
  }

  /** Past 2^32 the C reader takes the record and goes back; the Vulkan reader stops. */
  lemma WrapSplits(p: seq<Byte>, pos: Word32)
    requires |p| < W32 && pos + HEADER <= |p| && pos + HEADER + RecAt(p, pos).argLen >= W32
    ensures VkNext(p, pos) == None
    ensures CNext(p, |p|, pos) == Got(RecAt(p, pos), pos + HEADER + RecAt(p, pos).argLen - W32)
  {
    hide RecAt;
    assert Wrap32(pos + Wrap32(HEADER + RecAt(p, pos).argLen)) == pos + HEADER + RecAt(p, pos).argLen - W32;
  }

  lemma {:induction false} NoWrapAgrees(p: seq<Byte>, pos: Word32, n: nat)
    requires |p| < W32 && NoWrap(p, pos)
    ensures CReads(p, pos, n) == Take(VkReads(p, pos), n)
    decreases n
  {
    hide RecAt;
    NextAgrees(p, pos);
    hide CNext;
    if n > 0 && VkNext(p, pos).Some? {
      NoWrapAgrees(p, VkNext(p, pos).value.1, n - 1);
    }
  }

  lemma {:induction false} WrapReadsOn(p: seq<Byte>, pos: Word32)
    requires |p| < W32 && !NoWrap(p, pos)
    ensures |CReads(p, pos, |VkReads(p, pos)| + 1)| == |VkReads(p, pos)| + 1
    decreases |p| - pos
  {
    if VkNext(p, pos).Some? {
      NextAgrees(p, pos);
      hide CNext, VkNext, RecAt;
      WrapReadsOn(p, VkNext(p, pos).value.1);
    } else {
      WrapSplits(p, pos);
      hide CNext, VkNext, RecAt;
    }
  }

  /** The two readers visit the same records on a payload exactly when no header the Vulkan reader reaches ends
      its arguments past 2^32; past it, the C reader wraps and goes on. */
  lemma ReadersAgreeIff(p: seq<Byte>)
    requires |p| < W32
    ensures (forall n: nat :: CReads(p, 0, n) == Take(VkReads(p, 0), n)) <==> NoWrap(p, 0)
  {
    hide CNext, VkNext, RecAt, CReads, VkReads, VkStop;
    if NoWrap(p, 0) {
      forall n: nat ensures CReads(p, 0, n) == Take(VkReads(p, 0), n) {
        NoWrapAgrees(p, 0, n);
      }
    } else {
      WrapReadsOn(p, 0);
      var n := |VkReads(p, 0)| + 1;
      assert CReads(p, 0, n) != Take(VkReads(p, 0), n);
    }
  }

  /** A payload of one header, whose argument length reaches exactly 2^32. */
  function WrappingHeader(op: Word32, handle: Word32): seq<Byte> {
    Le4(op) + Le4(handle) + Le4(W32 - HEADER)
  }

  lemma WrappingHeaderIs(op: Word32, handle: Word32)
    ensures var p := WrappingHeader(op, handle);
      |p| == HEADER && RecAt(p, 0) == Rec(op, handle, W32 - HEADER, HEADER)
  {
    var p := WrappingHeader(op, handle);
    hide Le4, FromLe4;
    assert p[0..4] == Le4(op) && p[4..8] == Le4(handle) && p[8..12] == Le4(W32 - HEADER);
    Le4RoundTrip(op);
    Le4RoundTrip(handle);
    Le4RoundTrip(W32 - HEADER);
  }

  /** The Vulkan reader finds nothing in it, and the C reader gives its record again and again. */
  lemma {:induction false} WrappingHeaderRepeats(op: Word32, handle: Word32, n: nat)
    ensures var p := WrappingHeader(op, handle);
      && VkReads(p, 0) == [] && !NoWrap(p, 0)
      && CReads(p, 0, n) == seq(n, _ => Rec(op, handle, W32 - HEADER, HEADER))
  {
    var p := WrappingHeader(op, handle);
    WrappingHeaderIs(op, handle);
    hide RecAt, WrappingHeader, Le4;
    WrapSplits(p, 0);
    if n > 0 {
      WrappingHeaderRepeats(op, handle, n - 1);
    }
  }

  // ----- reading what was written -----

  function Min(a: int, b: int): int {
    if a <= b then a else b
  }

  /** The command of a record, with those of its arguments that are there. */
  function CommandOf(p: seq<Byte>, rec: Rec): Command
    requires rec.at <= |p|
  {
    Command(rec.op, rec.handle, p[rec.at..Min(rec.at + rec.argLen, |p|)])
  }

  /** The commands of a payload from a position on: the records the readers visit, with their arguments. */
  function Commands(p: seq<Byte>, pos: nat): (s: seq<Command>)
    ensures |s| == |VkReads(p, pos)|
    decreases |p| - pos
  {
    match VkNext(p, pos)
    case None => []
    case Some((rec, next)) => [CommandOf(p, rec)] + Commands(p, next)
  }

  /** How a run of the C reader stops: at the end, at a header beyond the buffer, or at a record whose end wraps past
      2^32, from which the reader goes back. */
  datatype Stop = AtEnd | BeyondBuffer | GoesBack

  /** The commands the C reader gives out of the bytes `p` when told their number is `len`, up to where it stops. */
  function CCommands(p: seq<Byte>, len: Word32, pos: Word32): (s: seq<Command>)
    decreases len - pos
  {
    match CNext(p, len, pos)
    case Got(rec, next) =>
      if next < rec.at then [] else [CommandOf(p, rec)] + CCommands(p, len, next)
    case _ => []
  }

  function CStop(p: seq<Byte>, len: Word32, pos: Word32): Stop
    decreases len - pos
  {
    match CNext(p, len, pos)
    case Ended => AtEnd
    case PastBuffer => BeyondBuffer
    case Got(rec, next) => if next < rec.at then GoesBack else CStop(p, len, next)
  }

  /** Told the right number of bytes, the C reader gives the commands of the payload, and then goes back exactly at
      a header that wraps. */
  lemma {:induction false} WholeStream(p: seq<Byte>, pos: Word32)
    requires |p| < W32
    ensures CCommands(p, |p|, pos) == Commands(p, pos)
    ensures CStop(p, |p|, pos) == if NoWrap(p, pos) then AtEnd else GoesBack
    decreases |p| - pos
  {
    hide RecAt, CommandOf;
    if pos + HEADER <= |p| && pos + HEADER + RecAt(p, pos).argLen >= W32 {
      WrapSplits(p, pos);
    } else {
      NextAgrees(p, pos);
      hide CNext;
      if VkNext(p, pos).Some? {
        WholeStream(p, VkNext(p, pos).value.1);
      }
    }
  }

  /** How many commands lie whole within the first `k` bytes of their batch. */
  function WholeIn(cmds: seq<Command>, k: int): (n: nat)
    ensures n <= |cmds|
  {
    if cmds == [] || |Record(cmds[0])| > k then 0 else 1 + WholeIn(cmds[1..], k - |Record(cmds[0])|)
  }

  predicate Sendable(cmds: seq<Command>) {
    forall i :: 0 <= i < |cmds| ==> |cmds[i].args| < W32
  }

  lemma RecordSlices(c: Command, tail: seq<Byte>)
    ensures var w := Record(c) + tail;
      && w[0..4] == Le4(c.op) && w[4..8] == Le4(c.handle) && w[8..12] == Le4(|c.args|)
      && w[HEADER..HEADER + |c.args|] == c.args
  {
    hide Le4;
  }

  lemma CutSlice(p: seq<Byte>, pos: nat, w: seq<Byte>, k: nat, a: nat, b: nat)
    requires k <= |w| && pos <= |p| && p[pos..] == w[..k] && a <= b <= k
    ensures pos + b <= |p| && p[pos + a..pos + b] == w[a..b]
  {
    assert p[pos + a..pos + b] == p[pos..][a..b];
  }

  /** The head of a batch cut after its first header. */
  lemma HeadRec(p: seq<Byte>, pos: nat, c: Command, tail: seq<Byte>, k: nat)
    requires |c.args| < W32 && HEADER <= k <= |Record(c) + tail| && pos <= |p| && p[pos..] == (Record(c) + tail)[..k]
    ensures pos + k == |p| && RecAt(p, pos) == Rec(c.op, c.handle, |c.args|, pos + HEADER)
  {
    var w := Record(c) + tail;
    RecordSlices(c, tail);
    hide Record, Le4, FromLe4;
    FieldReads(p, pos, w, k, 0, c.op);
    FieldReads(p, pos, w, k, 4, c.handle);
    FieldReads(p, pos, w, k, 8, |c.args|);
    assert |p[pos..]| == k;
  }

  /** A field of a header, behind the cut or not. */
  lemma FieldReads(p: seq<Byte>, pos: nat, w: seq<Byte>, k: nat, at: nat, x: Word32)
    requires at + 4 <= k <= |w| && pos <= |p| && p[pos..] == w[..k] && w[at..at + 4] == Le4(x)
    ensures pos + at + 4 <= |p| && FromLe4(p[pos + at..pos + at + 4]) == x
  {
    CutSlice(p, pos, w, k, at, at + 4);
    Le4RoundTrip(x);
    hide Le4, FromLe4;
  }

  lemma HeadReads(p: seq<Byte>, pos: nat, c: Command, tail: seq<Byte>, k: nat)
    requires |c.args| < W32 && HEADER <= k <= |Record(c) + tail| && pos <= |p| && p[pos..] == (Record(c) + tail)[..k]
    ensures pos + k == |p| && RecAt(p, pos) == Rec(c.op, c.handle, |c.args|, pos + HEADER)
    ensures VkNext(p, pos) == if HEADER + |c.args| <= k then Some((RecAt(p, pos), pos + HEADER + |c.args|)) else None
    ensures HEADER + |c.args| <= k ==> CommandOf(p, RecAt(p, pos)) == c
  {
    HeadRec(p, pos, c, tail, k);
    if HEADER + |c.args| <= k {
      RecordSlices(c, tail);
      CutSlice(p, pos, Record(c) + tail, k, HEADER, HEADER + |c.args|);
    }
    hide Record, RecAt;
  }

  lemma CutTail(p: seq<Byte>, pos: nat, cmds: seq<Command>, k: nat)
    requires cmds != [] && |Record(cmds[0])| <= k <= |Batch(cmds)| && pos <= |p| && p[pos..] == Batch(cmds)[..k]
    ensures var n := |Record(cmds[0])|;
      pos + n <= |p| && k - n <= |Batch(cmds[1..])| && p[pos + n..] == Batch(cmds[1..])[..k - n]
  {
    hide Record;
    var n := |Record(cmds[0])|;
    assert p[pos + n..] == p[pos..][n..];
  }

  /** A batch cut anywhere reads back as the commands whole before the cut, and nothing in it wraps. */
  lemma {:induction false} CutBatchReads(p: seq<Byte>, pos: nat, cmds: seq<Command>, k: nat)
    requires Sendable(cmds) && pos + |Batch(cmds)| < W32
    requires k <= |Batch(cmds)| && pos <= |p| && p[pos..] == Batch(cmds)[..k]
    ensures Commands(p, pos) == cmds[..WholeIn(cmds, k)] && NoWrap(p, pos)
    ensures k == |Batch(cmds)| ==> WholeIn(cmds, k) == |cmds| && VkStop(p, pos) == |p|
    decreases |cmds|
  {
    hide RecAt, Record, CommandOf;
    if cmds != [] && k >= HEADER {
      var c := cmds[0];
      HeadReads(p, pos, c, Batch(cmds[1..]), k);
      hide VkNext;
      var n := |Record(c)|;
      if k >= n {
        CutTail(p, pos, cmds, k);
        CutBatchReads(p, pos + n, cmds[1..], k - n);
      }
    }
  }

  /** What the C writer, or any encoder that emits the same bytes, wrote is read back by both readers: the
      commands in order, then the end. */
  lemma WrittenReads(cmds: seq<Command>, n: nat)
    requires Sendable(cmds) && |Batch(cmds)| < W32
    ensures var p := Batch(cmds);
      && Commands(p, 0) == cmds && VkStop(p, 0) == |p|
      && CReads(p, 0, n) == Take(VkReads(p, 0), n) && |VkReads(p, 0)| == |cmds|
  {
    var p := Batch(cmds);
    assert p[0..] == p[..|p|];
    CutBatchReads(p, 0, cmds, |p|);
    NoWrapAgrees(p, 0, n);
  }

  /** Different command sequences have different bytes. */
  lemma BatchInjective(a: seq<Command>, b: seq<Command>)
    requires Sendable(a) && Sendable(b) && |Batch(a)| < W32 && Batch(a) == Batch(b)
    ensures a == b
  {
    WrittenReads(a, 0);
    WrittenReads(b, 0);
  }

  /** A record that the reader was told is there whole. */
  lemma HeadFetched(p: seq<Byte>, len: Word32, pos: nat, c: Command)
    requires pos + HEADER <= |p| && pos + |Record(c)| <= len
    requires RecAt(p, pos) == Rec(c.op, c.handle, |c.args|, pos + HEADER)
    ensures CNext(p, len, pos) == Got(RecAt(p, pos), pos + |Record(c)|)
  {
    hide RecAt, Record;
  }

  lemma OneMore(p: seq<Byte>, len: Word32, pos: Word32, rec: Rec, next: Word32)
    requires CNext(p, len, pos) == Got(rec, next) && rec.at <= next
    ensures CCommands(p, len, pos) == [CommandOf(p, rec)] + CCommands(p, len, next)
    ensures CStop(p, len, pos) == CStop(p, len, next)
  {
    hide CNext, RecAt, CommandOf;
  }

  /** The first of several whole records, to both readers. */
  lemma HeadStream(p: seq<Byte>, len: Word32, pos: nat, c: Command, tail: seq<Byte>)
    requires |c.args| < W32 && pos <= |p| && p[pos..] == Record(c) + tail && pos + |Record(c)| <= len
    ensures var next := pos + |Record(c)|;
      && next <= |p| && p[next..] == tail
      && Commands(p, pos) == [c] + Commands(p, next)
      && CCommands(p, len, pos) == [c] + CCommands(p, len, next) && CStop(p, len, pos) == CStop(p, len, next)
  {
    hide CCommands, CStop, CommandOf, RecAt;
    var n := |Record(c)|;
    var w := Record(c) + tail;
    assert w == w[..|w|];
    HeadReads(p, pos, c, tail, |w|);
    HeadFetched(p, len, pos, c);
    hide VkNext, CNext, Record;
    OneMore(p, len, pos, RecAt(p, pos), pos + n);
    assert p[pos + n..] == p[pos..][n..];
  }

  /** A batch with more bytes behind it. Told the length of the batch, the C reader gives its commands and no more;
      the Vulkan reader, which is not told, reads on. */
  lemma {:induction false} ExtendedReads(p: seq<Byte>, pos: nat, cmds: seq<Command>, extra: seq<Byte>)
    requires Sendable(cmds) && pos + |Batch(cmds)| < W32 && pos <= |p| && p[pos..] == Batch(cmds) + extra
    ensures var len := pos + |Batch(cmds)|;
      && len <= |p| && Commands(p, pos) == cmds + Commands(p, len)
      && CCommands(p, len, pos) == cmds && CStop(p, len, pos) == AtEnd
    decreases |cmds|
  {
    hide Record, Batch, Commands, CommandOf, RecAt, VkNext, CCommands, CStop, CNext;
    BatchHead(cmds, extra);
    if cmds == [] {
      EndReads(p, pos);
    } else {
      HeadStream(p, pos + |Batch(cmds)|, pos, cmds[0], Batch(cmds[1..]) + extra);
      ExtendedReads(p, pos + |Record(cmds[0])|, cmds[1..], extra);
    }
  }

  lemma BatchHead(cmds: seq<Command>, extra: seq<Byte>)
    ensures cmds == [] ==> Batch(cmds) == []
    ensures cmds != [] ==>
      && |Batch(cmds)| == |Record(cmds[0])| + |Batch(cmds[1..])|
      && Batch(cmds) + extra == Record(cmds[0]) + (Batch(cmds[1..]) + extra)
  {
    hide Record;
  }

  lemma EndReads(p: seq<Byte>, pos: Word32)
    ensures CCommands(p, pos, pos) == [] && CStop(p, pos, pos) == AtEnd
  {
  }

  /** What a reader told the whole length sees of the first command cut: nothing, or as much as is there. */
  function CutCommand(cmds: seq<Command>, k: nat): (s: seq<Command>)
    requires k < |Batch(cmds)|
    decreases |cmds|
  {
    var c, n := cmds[0], |Record(cmds[0])|;
    if n <= k then CutCommand(cmds[1..], k - n)
    else if k < HEADER then []
    else [c.(args := c.args[..k - HEADER])]
  }

  lemma CutLater(cmds: seq<Command>, k: nat)
    requires k < |Batch(cmds)| && |Record(cmds[0])| <= k
    ensures var rest, left := cmds[1..], k - |Record(cmds[0])|;
      && left < |Batch(rest)| && WholeIn(cmds, k) == 1 + WholeIn(rest, left)
      && CutCommand(cmds, k) == CutCommand(rest, left)
      && cmds[..WholeIn(cmds, k)] + CutCommand(cmds, k) ==
         [cmds[0]] + (rest[..WholeIn(rest, left)] + CutCommand(rest, left))
  {
    hide Record;
  }

  /** A batch cut short, with the reader told the length it had: the commands whole before the cut, then what is
      left of the next if its header is there. Only where that was the last does the reader stop within the bytes. */
  lemma {:induction false} TruncatedReads(p: seq<Byte>, len: Word32, pos: nat, cmds: seq<Command>, k: nat)
    requires Sendable(cmds) && pos + |Batch(cmds)| == len && k < |Batch(cmds)|
    requires pos <= |p| && p[pos..] == Batch(cmds)[..k]
    ensures CCommands(p, len, pos) == cmds[..WholeIn(cmds, k)] + CutCommand(cmds, k)
    ensures CStop(p, len, pos) ==
      if CutCommand(cmds, k) != [] && WholeIn(cmds, k) == |cmds| - 1 then AtEnd else BeyondBuffer
    decreases |cmds|
  {
    hide RecAt, Record, CommandOf;
    var c, n := cmds[0], |Record(cmds[0])|;
    assert |Batch(cmds)| == n + |Batch(cmds[1..])|;
    assert pos + k == |p| by {
      assert |p[pos..]| == k;
    }
    if k >= HEADER {
      hide CCommands, CStop;
      HeadReads(p, pos, c, Batch(cmds[1..]), k);
      HeadFetched(p, len, pos, c);
      hide CNext, VkNext;
      OneMore(p, len, pos, RecAt(p, pos), pos + n);
      if n <= k {
        CutTail(p, pos, cmds, k);
        CutLater(cmds, k);
        hide WholeIn, CutCommand;
        TruncatedReads(p, len, pos + n, cmds[1..], k - n);
      } else {
        CutArgs(p, pos, c, Batch(cmds[1..]), k);
        NothingBeyond(p, len, pos + n, cmds[1..]);
      }
    }
  }

  lemma CutArgs(p: seq<Byte>, pos: nat, c: Command, tail: seq<Byte>, k: nat)
    requires |c.args| < W32 && HEADER <= k < |Record(c)| && pos <= |p| && p[pos..] == (Record(c) + tail)[..k]
    requires RecAt(p, pos) == Rec(c.op, c.handle, |c.args|, pos + HEADER)
    ensures CommandOf(p, RecAt(p, pos)) == c.(args := c.args[..k - HEADER])
  {
    RecordSlices(c, tail);
    var w := Record(c) + tail;
    CutSlice(p, pos, w, k, HEADER, k);
    hide RecAt, Record;
    assert w[HEADER..k] == w[HEADER..HEADER + |c.args|][..k - HEADER];
  }

  /** Past the end of the bytes, a reader that was told of more commands reads on. */
  lemma NothingBeyond(p: seq<Byte>, len: Word32, pos: nat, cmds: seq<Command>)
    requires |p| < pos + HEADER && pos + |Batch(cmds)| == len
    ensures CCommands(p, len, pos) == [] && CStop(p, len, pos) == if cmds == [] then AtEnd else BeyondBuffer
  {
  }

  /** The C reader as an object: it was told that `len` bytes lie at `buf`. */
  class BatchReader {
    const buf: seq<Byte>
    const len: Word32
    var pos: Word32

    constructor (buf: seq<Byte>, len: Word32)
      ensures this.buf == buf && this.len == len && pos == 0
    {
      this.buf, this.len, pos := buf, len, 0;
    }

    /** The next of the commands, or how the reading stops; past a record that wraps, the position goes back. */
    method Next() returns (r: Fetch)
      modifies this
      ensures r == CNext(buf, len, old(pos)) && pos == if r.Got? then r.next else old(pos)
      ensures r.Got? && r.next >= r.rec.at ==>
        && CCommands(buf, len, old(pos)) == [CommandOf(buf, r.rec)] + CCommands(buf, len, pos)
        && CStop(buf, len, old(pos)) == CStop(buf, len, pos)
        && old(pos) < pos <= len
      ensures !(r.Got? && r.next >= r.rec.at) ==>
        && CCommands(buf, len, old(pos)) == []
        && CStop(buf, len, old(pos)) == if r == Ended then AtEnd else if r == PastBuffer then BeyondBuffer else GoesBack
    {
      hide RecAt;
      if pos + HEADER > len {
        return Ended;
      }
      if pos + HEADER > |buf| {
        return PastBuffer;
      }
      var rec := RecAt(buf, pos);
      var adv := Wrap32(HEADER + rec.argLen);
      if Wrap32(pos + adv) > len {
        return Ended;
      }
      pos := Wrap32(pos + adv);
      return Got(rec, pos);
    }
  }
}
