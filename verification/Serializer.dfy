/** The encoders of the command stream beside the C writer, and the frame every message travels in. */
module Serializer {
  import opened Words
  import opened Bytes
  import opened Wire

  const MAGIC: Word32 := 0x5247_5055
  const VERSION: int := 1
  const COMMAND_BATCH: int := 6
  const CREATE_TEXTURE_2D: Word32 := 101
  const CREATE_RTV: Word32 := 103
  const CLEAR_RTV: Word32 := 142
  const PRESENT: Word32 := 180
  const FRAME_HEADER: nat := 20
  const R8G8B8A8_UNORM: Word32 := 28

  type Word16 = x: int | 0 <= x < 0x1_0000

  function Le2(x: Word16): (s: seq<Byte>)
    ensures |s| == 2
  {
    [x % 256, x / 256]
  }

  function FromLe2(s: seq<Byte>): (x: Word16)
    requires |s| == 2
  {
    var b: int := s[1];
    s[0] + 256 * b
  }

  // ----- frames -----

  function FrameHeader(msgType: Word16, session: Word32, sequence: Word32, length: int): (s: seq<Byte>)
    ensures |s| == FRAME_HEADER
  {
    Le4(MAGIC) + Le2(VERSION) + Le2(msgType) + Le4(session) + Le4(sequence) + Le4(length)
  }

  /** The frame of the C++ encoder, which cuts the payload length to 32 bits. */
  function Frame(msgType: Word16, payload: seq<Byte>, session: Word32, sequence: Word32): seq<Byte> {
    FrameHeader(msgType, session, sequence, |payload|) + payload
  }

  datatype Parsed = Parsed(msgType: Word16, session: Word32, sequence: Word32, payload: seq<Byte>) | TooShort | BadMagic

  /** The Python parse. A payload shorter than its header says is not an error, it is what there is. */
  function Parse(data: seq<Byte>): Parsed {
    if |data| < FRAME_HEADER then TooShort
    else if FromLe4(data[0..4]) != MAGIC then BadMagic
    else
      var length := FromLe4(data[16..20]);
      Parsed(FromLe2(data[6..8]), FromLe4(data[8..12]), FromLe4(data[12..16]),
             if FRAME_HEADER + length <= |data| then data[FRAME_HEADER..FRAME_HEADER + length]
             else data[FRAME_HEADER..])
  }

  lemma HeaderSlices(msgType: Word16, session: Word32, sequence: Word32, length: int, tail: seq<Byte>)
    ensures var d := FrameHeader(msgType, session, sequence, length) + tail;
      && d[0..4] == Le4(MAGIC) && d[6..8] == Le2(msgType) && d[8..12] == Le4(session)
      && d[12..16] == Le4(sequence) && d[16..20] == Le4(length) && d[FRAME_HEADER..] == tail
  {
    hide Le4, Le2;
  }

  lemma HeaderFields(msgType: Word16, session: Word32, sequence: Word32, length: int, tail: seq<Byte>)
    ensures var d := FrameHeader(msgType, session, sequence, length) + tail;
      && |d| == FRAME_HEADER + |tail| && d[FRAME_HEADER..] == tail
      && FromLe4(d[0..4]) == MAGIC && FromLe2(d[6..8]) == msgType && FromLe4(d[8..12]) == session
      && FromLe4(d[12..16]) == sequence && FromLe4(d[16..20]) == Wrap32(length)
  {
    HeaderSlices(msgType, session, sequence, length, tail);
    Le4RoundTrip(MAGIC);
    Le4RoundTrip(session);
    Le4RoundTrip(sequence);
    Le4RoundTrip(length);
    hide Le4, FromLe4, FrameHeader;
  }

  /** A frame, cut within its payload or followed by more bytes, parses as itself with the payload cut alike, to no
      more than its length modulo 2^32. */
  lemma FrameParses(msgType: Word16, length: nat, session: Word32, sequence: Word32, tail: seq<Byte>)
    ensures Parse(FrameHeader(msgType, session, sequence, length) + tail) ==
            Parsed(msgType, session, sequence, Take(tail, Wrap32(length)))
  {
    HeaderFields(msgType, session, sequence, length, tail);
    var d, n := FrameHeader(msgType, session, sequence, length) + tail, Wrap32(length);
    hide FromLe4, FromLe2, FrameHeader, Wrap32;
    if n <= |tail| {
      assert d[FRAME_HEADER..FRAME_HEADER + n] == d[FRAME_HEADER..][..n];
    }
  }

  /** A frame parses as its own fields, and as its whole payload exactly when the payload's length fits 32 bits. */
  lemma FrameRoundTrip(msgType: Word16, payload: seq<Byte>, session: Word32, sequence: Word32)
    ensures var m := Parse(Frame(msgType, payload, session, sequence));
      && m == Parsed(msgType, session, sequence, payload[..Wrap32(|payload|)])
      && (m.payload == payload <==> |payload| < W32)
  {
    hide Parse, FrameHeader;
    FrameParses(msgType, |payload|, session, sequence, payload);
  }

  // ----- the Python encoder -----

  /** The Python frame: struct.pack refuses a length of more than 32 bits. */
  function PyFrame(msgType: Word16, payload: seq<Byte>, session: Word32, sequence: Word32): Option<seq<Byte>> {
    if |payload| >= W32 then None
    else Some(Le4(MAGIC) + Le2(VERSION) + Le2(msgType) + Le4(session) + Le4(sequence) + Le4(|payload|) + payload)
  }

  function PyCmd(op: Word32, handle: Word32, args: seq<Byte>): Option<seq<Byte>> {
    if |args| >= W32 then None else Some(Le4(op) + Le4(handle) + Le4(|args|) + args)
  }

  /** `body += cmd(...)` for each command in turn. */
  function PyBatch(cmds: seq<Command>): Option<seq<Byte>> {
    if cmds == [] then Some([]) else
    var c := cmds[|cmds| - 1];
    match PyBatch(cmds[..|cmds| - 1])
    case None => None
    case Some(body) =>
      match PyCmd(c.op, c.handle, c.args)
      case None => None
      case Some(b) => Some(body + b)
  }

  /** The Python encoder emits the bytes of the C layout, and fails exactly when a length does not fit in it. */
  lemma {:induction false} PyBatchIsBatch(cmds: seq<Command>)
    ensures PyBatch(cmds) == if Sendable(cmds) then Some(Batch(cmds)) else None
  {
    if cmds != [] {
      var before, c := cmds[..|cmds| - 1], cmds[|cmds| - 1];
      assert cmds == before + [c];
      PyBatchIsBatch(before);
      BatchAppend(before, c);
      hide Batch;
      if Sendable(cmds) {
        assert Sendable(before) && Record(c) == PyCmd(c.op, c.handle, c.args).value;
      } else if Sendable(before) {
        assert |c.args| >= W32;
      }
    }
  }

  function CreateArgs(width: Word32, height: Word32, format: Word32): seq<Byte> {
    Le4(width) + Le4(height) + Le4(format)
  }

  // ----- the C++ serializer -----

  class Device {
    var body: seq<Byte>
    var count: Word32
    var nextHandle: Word32
    /** The commands recorded and the handles given out. */
    ghost var sent: seq<Command>
    ghost var issued: seq<Word32>

    ghost predicate Valid()
      reads this
    {
      && body == Batch(sent) && count == Wrap32(|sent|)
      && nextHandle == Wrap32(1 + |issued|)
      && forall i {:trigger issued[i]} :: 0 <= i < |issued| ==> issued[i] == Wrap32(1 + i)
    }

    constructor ()
      ensures Valid() && sent == [] && issued == []
    {
      body, count, nextHandle, sent, issued := [], 0, 1, [], [];
    }

    method Add(op: Word32, handle: Word32, args: seq<Byte>)
      requires Valid() && |args| < W32
      modifies this`body, this`count, this`sent
      ensures Valid() && sent == old(sent) + [Command(op, handle, args)]
    {
      BatchAppend(sent, Command(op, handle, args));
      CountStep(|sent|);
      RecordParts(body, Command(op, handle, args));
      hide Batch, Wrap32, Record;
      body := body + (Le4(op) + Le4(handle) + Le4(|args|));
      if |args| > 0 {
        body := body + args;
      }
      count := Wrap32(count + 1);
      sent := sent + [Command(op, handle, args)];
    }

    method CreateTexture2D(width: Word32, height: Word32, format: Word32) returns (handle: Word32)
      requires Valid()
      modifies this
      ensures Valid() && issued == old(issued) + [handle]
      ensures sent == old(sent) + [Command(CREATE_TEXTURE_2D, handle, CreateArgs(width, height, format))]
    {
      CountStep(1 + |issued|);
      hide Wrap32, Batch;
      handle := nextHandle;
      nextHandle := Wrap32(nextHandle + 1);
      issued := issued + [handle];
      Add(CREATE_TEXTURE_2D, handle, CreateArgs(width, height, format));
    }

    /** The view shares its texture's handle. */
    method CreateRenderTargetView(texture: Word32) returns (handle: Word32)
      requires Valid()
      modifies this`body, this`count, this`sent
      ensures Valid() && handle == texture && sent == old(sent) + [Command(CREATE_RTV, texture, [])]
    {
      Add(CREATE_RTV, texture, []);
      return texture;
    }

    method ClearRenderTargetView(rtv: Word32, rgba: seq<Byte>)
      requires Valid() && |rgba| == 16
      modifies this`body, this`count, this`sent
      ensures Valid() && sent == old(sent) + [Command(CLEAR_RTV, rtv, rgba)]
    {
      Add(CLEAR_RTV, rtv, rgba);
    }

    method Present(frame: Word32)
      requires Valid()
      modifies this`body, this`count, this`sent
      ensures Valid() && sent == old(sent) + [Command(PRESENT, frame, Le4(0))]
    {
      Add(PRESENT, frame, Le4(0));
    }

    /** The payload length is cut to 32 bits. Where the Python encoder builds a frame of the same commands at all, it
        is this one. */
    method BuildBatch(session: Word32, sequence: Word32) returns (out: seq<Byte>)
      requires Valid()
      ensures out == Frame(COMMAND_BATCH, Batch(sent), session, sequence)
      ensures var body := PyBatch(sent);
        body.Some? ==>
          var py := PyFrame(COMMAND_BATCH, body.value, session, sequence);
          if |Batch(sent)| < W32 then py == Some(out) else py == None
    {
      PyBatchIsBatch(sent);
      out := FrameHeader(COMMAND_BATCH, session, sequence, Wrap32(|body|)) + body;
      LengthCut(session, sequence, |body|);
    }
  }

  lemma LengthCut(session: Word32, sequence: Word32, n: nat)
    ensures FrameHeader(COMMAND_BATCH, session, sequence, Wrap32(n)) == FrameHeader(COMMAND_BATCH, session, sequence, n)
  {
    assert Wrap32(n) % 0x1_0000_0000 == n % 0x1_0000_0000;
    assert Le4(Wrap32(n)) == Le4(n);
    hide Le4, Wrap32;
  }

  /** The first 2^32 handles a device gives out are all different, and only the last of them is zero. */
  lemma HandlesDiffer(issued: seq<Word32>, i: nat, j: nat)
    requires forall k {:trigger issued[k]} :: 0 <= k < |issued| ==> issued[k] == Wrap32(1 + k)
    requires i < j < |issued| <= W32
    ensures issued[i] != issued[j] && issued[i] != 0
  {
    assert issued[i] == Wrap32(1 + i) && issued[j] == Wrap32(1 + j);
  }

  /** From the front end to a reader: the frame a device builds parses into a payload from which both readers give
      the recorded commands and nothing else. */
  lemma FrameCarriesCommands(cmds: seq<Command>, session: Word32, sequence: Word32, n: nat)
    requires Sendable(cmds) && |Batch(cmds)| < W32
    ensures var m := Parse(Frame(COMMAND_BATCH, Batch(cmds), session, sequence));
      && m.Parsed? && m.msgType == COMMAND_BATCH && m.session == session && |m.payload| < W32
      && Commands(m.payload, 0) == cmds && VkStop(m.payload, 0) == |m.payload|
      && CReads(m.payload, 0, n) == Take(VkReads(m.payload, 0), n)
  {
    FrameRoundTrip(COMMAND_BATCH, Batch(cmds), session, sequence);
    hide Frame, Parse;
    WrittenReads(cmds, n);
  }
}
