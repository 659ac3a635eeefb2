/** The two renderers of a command batch: the D3D11 interpreter over a texture table, and the Vulkan one-pass
    summary. A texture is its size and one colour. */
module Render {
  import opened Words
  import opened Bytes
  import opened Wire
  import opened Serializer

  type Colour = seq<Byte>

  /** A texture that was never cleared has no colour to speak of. */
  datatype Texture = Texture(width: Word32, height: Word32, format: Word32, colour: Option<Colour>)

  datatype Picture = Picture(width: Word32, height: Word32, colour: Option<Colour>)

  /** How rendering a frame fails. The last three end the model of a batch: there the source reads on, out of the next
      record, out of the memory behind the buffer, or again from an earlier record. */
  datatype Error =
    | BatchTooSmall | NotABatch | CreateFailed | ViewFailed | UnknownTexture | StagingFailed
    | ReadsPastRecord | ReadsPastBuffer | ReadsBack

  /** What the graphics device decides: which calls succeed, and the bytes of a pixel of a format cleared to four
      floats. */
  datatype Gpu = Gpu(canCreate: (Word32, Word32, Word32) -> bool, canView: Texture -> bool, canStage: Texture -> bool,
                     quantise: (Word32, seq<Byte>) -> Colour)

  datatype Canvas = Canvas(textures: map<Word32, Texture>, picture: Option<Picture>, error: Option<Error>)

  function Word(args: seq<Byte>, at: nat): Word32
    requires at + 4 <= |args|
  {
    FromLe4(args[at..at + 4])
  }

  /** One record of the interpreter. Arguments shorter than their layout would be read out of the next record. */
  function D3dStep(gpu: Gpu, s: Canvas, c: Command): Canvas {
    if s.error.Some? then s
    else if c.op == CREATE_TEXTURE_2D then
      if |c.args| < 12 then s.(error := Some(ReadsPastRecord))
      else
        var t := Texture(Word(c.args, 0), Word(c.args, 4), Word(c.args, 8), None);
        if !gpu.canCreate(t.width, t.height, t.format) then s.(error := Some(CreateFailed))
        else s.(textures := s.textures[c.handle := t])
    else if c.op == CLEAR_RTV then
      if c.handle !in s.textures then s.(error := Some(UnknownTexture))
      else if !gpu.canView(s.textures[c.handle]) then s.(error := Some(ViewFailed))
      else if |c.args| < 16 then s.(error := Some(ReadsPastRecord))
      else
        var t := s.textures[c.handle];
        s.(textures := s.textures[c.handle := t.(colour := Some(gpu.quantise(t.format, c.args[..16])))])
    else if c.op == PRESENT then
      if c.handle !in s.textures then s.(error := Some(UnknownTexture))
      else if !gpu.canStage(s.textures[c.handle]) then s.(error := Some(StagingFailed))
      else
        var t := s.textures[c.handle];
        s.(picture := Some(Picture(t.width, t.height, t.colour)))
    else s
  }

  function D3dRun(gpu: Gpu, s: Canvas, cmds: seq<Command>): Canvas {
    if cmds == [] then s else D3dStep(gpu, D3dRun(gpu, s, cmds[..|cmds| - 1]), cmds[|cmds| - 1])
  }

  /** The little-endian floats 0, 0, 0, 1. */
  const BLACK: seq<Byte> := [0, 0, 0, 0, 0, 0, 0, 0, 0, 0, 0, 0, 0, 0, 128, 63]

  datatype Summary = Summary(width: Word32, height: Word32, clear: seq<Byte>, haveClear: bool, havePresent: bool)

  const START: Summary := Summary(64, 64, BLACK, false, false)

  function VkStep(s: Summary, c: Command): Summary {
    if c.op == CREATE_TEXTURE_2D && |c.args| >= 12 then s.(width := Word(c.args, 0), height := Word(c.args, 4))
    else if c.op == CLEAR_RTV && |c.args| >= 16 then s.(clear := c.args[..16], haveClear := true)
    else if c.op == PRESENT then s.(havePresent := true)
    else s
  }

  function VkRun(cmds: seq<Command>): Summary {
    if cmds == [] then START else VkStep(VkRun(cmds[..|cmds| - 1]), cmds[|cmds| - 1])
  }

  /** The image the Vulkan renderer draws of a summary, always in its one format and whether or not anything was
      cleared or presented. */
  function VkPicture(gpu: Gpu, s: Summary): Picture {
    Picture(s.width, s.height, Some(gpu.quantise(R8G8B8A8_UNORM, s.clear)))
  }

  // ----- frames -----

  /** What the D3D11 renderer makes of a frame. It takes as many bytes as the header says. */
  function D3dFrame(gpu: Gpu, textures: map<Word32, Texture>, frame: seq<Byte>): Canvas {
    var s := Canvas(textures, None, None);
    if |frame| < FRAME_HEADER then s.(error := Some(BatchTooSmall))
    else if FromLe4(frame[0..4]) != MAGIC || FromLe2(frame[6..8]) != COMMAND_BATCH then s.(error := Some(NotABatch))
    else D3dPayload(gpu, s, frame[FRAME_HEADER..], FromLe4(frame[16..20]), 0)
  }

  /** From a position of the payload on. */
  function D3dPayload(gpu: Gpu, s: Canvas, p: seq<Byte>, len: Word32, pos: Word32): Canvas {
    var e := D3dRun(gpu, s, CCommands(p, len, pos));
    if e.error.Some? then e else
    match CStop(p, len, pos)
    case AtEnd => e
    case BeyondBuffer => e.(error := Some(ReadsPastBuffer))
    case GoesBack => e.(error := Some(ReadsBack))
  }

  /** What the Vulkan renderer makes of a frame. It ignores the type and the length and takes what is there. */
  function VkFrame(frame: seq<Byte>): Option<Summary> {
    if |frame| < FRAME_HEADER || FromLe4(frame[0..4]) != MAGIC then None
    else Some(VkRun(Commands(frame, FRAME_HEADER)))
  }

  /** What each refuses, by the bytes: too short a frame, one that does not begin with the magic number, and for D3D11
      one of another type. Nothing is drawn of it. */
  lemma FrameRefused(gpu: Gpu, textures: map<Word32, Texture>, frame: seq<Byte>)
    ensures var d, magic := D3dFrame(gpu, textures, frame), [0x55, 0x50, 0x47, 0x52];
      && (d.error == Some(BatchTooSmall) <==> |frame| < 20)
      && (d.error == Some(NotABatch) <==> 20 <= |frame| && !(frame[0..4] == magic && frame[6..8] == [6, 0]))
      && (d.error == Some(BatchTooSmall) || d.error == Some(NotABatch) ==> d.textures == textures && d.picture == None)
      && (VkFrame(frame) == None <==> |frame| < 20 || frame[0..4] != magic)
  {
    hide VkRun, Commands;
    if 20 <= |frame| {
      MagicBytes(frame[0..4]);
      TypeBytes(frame[6..8]);
      hide FromLe4, FromLe2;
      NeverAFrameError(gpu, Canvas(textures, None, None), frame[FRAME_HEADER..], FromLe4(frame[16..20]), 0);
      hide D3dPayload;
    }
  }

  lemma MagicBytes(s: seq<Byte>)
    requires |s| == 4
    ensures FromLe4(s) == MAGIC <==> s == [0x55, 0x50, 0x47, 0x52]
  {
    var b0: int, b1: int, b2: int, b3: int := s[0], s[1], s[2], s[3];
    if FromLe4(s) == MAGIC {
      assert b3 == 0x52 && b2 == 0x47 && b1 == 0x50 && b0 == 0x55;
    }
  }

  lemma TypeBytes(s: seq<Byte>)
    requires |s| == 2
    ensures FromLe2(s) == COMMAND_BATCH <==> s == [6, 0]
  {
  }

  lemma NeverAFrameError(gpu: Gpu, s: Canvas, p: seq<Byte>, len: Word32, pos: Word32)
    requires s.error == None
    ensures D3dPayload(gpu, s, p, len, pos).error != Some(BatchTooSmall)
    ensures D3dPayload(gpu, s, p, len, pos).error != Some(NotABatch)
  {
    hide D3dRun, CCommands, CStop;
    RunErrors(gpu, s, CCommands(p, len, pos));
  }

  lemma {:induction false} RunErrors(gpu: Gpu, s: Canvas, cmds: seq<Command>)
    requires s.error == None
    ensures D3dRun(gpu, s, cmds).error != Some(BatchTooSmall) && D3dRun(gpu, s, cmds).error != Some(NotABatch)
  {
    if cmds != [] {
      RunErrors(gpu, s, cmds[..|cmds| - 1]);
    }
  }

  // ----- the programs -----

  /** One more record read, by either reader where nothing wraps. */
  lemma ReadStep(p: seq<Byte>, pos: nat, done: seq<Command>)
    ensures VkNext(p, pos).None? ==> done + Commands(p, pos) == done
    ensures VkNext(p, pos).Some? ==>
      var c := CommandOf(p, VkNext(p, pos).value.0);
      done + Commands(p, pos) == done + [c] + Commands(p, VkNext(p, pos).value.1)
  {
    hide VkNext;
  }

  lemma RunStep(gpu: Gpu, s: Canvas, done: seq<Command>, c: Command)
    ensures D3dRun(gpu, s, done + [c]) == D3dStep(gpu, D3dRun(gpu, s, done), c)
  {
    assert (done + [c])[..|done|] == done;
    hide D3dStep;
  }

  lemma VkRunStep(done: seq<Command>, c: Command)
    ensures VkRun(done + [c]) == VkStep(VkRun(done), c)
  {
    assert (done + [c])[..|done|] == done;
    hide VkStep;
  }

  lemma NothingRuns()
    ensures VkRun([]) == START
  {
  }

  lemma {:induction false} D3dRunSplits(gpu: Gpu, s: Canvas, a: seq<Command>, b: seq<Command>)
    ensures D3dRun(gpu, s, a + b) == D3dRun(gpu, D3dRun(gpu, s, a), b)
    decreases |b|
  {
    if b == [] {
      assert a + b == a;
    } else {
      assert (a + b)[..|a + b| - 1] == a + b[..|b| - 1];
      D3dRunSplits(gpu, s, a, b[..|b| - 1]);
    }
  }

  class D3dRenderer {
    var textures: map<Word32, Texture>

    constructor ()
      ensures textures == map[]
    {
      textures := map[];
    }

    /** Check the frame, then interpret its records in the order they are read. A failed call ends the batch; what
        was drawn and presented before it stays. */
    method RenderBatch(gpu: Gpu, frame: seq<Byte>) returns (picture: Option<Picture>, error: Option<Error>)
      modifies this
      ensures var s := D3dFrame(gpu, old(textures), frame);
        textures == s.textures && picture == s.picture && error == s.error
    {
      picture, error := None, None;
      if |frame| < FRAME_HEADER {
        error := Some(BatchTooSmall);
        return;
      }
      if FromLe4(frame[0..4]) != MAGIC || FromLe2(frame[6..8]) != COMMAND_BATCH {
        error := Some(NotABatch);
        return;
      }
      hide FromLe4, FromLe2;
      picture, error := RenderPayload(gpu, frame[FRAME_HEADER..], FromLe4(frame[16..20]));
    }

    method RenderPayload(gpu: Gpu, p: seq<Byte>, len: Word32) returns (picture: Option<Picture>, error: Option<Error>)
      modifies this
      ensures var s := D3dPayload(gpu, Canvas(old(textures), None, None), p, len, 0);
        textures == s.textures && picture == s.picture && error == s.error
    {
      picture, error := None, None;
      var reader := new BatchReader(p, len);
      ghost var all := D3dPayload(gpu, Canvas(textures, None, None), p, len, 0);
      hide D3dPayload, D3dStep, CNext, CommandOf, CCommands, CStop;
      while true
        invariant fresh(reader) && reader.buf == p && reader.len == len && error == None
        invariant D3dPayload(gpu, Canvas(textures, picture, None), p, len, reader.pos) == all
        decreases len - reader.pos
      {
        ghost var pos, s0 := reader.pos, Canvas(textures, picture, None);
        var r := reader.Next();
        PayloadStops(gpu, s0, p, len, pos);
        if r.Ended? {
          return;
        } else if r.PastBuffer? {
          error := Some(ReadsPastBuffer);
          return;
        } else if r.next < r.rec.at {
          error := Some(ReadsBack);
          return;
        }
        var c := CommandOf(p, r.rec);
        PayloadStep(gpu, s0, p, len, pos, c, r.next);
        var s := D3dStep(gpu, Canvas(textures, picture, None), c);
        textures, picture, error := s.textures, s.picture, s.error;
        if error.Some? {
          return;
        }
      }
    }
  }

  lemma PayloadStops(gpu: Gpu, s: Canvas, p: seq<Byte>, len: Word32, pos: Word32)
    requires s.error == None
    ensures CCommands(p, len, pos) == [] ==>
      D3dPayload(gpu, s, p, len, pos) == s.(error := match CStop(p, len, pos)
        case AtEnd => None case BeyondBuffer => Some(ReadsPastBuffer) case GoesBack => Some(ReadsBack))
  {
    hide CCommands, CStop;
  }

  lemma PayloadStep(gpu: Gpu, s: Canvas, p: seq<Byte>, len: Word32, pos: Word32, c: Command, next: Word32)
    requires CCommands(p, len, pos) == [c] + CCommands(p, len, next) && CStop(p, len, pos) == CStop(p, len, next)
    ensures var t := D3dStep(gpu, s, c);
      D3dPayload(gpu, s, p, len, pos) == if t.error.Some? then t else D3dPayload(gpu, t, p, len, next)
  {
    StartRuns(gpu, s);
    RunStep(gpu, s, [], c);
    assert [] + [c] == [c];
    D3dRunSplits(gpu, s, [c], CCommands(p, len, next));
    hide CCommands, CStop, D3dStep, D3dRun;
    if D3dStep(gpu, s, c).error.Some? {
      ErrorStays(gpu, D3dStep(gpu, s, c), CCommands(p, len, next));
    }
  }

  lemma StartRuns(gpu: Gpu, s: Canvas)
    ensures D3dRun(gpu, s, []) == s
  {
  }

  lemma {:induction false} ErrorStays(gpu: Gpu, s: Canvas, cmds: seq<Command>)
    requires s.error.Some?
    ensures D3dRun(gpu, s, cmds) == s
  {
    if cmds != [] {
      ErrorStays(gpu, s, cmds[..|cmds| - 1]);
    }
  }

  method ReadRecord(payload: seq<Byte>, pos: nat) returns (r: Option<(Rec, nat)>)
    ensures r == VkNext(payload, pos)
  {
    if pos + HEADER > |payload| {
      return None;
    }
    var rec := RecAt(payload, pos);
    if pos + HEADER + rec.argLen > |payload| {
      return None;
    }
    return Some((rec, pos + HEADER + rec.argLen));
  }

  /** The Vulkan renderer's check of a frame and its loop over everything behind the header. */
  method ParseBatch(frame: seq<Byte>) returns (out: Option<Summary>)
    ensures out == VkFrame(frame)
  {
    if |frame| < FRAME_HEADER || FromLe4(frame[0..4]) != MAGIC {
      return None;
    }
    var s := START;
    var pos := FRAME_HEADER;
    ghost var done: seq<Command> := [];
    ghost var all := Commands(frame, FRAME_HEADER);
    hide VkRun, VkStep, CommandOf, Commands, VkNext, FromLe4;
    NothingRuns();
    while true
      invariant pos <= |frame| && done + Commands(frame, pos) == all
      invariant s == VkRun(done)
      decreases |frame| - pos
    {
      ReadStep(frame, pos, done);
      var r := ReadRecord(frame, pos);
      if r == None {
        return Some(s);
      }
      var c := CommandOf(frame, r.value.0);
      VkRunStep(done, c);
      s := VkStep(s, c);
      done := done + [c];
      pos := r.value.1;
    }
  }

  // ----- any batch: a texture has what its own commands did -----

  /** The number of commands up to and with the last of kind `op` on handle `h`, zero without one. */
  function LastOn(cmds: seq<Command>, op: Word32, h: Word32): (n: nat)
    ensures n <= |cmds| && (n > 0 ==> cmds[n - 1].op == op && cmds[n - 1].handle == h)
    ensures forall i :: n <= i < |cmds| ==> !(cmds[i].op == op && cmds[i].handle == h)
  {
    if cmds == [] then 0
    else if cmds[|cmds| - 1].op == op && cmds[|cmds| - 1].handle == h then |cmds|
    else LastOn(cmds[..|cmds| - 1], op, h)
  }

  lemma LastOnStep(cmds: seq<Command>, c: Command, op: Word32, h: Word32)
    ensures LastOn(cmds + [c], op, h) == if c.op == op && c.handle == h then |cmds| + 1 else LastOn(cmds, op, h)
  {
    assert (cmds + [c])[..|cmds|] == cmds;
  }

  /** Texture `now` is what `before` becomes by the commands on handle `h`: size and format are those of the last
      CREATE, and the colour is that of the last CLEAR since, in that format. */
  predicate Becomes(gpu: Gpu, before: Option<Texture>, cmds: seq<Command>, h: Word32, now: Option<Texture>) {
    var made, cleared := LastOn(cmds, CREATE_TEXTURE_2D, h), LastOn(cmds, CLEAR_RTV, h);
    && (now.Some? <==> made > 0 || before.Some?)
    && (made > 0 ==>
        && |cmds[made - 1].args| >= 12
        && now.value.width == Word(cmds[made - 1].args, 0) && now.value.height == Word(cmds[made - 1].args, 4)
        && now.value.format == Word(cmds[made - 1].args, 8))
    && (made == 0 && now.Some? ==> now.value == before.value.(colour := now.value.colour))
    && (cleared > made ==>
        && now.Some? && |cmds[cleared - 1].args| >= 16
        && now.value.colour == Some(gpu.quantise(now.value.format, cmds[cleared - 1].args[..16])))
    && (cleared <= made && now.Some? ==> now.value.colour == if made > 0 then None else before.value.colour)
  }

  function TextureOf(s: Canvas, h: Word32): Option<Texture> {
    if h in s.textures then Some(s.textures[h]) else None
  }

  /** A batch that does not fail leaves every texture as its own commands make it, and commands on other handles make
      no difference to it. */
  lemma {:induction false} TextureIsItsCommands(gpu: Gpu, s0: Canvas, cmds: seq<Command>, h: Word32)
    requires s0.error == None && D3dRun(gpu, s0, cmds).error == None
    ensures Becomes(gpu, TextureOf(s0, h), cmds, h, TextureOf(D3dRun(gpu, s0, cmds), h))
  {
    if cmds != [] {
      var init, c := cmds[..|cmds| - 1], cmds[|cmds| - 1];
      assert cmds == init + [c];
      RunStep(gpu, s0, init, c);
      hide Becomes, D3dRun, D3dStep, TextureOf;
      assert D3dRun(gpu, s0, init).error == None by { ErrorLasts(gpu, D3dRun(gpu, s0, init), c); }
      TextureIsItsCommands(gpu, s0, init, h);
      BecomesStep(gpu, TextureOf(s0, h), D3dRun(gpu, s0, init), init, c, h);
    } else {
      StartRuns(gpu, s0);
      hide D3dRun;
    }
  }

  lemma ErrorLasts(gpu: Gpu, s: Canvas, c: Command)
    requires D3dStep(gpu, s, c).error == None
    ensures s.error == None
  {
  }

  lemma BecomesStep(gpu: Gpu, before: Option<Texture>, s: Canvas, cmds: seq<Command>, c: Command, h: Word32)
    requires s.error == None && D3dStep(gpu, s, c).error == None && Becomes(gpu, before, cmds, h, TextureOf(s, h))
    ensures Becomes(gpu, before, cmds + [c], h, TextureOf(D3dStep(gpu, s, c), h))
  {
    hide LastOn, Word;
    LastOnStep(cmds, c, CREATE_TEXTURE_2D, h);
    LastOnStep(cmds, c, CLEAR_RTV, h);
    TextureStep(gpu, s, c, h);
    hide D3dStep;
  }

  /** A command changes the texture of its own handle and no other. */
  lemma TextureStep(gpu: Gpu, s: Canvas, c: Command, h: Word32)
    requires s.error == None && D3dStep(gpu, s, c).error == None
    ensures var t, u := TextureOf(s, h), TextureOf(D3dStep(gpu, s, c), h);
      if c.handle == h && c.op == CREATE_TEXTURE_2D then
        |c.args| >= 12 && u == Some(Texture(Word(c.args, 0), Word(c.args, 4), Word(c.args, 8), None))
      else if c.handle == h && c.op == CLEAR_RTV then
        && |c.args| >= 16 && t.Some?
        && u == Some(t.value.(colour := Some(gpu.quantise(t.value.format, c.args[..16]))))
      else u == t
  {
    hide FromLe4;
  }

  /** Its picture is that of the last presented handle as it was then. */
  lemma {:induction false} PictureIsLastPresented(gpu: Gpu, s0: Canvas, cmds: seq<Command>)
    requires s0.error == None && D3dRun(gpu, s0, cmds).error == None
    ensures var n := UpToPresent(cmds);
      if n == 0 then D3dRun(gpu, s0, cmds).picture == s0.picture
      else
        exists t ::
          && Becomes(gpu, TextureOf(s0, cmds[n - 1].handle), cmds[..n], cmds[n - 1].handle, Some(t))
          && D3dRun(gpu, s0, cmds).picture == Some(Picture(t.width, t.height, t.colour))
  {
    if cmds == [] {
      StartRuns(gpu, s0);
    } else {
      var init, c := cmds[..|cmds| - 1], cmds[|cmds| - 1];
      assert cmds == init + [c] && cmds[..|cmds|] == cmds;
      RunStep(gpu, s0, init, c);
      hide Becomes, D3dRun, D3dStep, TextureOf;
      ErrorLasts(gpu, D3dRun(gpu, s0, init), c);
      PictureStep(gpu, D3dRun(gpu, s0, init), c);
      if c.op == PRESENT {
        TextureIsItsCommands(gpu, s0, cmds, c.handle);
      } else {
        PictureIsLastPresented(gpu, s0, init);
        var n := UpToPresent(init);
        assert init[..n] == cmds[..n];
      }
    }
  }

  lemma PictureStep(gpu: Gpu, s: Canvas, c: Command)
    requires s.error == None && D3dStep(gpu, s, c).error == None
    ensures var t := D3dStep(gpu, s, c);
      if c.op == PRESENT then
        && TextureOf(t, c.handle).Some?
        && var u := TextureOf(t, c.handle).value; t.picture == Some(Picture(u.width, u.height, u.colour))
      else t.picture == s.picture
  {
    hide Word;
  }

  /** One command fails for what it needs, and a failed batch is one up to the command that failed. */
  lemma StepFails(gpu: Gpu, s: Canvas, c: Command)
    requires s.error == None
    ensures var e := D3dStep(gpu, s, c).error;
      && (e == Some(UnknownTexture) <==> (c.op == CLEAR_RTV || c.op == PRESENT) && c.handle !in s.textures)
      && (e == Some(ReadsPastRecord) <==>
          || (c.op == CREATE_TEXTURE_2D && |c.args| < 12)
          || (c.op == CLEAR_RTV && c.handle in s.textures && gpu.canView(s.textures[c.handle]) && |c.args| < 16))
      && (e == Some(CreateFailed) <==>
          c.op == CREATE_TEXTURE_2D && |c.args| >= 12
          && !gpu.canCreate(Word(c.args, 0), Word(c.args, 4), Word(c.args, 8)))
      && (e == Some(ViewFailed) <==>
          c.op == CLEAR_RTV && c.handle in s.textures && !gpu.canView(s.textures[c.handle]))
      && (e == Some(StagingFailed) <==>
          c.op == PRESENT && c.handle in s.textures && !gpu.canStage(s.textures[c.handle]))
      && (e.Some? ==> D3dStep(gpu, s, c) == s.(error := e))
      && (e.Some? ==> e.value in {UnknownTexture, ReadsPastRecord, CreateFailed, ViewFailed, StagingFailed})
  {
    hide FromLe4;
  }

  /** A batch that fails stops at one command, with everything before it done. It fails with an unknown texture
      exactly when that command clears or presents a handle that was never created. */
  lemma {:induction false} FailsAt(gpu: Gpu, s0: Canvas, cmds: seq<Command>) returns (n: nat)
    requires s0.error == None && D3dRun(gpu, s0, cmds).error.Some?
    ensures n < |cmds| && D3dRun(gpu, s0, cmds[..n]).error == None
    ensures D3dRun(gpu, s0, cmds) == D3dRun(gpu, s0, cmds[..n]).(error := D3dRun(gpu, s0, cmds).error)
    ensures D3dRun(gpu, s0, cmds) == D3dStep(gpu, D3dRun(gpu, s0, cmds[..n]), cmds[n])
    ensures D3dRun(gpu, s0, cmds).error == Some(UnknownTexture) <==>
      && (cmds[n].op == CLEAR_RTV || cmds[n].op == PRESENT) && cmds[n].handle !in s0.textures
      && forall i :: 0 <= i < n ==> !(cmds[i].op == CREATE_TEXTURE_2D && cmds[i].handle == cmds[n].handle)
  {
    assert cmds != [] by { StartRuns(gpu, s0); }
    var init, c := cmds[..|cmds| - 1], cmds[|cmds| - 1];
    assert cmds == init + [c];
    RunStep(gpu, s0, init, c);
    hide D3dRun, D3dStep, Becomes;
    n := |cmds| - 1;
    if D3dRun(gpu, s0, init).error.Some? {
      n := FailsAt(gpu, s0, init);
      assert init[..n] == cmds[..n];
      FailureStays(gpu, D3dRun(gpu, s0, init), c);
    } else {
      StepFails(gpu, D3dRun(gpu, s0, init), c);
      Created(gpu, s0, init, c.handle);
    }
  }

  lemma FailureStays(gpu: Gpu, s: Canvas, c: Command)
    requires s.error.Some?
    ensures D3dStep(gpu, s, c) == s
  {
  }

  /** A handle is known exactly when it was there or one of the commands created it. */
  lemma Created(gpu: Gpu, s0: Canvas, cmds: seq<Command>, h: Word32)
    requires s0.error == None && D3dRun(gpu, s0, cmds).error == None
    ensures h in D3dRun(gpu, s0, cmds).textures <==>
      h in s0.textures || exists i :: 0 <= i < |cmds| && cmds[i].op == CREATE_TEXTURE_2D && cmds[i].handle == h
  {
    hide D3dRun, LastOn, Word;
    TextureIsItsCommands(gpu, s0, cmds, h);
  }

  /** The number of commands up to and with the last of kind `op` with as many bytes of arguments, zero without one. */
  function LastLong(cmds: seq<Command>, op: Word32, size: nat): (n: nat)
    ensures n <= |cmds| && (n > 0 ==> cmds[n - 1].op == op && |cmds[n - 1].args| >= size)
    ensures forall i :: n <= i < |cmds| ==> !(cmds[i].op == op && |cmds[i].args| >= size)
  {
    if cmds == [] then 0
    else if cmds[|cmds| - 1].op == op && |cmds[|cmds| - 1].args| >= size then |cmds|
    else LastLong(cmds[..|cmds| - 1], op, size)
  }

  /** Size of the last whole CREATE, colour of the last whole CLEAR, whatever their handles, and whether anything is
      presented. Without one the size is 64 by 64 and the colour opaque black. */
  predicate Summed(cmds: seq<Command>, s: Summary) {
    var made, cleared := LastLong(cmds, CREATE_TEXTURE_2D, 12), LastLong(cmds, CLEAR_RTV, 16);
    && (if made > 0 then s.width == Word(cmds[made - 1].args, 0) && s.height == Word(cmds[made - 1].args, 4)
        else s.width == s.height == 64)
    && (s.haveClear <==> cleared > 0)
    && s.clear == (if cleared > 0 then cmds[cleared - 1].args[..16]
                   else [0, 0, 0, 0, 0, 0, 0, 0, 0, 0, 0, 0, 0, 0, 128, 63])
    && (s.havePresent <==> UpToPresent(cmds) > 0)
  }

  lemma SummedStep(cmds: seq<Command>, s: Summary, c: Command)
    requires Summed(cmds, s)
    ensures Summed(cmds + [c], VkStep(s, c))
  {
    hide LastLong, UpToPresent, Word;
    LastLongStep(cmds, c, CREATE_TEXTURE_2D, 12);
    LastLongStep(cmds, c, CLEAR_RTV, 16);
    LastPresentStep(cmds, c);
  }

  lemma LastLongStep(cmds: seq<Command>, c: Command, op: Word32, size: nat)
    ensures LastLong(cmds + [c], op, size) ==
            if c.op == op && |c.args| >= size then |cmds| + 1 else LastLong(cmds, op, size)
  {
    assert (cmds + [c])[..|cmds|] == cmds;
  }

  lemma LastPresentStep(cmds: seq<Command>, c: Command)
    ensures UpToPresent(cmds + [c]) == if c.op == PRESENT then |cmds| + 1 else UpToPresent(cmds)
  {
    assert (cmds + [c])[..|cmds|] == cmds;
  }

  /** So is the Vulkan renderer's summary of any batch. */
  lemma {:induction false} SummaryIs(cmds: seq<Command>)
    ensures Summed(cmds, VkRun(cmds))
  {
    if cmds != [] {
      var init, c := cmds[..|cmds| - 1], cmds[|cmds| - 1];
      assert cmds == init + [c];
      SummaryIs(init);
      VkRunStep(init, c);
      SummedStep(init, VkRun(init), c);
      hide Summed, VkRun, VkStep;
    }
  }

  // ----- one meaning -----

  /** A batch over one texture: created by its first command and by no other, and every clear and present is of it
      with whole arguments. */
  predicate OneTexture(cmds: seq<Command>, h: Word32) {
    && cmds != [] && cmds[0].op == CREATE_TEXTURE_2D && cmds[0].handle == h && |cmds[0].args| >= 12
    && forall i :: 1 <= i < |cmds| ==>
      && cmds[i].op != CREATE_TEXTURE_2D
      && (cmds[i].op == CLEAR_RTV ==> cmds[i].handle == h && |cmds[i].args| >= 16)
      && (cmds[i].op == PRESENT ==> cmds[i].handle == h)
  }

  /** The device does what is asked of it. */
  ghost predicate Able(gpu: Gpu, c: Command)
    requires |c.args| >= 12
  {
    && gpu.canCreate(Word(c.args, 0), Word(c.args, 4), Word(c.args, 8))
    && forall k :: gpu.canView(Texture(Word(c.args, 0), Word(c.args, 4), Word(c.args, 8), k))
                && gpu.canStage(Texture(Word(c.args, 0), Word(c.args, 4), Word(c.args, 8), k))
  }

  /** The picture of a texture that is as a summary says, in its format. */
  function Shown(gpu: Gpu, format: Word32, s: Summary): Picture {
    Picture(s.width, s.height, if s.haveClear then Some(gpu.quantise(format, s.clear)) else None)
  }

  /** How many commands there are up to and with the last PRESENT, zero without one. */
  function UpToPresent(cmds: seq<Command>): (n: nat)
    ensures n <= |cmds| && (n > 0 ==> cmds[n - 1].op == PRESENT)
    ensures forall i :: n <= i < |cmds| ==> cmds[i].op != PRESENT
  {
    if cmds == [] then 0
    else if cmds[|cmds| - 1].op == PRESENT then |cmds|
    else UpToPresent(cmds[..|cmds| - 1])
  }

  /** What the interpreter holds is what the summary says: the texture in its present state, and as the picture the
      texture as the summary of the commands up to the last PRESENT has it. */
  lemma {:induction false} InterpreterIsSummary(gpu: Gpu, s0: Canvas, cmds: seq<Command>, h: Word32)
    requires OneTexture(cmds, h) && Able(gpu, cmds[0]) && s0.error == None
    ensures var s, n, format := D3dRun(gpu, s0, cmds), UpToPresent(cmds), Word(cmds[0].args, 8);
      && s.error == None && h in s.textures
      && s.textures[h] ==
         Texture(VkRun(cmds).width, VkRun(cmds).height, format, Shown(gpu, format, VkRun(cmds)).colour)
      && s.picture == (if n == 0 then s0.picture else Some(Shown(gpu, format, VkRun(cmds[..n]))))
      && VkRun(cmds).havePresent == (n > 0)
      && VkRun(cmds).width == Word(cmds[0].args, 0) && VkRun(cmds).height == Word(cmds[0].args, 4)
  {
    var before, c := cmds[..|cmds| - 1], cmds[|cmds| - 1];
    if before == [] {
      assert D3dRun(gpu, s0, before) == s0 && VkRun(before) == START;
    } else {
      assert OneTexture(before, h);
      InterpreterIsSummary(gpu, s0, before, h);
      var n := UpToPresent(before);
      assert before[..n] == cmds[..n];
      assert cmds[..|cmds|] == cmds;
      hide Word;
    }
  }

  /** A PRESENT comes after the last CLEAR_RTV, and there is one. */
  predicate PresentsLastClear(cmds: seq<Command>) {
    && (exists i :: 0 <= i < UpToPresent(cmds) && cmds[i].op == CLEAR_RTV)
    && forall i :: UpToPresent(cmds) <= i < |cmds| ==> cmds[i].op != CLEAR_RTV
  }

  lemma {:induction false} ClearsCount(cmds: seq<Command>, i: nat, h: Word32)
    requires OneTexture(cmds, h) && i < |cmds| && cmds[i].op == CLEAR_RTV
    ensures VkRun(cmds).haveClear
  {
    var before := cmds[..|cmds| - 1];
    if i < |before| {
      assert OneTexture(before, h);
      ClearsCount(before, i, h);
    }
  }

  /** Without a clear or a create, the size and colour of the summary stay. */
  lemma {:induction false} QuietTail(cmds: seq<Command>, n: nat)
    requires 0 < n <= |cmds|
    requires forall i :: n <= i < |cmds| ==> cmds[i].op != CLEAR_RTV && cmds[i].op != CREATE_TEXTURE_2D
    ensures var a, b := VkRun(cmds[..n]), VkRun(cmds);
      a.width == b.width && a.height == b.height && a.clear == b.clear && a.haveClear == b.haveClear
  {
    if n == |cmds| {
      assert cmds[..n] == cmds;
    } else {
      var before := cmds[..|cmds| - 1];
      QuietTail(before, n);
      assert before[..n] == cmds[..n];
    }
  }

  /** The interpreter of a batch over one texture shows what the Vulkan renderer draws of any summary exactly when
      the batch presents, something was cleared by then, and the texture as last presented has the size and, in its
      own format, the colour of the drawing. */
  lemma ShowsIff(gpu: Gpu, textures: map<Word32, Texture>, cmds: seq<Command>, h: Word32, v: Summary)
    requires OneTexture(cmds, h) && Able(gpu, cmds[0])
    ensures var s, n := D3dRun(gpu, Canvas(textures, None, None), cmds), UpToPresent(cmds);
      var format, at := Word(cmds[0].args, 8), VkRun(cmds[..n]);
      && s.error == None
      && (s.picture == Some(VkPicture(gpu, v)) <==>
          && n > 0 && at.haveClear && at.width == v.width && at.height == v.height
          && gpu.quantise(format, at.clear) == gpu.quantise(R8G8B8A8_UNORM, v.clear))
  {
    InterpreterIsSummary(gpu, Canvas(textures, None, None), cmds, h);
  }

  /** The two renderers show the same picture of a batch over one texture exactly when it presents, something was
      cleared by then, and the presented colour in the texture's format is the last colour cleared in Vulkan's. */
  lemma RenderersAgreeIff(gpu: Gpu, textures: map<Word32, Texture>, cmds: seq<Command>, h: Word32)
    requires OneTexture(cmds, h) && Able(gpu, cmds[0])
    ensures var s, n, v := D3dRun(gpu, Canvas(textures, None, None), cmds), UpToPresent(cmds), VkRun(cmds);
      && s.error == None
      && (s.picture == Some(VkPicture(gpu, v)) <==>
          && n > 0 && VkRun(cmds[..n]).haveClear
          && gpu.quantise(Word(cmds[0].args, 8), VkRun(cmds[..n]).clear) == gpu.quantise(R8G8B8A8_UNORM, v.clear))
  {
    var n, v := UpToPresent(cmds), VkRun(cmds);
    ShowsIff(gpu, textures, cmds, h, v);
    if n > 0 {
      assert OneTexture(cmds[..n], h);
      InterpreterIsSummary(gpu, Canvas(textures, None, None), cmds, h);
      InterpreterIsSummary(gpu, Canvas(textures, None, None), cmds[..n], h);
    }
  }

  /** Where the last clear is presented, only the format can part the renderers, and the one both name cannot. */
  lemma RenderersAgree(gpu: Gpu, textures: map<Word32, Texture>, cmds: seq<Command>, h: Word32)
    requires OneTexture(cmds, h) && Able(gpu, cmds[0]) && PresentsLastClear(cmds)
    ensures var s, v, format := D3dRun(gpu, Canvas(textures, None, None), cmds), VkRun(cmds), Word(cmds[0].args, 8);
      && (s.picture == Some(VkPicture(gpu, v)) <==>
          gpu.quantise(format, v.clear) == gpu.quantise(R8G8B8A8_UNORM, v.clear))
      && (format == R8G8B8A8_UNORM ==> s.picture == Some(VkPicture(gpu, v)))
  {
    RenderersAgreeIff(gpu, textures, cmds, h);
    var n := UpToPresent(cmds);
    QuietTail(cmds, n);
    var i :| 0 <= i < n && cmds[i].op == CLEAR_RTV;
    ClearsCount(cmds, i, h);
  }

  /** A clear after the last PRESENT: the interpreter still shows the colour presented, the Vulkan renderer the colour
      cleared last, and they agree exactly when the two are drawn alike. */
  lemma ClearAfterPresent(gpu: Gpu, textures: map<Word32, Texture>, cmds: seq<Command>, h: Word32, x: seq<Byte>)
    requires OneTexture(cmds, h) && Able(gpu, cmds[0]) && PresentsLastClear(cmds) && |x| == 16
    ensures var more := cmds + [Command(CLEAR_RTV, h, x)];
      var s := D3dRun(gpu, Canvas(textures, None, None), more);
      && OneTexture(more, h) && s.error == None
      && (s.picture == Some(VkPicture(gpu, VkRun(more))) <==>
          gpu.quantise(Word(cmds[0].args, 8), VkRun(cmds).clear) == gpu.quantise(R8G8B8A8_UNORM, x))
  {
    var c := Command(CLEAR_RTV, h, x);
    var more, n := cmds + [c], UpToPresent(cmds);
    assert more[..|cmds|] == cmds && more[|cmds|] == c;
    assert forall i :: 1 <= i < |cmds| ==> more[i] == cmds[i];
    assert x[..16] == x && more[..n] == cmds[..n];
    RenderersAgreeIff(gpu, textures, more, h);
    QuietTail(cmds, n);
    var i :| 0 <= i < n && cmds[i].op == CLEAR_RTV;
    ClearsCount(cmds, i, h);
  }

  const B8G8R8A8_UNORM: Word32 := 87

  /** The little-endian float 1. */
  const ONE: seq<Byte> := [0, 0, 128, 63]

  function Channel(x: seq<Byte>): Byte {
    if x == ONE then 255 else 0
  }

  /** A device that does every call and knows the two byte orders, of colours of full and empty channels. */
  const EITHER_ORDER: Gpu := Gpu((w, h, f) => true, t => true, t => true, (format: Word32, x: seq<Byte>) =>
    if |x| != 16 then []
    else
      var r, g, b, a := Channel(x[..4]), Channel(x[4..8]), Channel(x[8..12]), Channel(x[12..]);
      if format == B8G8R8A8_UNORM then [b, g, r, a] else [r, g, b, a])

  /** Opaque red. */
  const RED: seq<Byte> := [0, 0, 128, 63, 0, 0, 0, 0, 0, 0, 0, 0, 0, 0, 128, 63]

  /** A texture created, cleared to red and presented. */
  function RedFrame(h: Word32, format: Word32): seq<Command> {
    [Command(CREATE_TEXTURE_2D, h, CreateArgs(64, 64, format)), Command(CLEAR_RTV, h, RED), Command(PRESENT, h, Le4(0))]
  }

  lemma RedFrameRuns(h: Word32, format: Word32)
    ensures var cmds := RedFrame(h, format);
      && |cmds| == 3 && |cmds[0].args| == 12 && Word(cmds[0].args, 8) == format
      && OneTexture(cmds, h) && UpToPresent(cmds) == 3 && PresentsLastClear(cmds)
      && VkRun(cmds) == Summary(64, 64, RED, true, true)
  {
    var cmds := RedFrame(h, format);
    var args := cmds[0].args;
    Le4RoundTrip(64);
    Le4RoundTrip(format);
    assert args[0..4] == Le4(64) && args[4..8] == Le4(64) && args[8..12] == Le4(format);
    hide FromLe4, Le4;
    assert cmds[..2] == [cmds[0], cmds[1]] && cmds[..2][..1] == [cmds[0]] && [cmds[0]][..0] == [];
    assert VkRun([cmds[0]]) == START.(width := 64, height := 64);
    assert RED[..16] == RED;
    assert VkRun(cmds[..2]) == Summary(64, 64, RED, true, false);
    assert cmds[1].op == CLEAR_RTV;
  }

  /** The same on the wire, byte by byte: a frame header and three records. */
  lemma RedFrameBytes()
    ensures Frame(COMMAND_BATCH, Batch(RedFrame(1, R8G8B8A8_UNORM)), 0, 0) ==
      [0x55, 0x50, 0x47, 0x52, 1, 0, 6, 0, 0, 0, 0, 0, 0, 0, 0, 0, 68, 0, 0, 0] +
      (([101, 0, 0, 0, 1, 0, 0, 0, 12, 0, 0, 0] + [64, 0, 0, 0, 64, 0, 0, 0, 28, 0, 0, 0]) +
       ([142, 0, 0, 0, 1, 0, 0, 0, 16, 0, 0, 0] + RED) +
       [180, 0, 0, 0, 1, 0, 0, 0, 4, 0, 0, 0, 0, 0, 0, 0])
  {
    hide Le4, Frame, Batch, Record;
    CreateBytes();
    ClearBytes();
    PresentBytes();
    var cmds := RedFrame(1, R8G8B8A8_UNORM);
    BatchOfThree(cmds[0], cmds[1], cmds[2]);
    FrameOf68(Record(cmds[0]) + Record(cmds[1]) + Record(cmds[2]));
  }

  lemma CreateBytes()
    ensures Record(RedFrame(1, R8G8B8A8_UNORM)[0]) ==
            [101, 0, 0, 0, 1, 0, 0, 0, 12, 0, 0, 0] + [64, 0, 0, 0, 64, 0, 0, 0, 28, 0, 0, 0]
  {
    assert Le4(101) == [101, 0, 0, 0] && Le4(1) == [1, 0, 0, 0] && Le4(12) == [12, 0, 0, 0];
    assert CreateArgs(64, 64, 28) == [64, 0, 0, 0, 64, 0, 0, 0, 28, 0, 0, 0] by {
      assert Le4(64) == [64, 0, 0, 0] && Le4(28) == [28, 0, 0, 0];
      hide Le4;
    }
    hide Le4, CreateArgs;
  }

  lemma ClearBytes()
    ensures Record(RedFrame(1, R8G8B8A8_UNORM)[1]) ==
            [142, 0, 0, 0, 1, 0, 0, 0, 16, 0, 0, 0] + RED
  {
    assert Le4(142) == [142, 0, 0, 0] && Le4(1) == [1, 0, 0, 0] && Le4(16) == [16, 0, 0, 0];
    hide Le4;
    assert |RED| == 16 && RedFrame(1, R8G8B8A8_UNORM)[1].args == RED;
  }

  lemma PresentBytes()
    ensures Record(RedFrame(1, R8G8B8A8_UNORM)[2]) == [180, 0, 0, 0, 1, 0, 0, 0, 4, 0, 0, 0, 0, 0, 0, 0]
  {
    assert Le4(180) == [180, 0, 0, 0] && Le4(1) == [1, 0, 0, 0] && Le4(4) == [4, 0, 0, 0] && Le4(0) == [0, 0, 0, 0];
    hide Le4;
  }

  lemma BatchOfThree(a: Command, b: Command, c: Command)
    ensures Batch([a, b, c]) == Record(a) + Record(b) + Record(c)
  {
    hide Record;
    BatchAppend([], a);
    BatchAppend([a], b);
    BatchAppend([a, b], c);
    assert [] + [a] == [a] && [a] + [b] == [a, b] && [a, b] + [c] == [a, b, c];
    assert Batch([]) == [];
  }

  lemma FrameOf68(payload: seq<Byte>)
    requires |payload| == 68
    ensures Frame(COMMAND_BATCH, payload, 0, 0) ==
            [0x55, 0x50, 0x47, 0x52, 1, 0, 6, 0, 0, 0, 0, 0, 0, 0, 0, 0, 68, 0, 0, 0] + payload
  {
  }

  /** In another byte order, the first byte of the red texture is blue, and of the drawing red. */
  lemma ByteOrderParts(h: Word32)
    ensures var cmds := RedFrame(h, B8G8R8A8_UNORM);
      && OneTexture(cmds, h) && Able(EITHER_ORDER, cmds[0]) && PresentsLastClear(cmds)
      && D3dRun(EITHER_ORDER, Canvas(map[], None, None), cmds).picture == Some(Picture(64, 64, Some([0, 0, 255, 255])))
      && VkPicture(EITHER_ORDER, VkRun(cmds)) == Picture(64, 64, Some([255, 0, 0, 255]))
  {
    var cmds := RedFrame(h, B8G8R8A8_UNORM);
    hide RedFrame, VkRun, D3dRun, Word, OneTexture, PresentsLastClear, UpToPresent;
    RedFrameRuns(h, B8G8R8A8_UNORM);
    assert cmds[..3] == cmds;
    assert RED[..4] == ONE && RED[12..] == ONE && RED[4..8] == RED[8..12] == [0, 0, 0, 0];
    assert EITHER_ORDER.quantise(B8G8R8A8_UNORM, RED) == [0, 0, 255, 255];
    InterpreterIsSummary(EITHER_ORDER, Canvas(map[], None, None), cmds, h);
  }

  // ----- from frame to picture -----

  /** What both take from a frame of the right magic and type: D3D11 as many bytes as the header says, Vulkan what is
      there. Where the two are the same, so are the commands, up to a record that wraps. */
  lemma WholeFrame(gpu: Gpu, textures: map<Word32, Texture>, frame: seq<Byte>)
    requires FRAME_HEADER <= |frame| && FromLe4(frame[0..4]) == MAGIC && FromLe2(frame[6..8]) == COMMAND_BATCH
    requires FromLe4(frame[16..20]) == |frame| - FRAME_HEADER
    ensures var cmds := Commands(frame, FRAME_HEADER);
      var d, s := D3dFrame(gpu, textures, frame), D3dRun(gpu, Canvas(textures, None, None), cmds);
      && VkFrame(frame) == Some(VkRun(cmds)) && d.textures == s.textures && d.picture == s.picture
      && d.error == if s.error.Some? || NoWrap(frame[FRAME_HEADER..], 0) then s.error else Some(ReadsBack)
  {
    hide FromLe4, FromLe2, D3dRun, CCommands, Commands, CStop, VkRun, NoWrap;
    var p := frame[FRAME_HEADER..];
    WholeStream(p, 0);
    CommandsShift(frame, FRAME_HEADER, p, 0);
  }

  lemma {:induction false} CommandsShift(p: seq<Byte>, off: nat, q: seq<Byte>, pos: nat)
    requires off <= |p| && q == p[off..]
    ensures Commands(p, off + pos) == Commands(q, pos)
    decreases |q| - pos
  {
    hide CommandOf, VkNext, Commands;
    RecordShift(p, off, q, pos);
    Unroll(p, off + pos);
    Unroll(q, pos);
    if VkNext(q, pos).Some? {
      CommandsShift(p, off, q, VkNext(q, pos).value.1);
    }
  }

  lemma Unroll(p: seq<Byte>, pos: nat)
    ensures match VkNext(p, pos)
      case None => Commands(p, pos) == []
      case Some((rec, next)) => Commands(p, pos) == [CommandOf(p, rec)] + Commands(p, next)
  {
    hide CommandOf, VkNext;
  }

  lemma RecordShift(p: seq<Byte>, off: nat, q: seq<Byte>, pos: nat)
    requires off <= |p| && q == p[off..]
    ensures match VkNext(q, pos)
      case None => VkNext(p, off + pos) == None
      case Some((rec, next)) =>
        var there := rec.(at := off + rec.at);
        VkNext(p, off + pos) == Some((there, off + next)) && CommandOf(p, there) == CommandOf(q, rec)
  {
    var at := off + pos;
    if at + HEADER <= |p| {
      assert p[at..at + 4] == q[pos..pos + 4] && p[at + 4..at + 8] == q[pos + 4..pos + 8];
      assert p[at + 8..at + 12] == q[pos + 8..pos + 12];
      var rec := RecAt(q, pos);
      assert RecAt(p, at) == rec.(at := off + rec.at);
      hide RecAt;
      if pos + HEADER + rec.argLen <= |q| {
        assert p[at + HEADER..at + HEADER + rec.argLen] == q[pos + HEADER..pos + HEADER + rec.argLen];
      }
    }
  }

  /** A frame of commands: a whole header that gives a payload length, and some bytes behind it. */
  predicate Carries(frame: seq<Byte>, session: Word32, sequence: Word32, length: Word32, tail: seq<Byte>) {
    frame == FrameHeader(COMMAND_BATCH, session, sequence, length) + tail
  }

  lemma FrameTaken(gpu: Gpu, textures: map<Word32, Texture>, frame: seq<Byte>, session: Word32, sequence: Word32,
                   length: Word32, tail: seq<Byte>)
    requires Carries(frame, session, sequence, length, tail)
    ensures |frame| == FRAME_HEADER + |tail| && frame[FRAME_HEADER..] == tail
    ensures D3dFrame(gpu, textures, frame) == D3dPayload(gpu, Canvas(textures, None, None), tail, length, 0)
    ensures VkFrame(frame) == Some(VkRun(Commands(frame, FRAME_HEADER)))
  {
    hide Carries, FromLe4, FromLe2, D3dPayload, VkRun, Commands;
    CarriedFields(frame, session, sequence, length, tail);
  }

  lemma CarriedFields(frame: seq<Byte>, session: Word32, sequence: Word32, length: Word32, tail: seq<Byte>)
    requires Carries(frame, session, sequence, length, tail)
    ensures |frame| == FRAME_HEADER + |tail| && frame[FRAME_HEADER..] == tail
    ensures FromLe4(frame[0..4]) == MAGIC && FromLe2(frame[6..8]) == COMMAND_BATCH && FromLe4(frame[16..20]) == length
  {
    hide FromLe4, FromLe2, FrameHeader;
    HeaderFields(COMMAND_BATCH, session, sequence, length, tail);
  }

  lemma ExtendedCarries(payload: seq<Byte>, session: Word32, sequence: Word32, extra: seq<Byte>)
    requires |payload| < W32
    ensures Carries(Frame(COMMAND_BATCH, payload, session, sequence) + extra, session, sequence, |payload|,
                    payload + extra)
  {
    hide FrameHeader;
  }

  lemma CutCarries(payload: seq<Byte>, session: Word32, sequence: Word32, k: nat)
    requires k <= |payload| < W32
    ensures FRAME_HEADER + k <= |Frame(COMMAND_BATCH, payload, session, sequence)|
    ensures Carries(Frame(COMMAND_BATCH, payload, session, sequence)[..FRAME_HEADER + k], session, sequence, |payload|,
                    payload[..k])
  {
    hide FrameHeader;
  }

  /** A written batch in its frame, with more bytes behind it. The D3D11 renderer draws the batch; the Vulkan renderer
      draws the batch and whatever the bytes behind read as. */
  lemma ExtendedFrame(gpu: Gpu, textures: map<Word32, Texture>, cmds: seq<Command>, session: Word32, sequence: Word32,
                      extra: seq<Byte>)
    requires Sendable(cmds) && FRAME_HEADER + |Batch(cmds)| < W32
    ensures var frame := Frame(COMMAND_BATCH, Batch(cmds), session, sequence) + extra;
      && D3dFrame(gpu, textures, frame) == D3dRun(gpu, Canvas(textures, None, None), cmds)
      && VkFrame(frame) == Some(VkRun(cmds + Commands(frame, FRAME_HEADER + |Batch(cmds)|)))
  {
    hide Frame, Carries, D3dFrame, D3dPayload, VkFrame, VkRun, D3dRun, Commands, Batch;
    var tail := Batch(cmds) + extra;
    var frame := Frame(COMMAND_BATCH, Batch(cmds), session, sequence) + extra;
    ExtendedCarries(Batch(cmds), session, sequence, extra);
    FrameTaken(gpu, textures, frame, session, sequence, |Batch(cmds)|, tail);
    PayloadExtended(gpu, Canvas(textures, None, None), cmds, extra, frame, tail);
  }

  lemma PayloadExtended(gpu: Gpu, s: Canvas, cmds: seq<Command>, extra: seq<Byte>, frame: seq<Byte>, tail: seq<Byte>)
    requires Sendable(cmds) && FRAME_HEADER + |Batch(cmds)| < W32 && s.error == None
    requires FRAME_HEADER <= |frame| && frame[FRAME_HEADER..] == tail && tail == Batch(cmds) + extra
    ensures D3dPayload(gpu, s, tail, |Batch(cmds)|, 0) == D3dRun(gpu, s, cmds)
    ensures FRAME_HEADER + |Batch(cmds)| <= |frame|
    ensures Commands(frame, FRAME_HEADER) == cmds + Commands(frame, FRAME_HEADER + |Batch(cmds)|)
  {
    hide D3dRun, CCommands, CStop, Commands, Batch;
    assert tail[0..] == tail;
    ExtendedReads(tail, 0, cmds, extra);
    ExtendedReads(frame, FRAME_HEADER, cmds, extra);
  }

  lemma NothingLeft(p: seq<Byte>)
    ensures Commands(p, |p|) == []
  {
  }

  /** From the front end to the screen: the pictures of a written and framed batch over one texture are the same
      exactly when it presents, something was cleared by then, and the presented colour in the texture's format is
      the last colour cleared in Vulkan's. */
  lemma FramedBatchShowsAlikeIff(gpu: Gpu, textures: map<Word32, Texture>, cmds: seq<Command>, h: Word32,
                                 session: Word32, sequence: Word32)
    requires OneTexture(cmds, h) && Able(gpu, cmds[0])
    requires Sendable(cmds) && FRAME_HEADER + |Batch(cmds)| < W32
    ensures var frame := Frame(COMMAND_BATCH, Batch(cmds), session, sequence);
      var d, v, n := D3dFrame(gpu, textures, frame), VkFrame(frame), UpToPresent(cmds);
      && d.error == None && v.Some?
      && (d.picture == Some(VkPicture(gpu, v.value)) <==>
          && n > 0 && VkRun(cmds[..n]).haveClear
          && gpu.quantise(Word(cmds[0].args, 8), VkRun(cmds[..n]).clear) == gpu.quantise(R8G8B8A8_UNORM, v.value.clear))
  {
    hide D3dRun, VkRun, D3dFrame, VkFrame, VkPicture, Word, OneTexture, Frame, Batch;
    WholeTaken(gpu, textures, cmds, session, sequence);
    RenderersAgreeIff(gpu, textures, cmds, h);
  }

  lemma WholeTaken(gpu: Gpu, textures: map<Word32, Texture>, cmds: seq<Command>, session: Word32, sequence: Word32)
    requires Sendable(cmds) && FRAME_HEADER + |Batch(cmds)| < W32
    ensures var frame := Frame(COMMAND_BATCH, Batch(cmds), session, sequence);
      && D3dFrame(gpu, textures, frame) == D3dRun(gpu, Canvas(textures, None, None), cmds)
      && VkFrame(frame) == Some(VkRun(cmds))
  {
    var payload := Batch(cmds);
    var frame := Frame(COMMAND_BATCH, payload, session, sequence);
    assert |frame| == FRAME_HEADER + |payload|;
    hide D3dRun, VkRun, D3dFrame, VkFrame, Commands, Frame, Batch;
    ExtendedFrame(gpu, textures, cmds, session, sequence, []);
    assert frame + [] == frame;
    NothingLeft(frame);
    assert cmds + [] == cmds;
  }

  /** With more bytes behind the batch, the drawing is of the batch and of what those bytes read as. */
  lemma ExtendedFrameShowsAlikeIff(gpu: Gpu, textures: map<Word32, Texture>, cmds: seq<Command>, h: Word32,
                                   session: Word32, sequence: Word32, extra: seq<Byte>)
    requires OneTexture(cmds, h) && Able(gpu, cmds[0])
    requires Sendable(cmds) && FRAME_HEADER + |Batch(cmds)| < W32
    ensures var frame := Frame(COMMAND_BATCH, Batch(cmds), session, sequence) + extra;
      var d, n, at := D3dFrame(gpu, textures, frame), UpToPresent(cmds), VkRun(cmds[..UpToPresent(cmds)]);
      var v := VkRun(cmds + Commands(frame, FRAME_HEADER + |Batch(cmds)|));
      && d.error == None && VkFrame(frame) == Some(v)
      && (d.picture == Some(VkPicture(gpu, v)) <==>
          && n > 0 && at.haveClear && at.width == v.width && at.height == v.height
          && gpu.quantise(Word(cmds[0].args, 8), at.clear) == gpu.quantise(R8G8B8A8_UNORM, v.clear))
  {
    hide D3dRun, VkRun, D3dFrame, VkFrame, VkPicture, Word, OneTexture, Commands, Frame, Batch;
    ExtendedFrame(gpu, textures, cmds, session, sequence, extra);
    var frame := Frame(COMMAND_BATCH, Batch(cmds), session, sequence) + extra;
    ShowsIff(gpu, textures, cmds, h, VkRun(cmds + Commands(frame, FRAME_HEADER + |Batch(cmds)|)));
  }

  /** The bytes of its arguments that the interpreter reads of a command. */
  function Needed(op: Word32): nat {
    if op == CREATE_TEXTURE_2D then 12 else if op == CLEAR_RTV then 16 else 0
  }

  /** A frame cut short, of a batch over one texture. The Vulkan renderer draws the commands whole before the cut.
      The D3D11 renderer reads past the end of the frame, unless all that is missing is bytes of the last command's
      arguments that nothing reads; then it draws the whole batch. */
  lemma TruncatedFrame(gpu: Gpu, textures: map<Word32, Texture>, cmds: seq<Command>, h: Word32,
                       session: Word32, sequence: Word32, k: nat)
    requires OneTexture(cmds, h) && Able(gpu, cmds[0])
    requires Sendable(cmds) && FRAME_HEADER + |Batch(cmds)| < W32 && k < |Batch(cmds)|
    ensures var frame := Frame(COMMAND_BATCH, Batch(cmds), session, sequence)[..FRAME_HEADER + k];
      var d, m := D3dFrame(gpu, textures, frame), WholeIn(cmds, k);
      && VkFrame(frame) == Some(VkRun(cmds[..m])) && m < |cmds|
      && (d.error == None <==>
          m == |cmds| - 1 && |Batch(cmds[..m])| + HEADER + Needed(cmds[m].op) <= k)
      && (d.error == None ==> d == D3dRun(gpu, Canvas(textures, None, None), cmds))
      && (d.error != None ==> d.error == Some(ReadsPastBuffer) || d.error == Some(ReadsPastRecord))
  {
    hide Frame, D3dFrame, VkFrame, VkRun, D3dRun, D3dPayload, OneTexture, WholeIn, Needed, Batch;
    TruncatedTaken(gpu, textures, cmds, session, sequence, k);
    PayloadCut(gpu, Canvas(textures, None, None), cmds, h, k, Batch(cmds)[..k]);
  }

  lemma TruncatedTaken(gpu: Gpu, textures: map<Word32, Texture>, cmds: seq<Command>, session: Word32, sequence: Word32,
                       k: nat)
    requires Sendable(cmds) && FRAME_HEADER + |Batch(cmds)| < W32 && k < |Batch(cmds)|
    ensures FRAME_HEADER + k <= |Frame(COMMAND_BATCH, Batch(cmds), session, sequence)|
    ensures var frame := Frame(COMMAND_BATCH, Batch(cmds), session, sequence)[..FRAME_HEADER + k];
      && D3dFrame(gpu, textures, frame) ==
         D3dPayload(gpu, Canvas(textures, None, None), Batch(cmds)[..k], |Batch(cmds)|, 0)
      && VkFrame(frame) == Some(VkRun(cmds[..WholeIn(cmds, k)]))
  {
    var len, tail := |Batch(cmds)|, Batch(cmds)[..k];
    hide Frame, Carries, D3dFrame, VkFrame, VkRun, Commands, D3dPayload, WholeIn, Batch;
    CutCarries(Batch(cmds), session, sequence, k);
    var frame := Frame(COMMAND_BATCH, Batch(cmds), session, sequence)[..FRAME_HEADER + k];
    FrameTaken(gpu, textures, frame, session, sequence, len, tail);
    CutBatchReads(frame, FRAME_HEADER, cmds, k);
  }

  lemma PayloadCut(gpu: Gpu, s0: Canvas, cmds: seq<Command>, h: Word32, k: nat, tail: seq<Byte>)
    requires OneTexture(cmds, h) && Able(gpu, cmds[0]) && s0.error == None
    requires Sendable(cmds) && |Batch(cmds)| < W32 && k < |Batch(cmds)| && tail == Batch(cmds)[..k]
    ensures var d, m := D3dPayload(gpu, s0, tail, |Batch(cmds)|, 0), WholeIn(cmds, k);
      && m < |cmds|
      && (d.error == None <==> m == |cmds| - 1 && |Batch(cmds[..m])| + HEADER + Needed(cmds[m].op) <= k)
      && (d.error == None ==> d == D3dRun(gpu, s0, cmds))
      && (d.error != None ==> d.error == Some(ReadsPastBuffer) || d.error == Some(ReadsPastRecord))
  {
    hide D3dRun, CCommands, CStop, Batch, OneTexture, WholeIn, CutCommand, Needed;
    assert tail[0..] == tail;
    TruncatedReads(tail, |Batch(cmds)|, 0, cmds, k);
    WhereCut(cmds, k);
    CutRun(gpu, s0, cmds, h, k);
  }

  /** The first command cut is the one behind the whole ones, and what is there of it begins at its place. */
  lemma {:induction false} WhereCut(cmds: seq<Command>, k: nat)
    requires k < |Batch(cmds)|
    ensures var m, cut := WholeIn(cmds, k), CutCommand(cmds, k);
      && m < |cmds| && |Batch(cmds[..m])| <= k < |Batch(cmds[..m])| + |Record(cmds[m])|
      && cut == if k < |Batch(cmds[..m])| + HEADER then []
                else [cmds[m].(args := cmds[m].args[..k - |Batch(cmds[..m])| - HEADER])]
  {
    hide Record;
    var n := |Record(cmds[0])|;
    if n <= k {
      var rest := cmds[1..];
      WhereCut(rest, k - n);
      var m := WholeIn(cmds, k);
      assert cmds[..m][1..] == rest[..m - 1];
      assert |Batch(cmds[..m])| == n + |Batch(rest[..m - 1])|;
    }
  }

  /** The interpreter over the whole commands and what is left of the next. */
  lemma CutRun(gpu: Gpu, s0: Canvas, cmds: seq<Command>, h: Word32, k: nat)
    requires OneTexture(cmds, h) && Able(gpu, cmds[0]) && s0.error == None && k < |Batch(cmds)|
    ensures var m, cut := WholeIn(cmds, k), CutCommand(cmds, k);
      m < |cmds| &&
      var s := D3dRun(gpu, s0, cmds[..m] + cut);
      && (s.error == None <==> cut == [] || |Batch(cmds[..m])| + HEADER + Needed(cmds[m].op) <= k)
      && (s.error != None ==> s.error == Some(ReadsPastRecord))
      && (s.error == None && cut != [] && m == |cmds| - 1 ==> s == D3dRun(gpu, s0, cmds))
  {
    WhereCut(cmds, k);
    var m, cut := WholeIn(cmds, k), CutCommand(cmds, k);
    hide WholeIn, CutCommand, Batch, D3dRun, D3dStep, OneTexture;
    PrefixRuns(gpu, s0, cmds, h, m);
    if cut == [] {
      assert cmds[..m] + cut == cmds[..m];
    } else {
      RunStep(gpu, s0, cmds[..m], cut[0]);
      StepCut(gpu, D3dRun(gpu, s0, cmds[..m]), cmds[m], cut[0]);
      assert cut == [cut[0]];
      if m == |cmds| - 1 {
        assert cmds[..m + 1] == cmds;
      }
    }
  }

  /** No prefix of a batch over one texture fails on a device that does its part. */
  lemma PrefixRuns(gpu: Gpu, s0: Canvas, cmds: seq<Command>, h: Word32, m: nat)
    requires OneTexture(cmds, h) && Able(gpu, cmds[0]) && s0.error == None && m < |cmds|
    ensures var before, after := D3dRun(gpu, s0, cmds[..m]), D3dRun(gpu, s0, cmds[..m + 1]);
      before.error == None && after.error == None && after == D3dStep(gpu, before, cmds[m])
  {
    assert cmds[..m + 1] == cmds[..m] + [cmds[m]];
    RunStep(gpu, s0, cmds[..m], cmds[m]);
    assert OneTexture(cmds[..m + 1], h);
    hide D3dStep;
    InterpreterIsSummary(gpu, s0, cmds[..m + 1], h);
    if m > 0 {
      assert OneTexture(cmds[..m], h);
      InterpreterIsSummary(gpu, s0, cmds[..m], h);
    } else {
      StartRuns(gpu, s0);
      assert cmds[..m] == [];
    }
  }

  /** Arguments beyond the bytes it reads make no difference to the interpreter, and without those it fails. */
  lemma StepCut(gpu: Gpu, s: Canvas, c: Command, cut: Command)
    requires |cut.args| <= |c.args| && cut == c.(args := c.args[..|cut.args|])
    requires s.error == None && D3dStep(gpu, s, c).error == None
    ensures D3dStep(gpu, s, cut) ==
      if |cut.args| >= Needed(c.op) then D3dStep(gpu, s, c) else s.(error := Some(ReadsPastRecord))
  {
    if c.op == CREATE_TEXTURE_2D && |cut.args| >= 12 {
      assert cut.args[0..4] == c.args[0..4] && cut.args[4..8] == c.args[4..8] && cut.args[8..12] == c.args[8..12];
      hide FromLe4;
    } else if c.op == CLEAR_RTV && |cut.args| >= 16 {
      assert cut.args[..16] == c.args[..16];
    }
  }
}
