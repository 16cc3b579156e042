/**
 Counting a GIF's frames by walking its blocks (internal/fileview/image.go),
 against the blocks sections 15, 18, 20 and 22 of the GIF89a specification
 have a file made of.
 */
module Gif {
  import opened Bytes

  const HEADER := 13
  const EXTENSION: byte := 0x21
  const IMAGE: byte := 0x2C
  const TRAILER: byte := 0x3B

  // ----- What a file is made of

  /** A block, its data in sub-blocks. An image has its own color table when its flags say so. */
  datatype Block =
    | Extension(kind: byte, data: seq<Text>)
    | Image(place: Text, flags: byte, table: Text, codeSize: byte, data: seq<Text>)

  predicate SubBlock(data: Text) { 1 <= |data| <= 255 }

  predicate WellFormed(block: Block) {
    && (forall i :: 0 <= i < |block.data| ==> SubBlock(block.data[i]))
    && (block.Image? ==> |block.place| == 8 && |block.table| == ColorTableSize(block.flags))
  }

  predicate AllWellFormed(blocks: seq<Block>) {
    forall i :: 0 <= i < |blocks| ==> WellFormed(blocks[i])
  }

  /** Data sub-blocks, each after its length, and a zero length. */
  function SubBlocks(data: seq<Text>): Text
    requires forall i :: 0 <= i < |data| ==> SubBlock(data[i])
  {
    if data == [] then [0]
    else
      assert SubBlock(data[0]);
      [|data[0]| as byte] + data[0] + SubBlocks(data[1..])
  }

  function Encoded(block: Block): Text
    requires WellFormed(block)
  {
    match block
    case Extension(kind, data) => [EXTENSION, kind] + SubBlocks(data)
    case Image(place, flags, table, codeSize, data) => [IMAGE] + place + [flags] + table + [codeSize] + SubBlocks(data)
  }

  function EncodedAll(blocks: seq<Block>): Text
    requires AllWellFormed(blocks)
  {
    if blocks == [] then [] else Encoded(blocks[0]) + EncodedAll(blocks[1..])
  }

  /**
   A file: a header whose flags give the size of the color table after it,
   blocks, a trailer, and whatever follows.
   */
  function File(header: Text, table: Text, blocks: seq<Block>, after: Text): Text
    requires |header| == HEADER && |table| == ColorTableSize(header[10]) && AllWellFormed(blocks)
  {
    header + table + EncodedAll(blocks) + [TRAILER] + after
  }

  function Images(blocks: seq<Block>): nat {
    if blocks == [] then 0 else (if blocks[0].Image? then 1 else 0) + Images(blocks[1..])
  }

  // ----- The walk

  function DoubledTimes(n: nat, times: nat): nat {
    if times == 0 then n else 2 * DoubledTimes(n, times - 1)
  }

  /** Three bytes a color, for two to the power the low three bits give plus one, when the high bit is set. */
  function ColorTableSize(flags: byte): nat {
    if flags < 0x80 then 0 else DoubledTimes(3, flags as nat % 8 + 1)
  }

  /** Past the sub-blocks that start here. */
  function Skipped(content: Text, offset: nat): (end: nat)
    ensures end >= offset
    decreases |content| - offset
  {
    if offset >= |content| then offset
    else if content[offset] == 0 then offset + 1
    else Skipped(content, offset + 1 + content[offset] as nat)
  }

  /** The frames from a block on. */
  function FramesFrom(content: Text, offset: nat): nat
    decreases |content| - offset
  {
    if offset >= |content| then 0
    else if content[offset] == EXTENSION then FramesFrom(content, Skipped(content, offset + 2))
    else if content[offset] == IMAGE then
      1 + if offset + 10 > |content| then 0
          else FramesFrom(content, Skipped(content, offset + 11 + ColorTableSize(content[offset + 9])))
    else 0
  }

  function Frames(content: Text): nat {
    if |content| < HEADER then 0 else FramesFrom(content, HEADER + ColorTableSize(content[10]))
  }

  /** Steps over sub-blocks, always onwards. */
  method SkipSubBlocks(content: Text, start: nat) returns (offset: nat)
    ensures offset == Skipped(content, start)
  {
    offset := start;
    while offset < |content|
      invariant offset >= start
      invariant Skipped(content, offset) == Skipped(content, start)
      decreases |content| - offset
    {
      var length := content[offset] as nat;
      offset := offset + 1;
      if length == 0 {
        return;
      }
      offset := offset + length;
    }
  }

  /** Counts the frames of any bytes whatever, reading only inside them, at offsets that only grow. */
  method GifFrames(content: Text) returns (frames: nat)
    ensures frames == Frames(content)
  {
    if |content| < HEADER {
      return 0;
    }
    var offset := HEADER + ColorTableSize(content[10]);
    frames := 0;
    while offset < |content|
      invariant frames + FramesFrom(content, offset) == Frames(content)
      decreases |content| - offset
    {
      if content[offset] == EXTENSION {
        offset := SkipSubBlocks(content, offset + 2);
      } else if content[offset] == IMAGE {
        frames := frames + 1;
        if offset + 10 > |content| {
          return;
        }
        offset := offset + 10 + ColorTableSize(content[offset + 9]);
        offset := SkipSubBlocks(content, offset + 1);
      } else {
        return;
      }
    }
  }

  // ----- The count is right

  /** The bytes from a place on are those. */
  predicate Holds(content: Text, at: nat, part: Text)
    decreases |part|
  {
    && at + |part| <= |content|
    && (|part| == 0 || (content[at + |part| - 1] == part[|part| - 1] && Holds(content, at, part[..|part| - 1])))
  }

  lemma {:induction false} HoldsAt(content: Text, at: nat, part: Text, i: nat)
    requires Holds(content, at, part) && i < |part|
    ensures content[at + i] == part[i]
    decreases |part|
  {
    if i < |part| - 1 {
      HoldsAt(content, at, part[..|part| - 1], i);
    }
  }

  lemma {:induction false} HoldsParts(content: Text, at: nat, a: Text, b: Text)
    requires Holds(content, at, a + b)
    ensures Holds(content, at, a) && Holds(content, at + |a|, b)
    decreases |b|
  {
    if |b| == 0 {
      assert a + b == a;
    } else {
      assert (a + b)[..|a + b| - 1] == a + b[..|b| - 1];
      HoldsParts(content, at, a, b[..|b| - 1]);
    }
  }

  lemma {:induction false} HoldsSlice(content: Text, at: nat, part: Text)
    requires at + |part| <= |content| && content[at..at + |part|] == part
    ensures Holds(content, at, part)
    decreases |part|
  {
    if |part| > 0 {
      var init := part[..|part| - 1];
      assert content[at..at + |init|] == content[at..at + |part|][..|init|];
      assert content[at + |init|] == content[at..at + |part|][|init|];
      HoldsSlice(content, at, init);
    }
  }

  lemma {:induction false} SkipsSubBlocks(content: Text, at: nat, data: seq<Text>)
    requires forall i :: 0 <= i < |data| ==> SubBlock(data[i])
    requires Holds(content, at, SubBlocks(data))
    ensures Skipped(content, at) == at + |SubBlocks(data)|
    decreases |data|
  {
    HoldsAt(content, at, SubBlocks(data), 0);
    if data != [] {
      assert SubBlock(data[0]);
      var first := [|data[0]| as byte] + data[0];
      HoldsParts(content, at, first, SubBlocks(data[1..]));
      SkipsSubBlocks(content, at + |first|, data[1..]);
    }
  }

  lemma WalksExtension(content: Text, at: nat, kind: byte, data: seq<Text>)
    requires WellFormed(Extension(kind, data)) && Holds(content, at, Encoded(Extension(kind, data)))
    ensures FramesFrom(content, at) == FramesFrom(content, at + |Encoded(Extension(kind, data))|)
  {
    HoldsAt(content, at, Encoded(Extension(kind, data)), 0);
    HoldsParts(content, at, [EXTENSION, kind], SubBlocks(data));
    SkipsSubBlocks(content, at + 2, data);
  }

  lemma WalksImage(content: Text, at: nat, block: Block)
    requires block.Image? && WellFormed(block) && Holds(content, at, Encoded(block))
    ensures FramesFrom(content, at) == 1 + FramesFrom(content, at + |Encoded(block)|)
  {
    var start := ImageStart(block);
    EncodedImage(block);
    HoldsParts(content, at, start, SubBlocks(block.data));
    ReadsStart(content, at, block);
    SkipsSubBlocks(content, at + |start|, block.data);
    ImageStep(content, at, block.flags, at + |start| + |SubBlocks(block.data)|);
  }

  /** An image block up to its data. */
  function ImageStart(block: Block): Text
    requires block.Image?
  {
    [IMAGE] + block.place + [block.flags] + block.table + [block.codeSize]
  }

  lemma EncodedImage(block: Block)
    requires block.Image? && WellFormed(block)
    ensures Encoded(block) == ImageStart(block) + SubBlocks(block.data)
    ensures |ImageStart(block)| == 11 + ColorTableSize(block.flags)
  {
  }

  lemma ReadsStart(content: Text, at: nat, block: Block)
    requires block.Image? && WellFormed(block) && Holds(content, at, ImageStart(block))
    ensures content[at] == IMAGE && content[at + 9] == block.flags
  {
    HoldsAt(content, at, ImageStart(block), 0);
    HoldsAt(content, at, ImageStart(block), 9);
  }

  lemma ImageStep(content: Text, at: nat, flags: byte, end: nat)
    requires at + 11 + ColorTableSize(flags) <= |content| && content[at] == IMAGE && content[at + 9] == flags
    requires Skipped(content, at + 11 + ColorTableSize(flags)) == end
    ensures FramesFrom(content, at) == 1 + FramesFrom(content, end)
  {
  }

  lemma WalksBlock(content: Text, at: nat, block: Block)
    requires WellFormed(block) && Holds(content, at, Encoded(block))
    ensures FramesFrom(content, at) == Images([block]) + FramesFrom(content, at + |Encoded(block)|)
  {
    match block
    case Extension(kind, data) => WalksExtension(content, at, kind, data);
    case Image(_, _, _, _, _) => WalksImage(content, at, block);
  }

  lemma HoldsFirst(content: Text, at: nat, all: Text, a: Text, b: Text, c: Text)
    requires all == a + b && Holds(content, at, all + c)
    ensures Holds(content, at, a) && Holds(content, at + |a|, b + c)
  {
    assert all + c == a + (b + c);
    HoldsParts(content, at, a, b + c);
  }

  lemma EncodedFirst(blocks: seq<Block>)
    requires AllWellFormed(blocks) && blocks != []
    ensures EncodedAll(blocks) == Encoded(blocks[0]) + EncodedAll(blocks[1..])
  {
  }

  lemma EndsAtTrailer(content: Text, at: nat)
    requires Holds(content, at, EncodedAll([]) + [TRAILER])
    ensures FramesFrom(content, at) == 0
  {
    HoldsAt(content, at, [TRAILER], 0);
  }

  lemma {:induction false} WalksBlocks(content: Text, at: nat, blocks: seq<Block>)
    requires AllWellFormed(blocks) && Holds(content, at, EncodedAll(blocks) + [TRAILER])
    ensures FramesFrom(content, at) == Images(blocks)
    decreases |blocks|
  {
    if blocks == [] {
      EndsAtTrailer(content, at);
    } else {
      EncodedFirst(blocks);
      HoldsFirst(content, at, EncodedAll(blocks), Encoded(blocks[0]), EncodedAll(blocks[1..]), [TRAILER]);
      WalksBlock(content, at, blocks[0]);
      WalksBlocks(content, at + |Encoded(blocks[0])|, blocks[1..]);
    }
  }

  /** Every file made of a header and blocks up to a trailer has as many frames as image blocks. */
  lemma FramesAreImages(header: Text, table: Text, blocks: seq<Block>, after: Text)
    requires |header| == HEADER && |table| == ColorTableSize(header[10]) && AllWellFormed(blocks)
    ensures Frames(File(header, table, blocks, after)) == Images(blocks)
  {
    var content, body := File(header, table, blocks, after), EncodedAll(blocks) + [TRAILER];
    assert content == header + table + body + after;
    HoldsSlice(content, |header + table|, body);
    WalksBlocks(content, |header + table|, blocks);
    assert content[10] == header[10];
  }

  // ----- The bytes

  /** A color table has two to eight times as many colors as its flags' low bits double, three bytes each. */
  lemma ColorTableSizes(flags: byte)
    ensures flags < 0x80 ==> ColorTableSize(flags) == 0
    ensures flags >= 0x80 ==> ColorTableSize(flags) == [6, 12, 24, 48, 96, 192, 384, 768][flags as nat % 8]
  {
    DoublesTo(flags as nat % 8 + 1);
  }

  lemma DoublesTo(times: nat)
    requires 1 <= times <= 8
    ensures DoubledTimes(3, times) == [6, 12, 24, 48, 96, 192, 384, 768][times - 1]
  {
    assert DoubledTimes(3, 1) == 6 && DoubledTimes(3, 2) == 12 && DoubledTimes(3, 3) == 24 && DoubledTimes(3, 4) == 48;
    assert DoubledTimes(3, 5) == 96 && DoubledTimes(3, 6) == 192;
    assert DoubledTimes(3, 7) == 384 && DoubledTimes(3, 8) == 768;
  }

  /** What begins the blocks of a file, and where they begin. */
  lemma BlocksBegin(block: Block)
    requires WellFormed(block)
    ensures HEADER == 13 && TRAILER == 0x3B
    ensures Encoded(block)[0] == if block.Image? then 0x2C else 0x21
  {
  }
}
