/**
 The block storage of an in-memory file (TestFsFile): full 512-byte blocks followed by one shorter last block,
 which is there even when it is empty.
 */
module Blocks {

  newtype byte = x: int | 0 <= x < 256

  const BLOCK_SIZE := 512
  // what a char holds after it was assigned the end-of-file value
  const EOF_BYTE: byte := 255

  type Block = seq<byte>

  /** The next n bytes a stream delivers. */
  function Taken(s: seq<byte>, n: nat): (t: seq<byte>)
    ensures |t| == n
  {
    if n <= |s| then s[..n] else s + seq(n - |s|, i => EOF_BYTE)
  }

  function Dropped(s: seq<byte>, n: nat): seq<byte> {
    if n <= |s| then s[n..] else []
  }

  class InStream {
    var unread: seq<byte>

    constructor (content: seq<byte>)
      ensures unread == content
    {
      unread := content;
    }

    /** std::istream::get, stored in a byte. */
    method Get() returns (b: byte)
      modifies this
      ensures [b] == Taken(old(unread), 1)
      ensures unread == Dropped(old(unread), 1)
      ensures old(unread) == [] ==> b == 255 && unread == []
      ensures old(unread) != [] ==> b == old(unread)[0] && unread == old(unread)[1..]
    {
      if unread == [] {
        b := EOF_BYTE;
      } else {
        b := unread[0];
        unread := unread[1..];
      }
    }
  }

  lemma TakenSplit(s: seq<byte>, m: nat, n: nat)
    ensures Taken(s, m + n) == Taken(s, m) + Taken(Dropped(s, m), n)
    ensures Dropped(s, m + n) == Dropped(Dropped(s, m), n)
  {
    if m + n <= |s| {
      var rest := s[m..];
      assert rest[..n] == s[m..m + n] && rest[n..] == s[m + n..];
      assert s[..m + n] == s[..m] + s[m..m + n];
    } else if m <= |s| {
      assert s == s[..m] + s[m..];
    }
  }

  function Flatten(blocks: seq<Block>): seq<byte> {
    if blocks == [] then [] else Flatten(blocks[..|blocks| - 1]) + blocks[|blocks| - 1]
  }

  lemma FlattenSnoc(blocks: seq<Block>, b: Block)
    ensures Flatten(blocks + [b]) == Flatten(blocks) + b
  {
    assert (blocks + [b])[..|blocks|] == blocks;
  }

  predicate FullBeforeLast(blocks: seq<Block>) {
    forall k :: 0 <= k < |blocks| - 1 ==> |blocks[k]| == 512
  }

  lemma {:induction false} FlattenSize(blocks: seq<Block>)
    requires forall k :: 0 <= k < |blocks| ==> |blocks[k]| == 512
    ensures |Flatten(blocks)| == 512 * |blocks|
  {
    if blocks != [] {
      FlattenSize(blocks[..|blocks| - 1]);
    }
  }

  /** Where byte i of block k comes to stand when the blocks before the last one are full. */
  lemma {:induction false} FlattenAt(blocks: seq<Block>, k: nat, i: nat)
    requires FullBeforeLast(blocks)
    requires k < |blocks| && i < |blocks[k]|
    ensures 512 * k + i < |Flatten(blocks)| && Flatten(blocks)[512 * k + i] == blocks[k][i]
  {
    var n := |blocks| - 1;
    FlattenSize(blocks[..n]);
    if k < n {
      FlattenAt(blocks[..n], k, i);
    }
  }

  /** Byte i of block k is byte 512 * k + i of the stream. */
  predicate StandsInOrder(blocks: seq<Block>, stream: seq<byte>, k: nat, i: nat)
    requires k < |blocks| && i < |blocks[k]|
  {
    512 * k + i < |stream| && stream[512 * k + i] == blocks[k][i]
  }

  ghost predicate InOrder(blocks: seq<Block>, stream: seq<byte>) {
    forall k: nat, i: nat :: k < |blocks| && i < |blocks[k]| ==> StandsInOrder(blocks, stream, k, i)
  }

  lemma FlattenInOrder(blocks: seq<Block>)
    requires FullBeforeLast(blocks)
    ensures InOrder(blocks, Flatten(blocks))
  {
    forall k: nat, i: nat | k < |blocks| && i < |blocks[k]|
      ensures StandsInOrder(blocks, Flatten(blocks), k, i)
    {
      FlattenAt(blocks, k, i);
    }
  }

  /** The inner loops of fillWithData: allocate a block and fill it from the stream. */
  method ReadBlock(stream: InStream, size: nat) returns (data: array<byte>)
    modifies stream
    ensures fresh(data)
    ensures data[..] == Taken(old(stream.unread), size)
    ensures stream.unread == Dropped(old(stream.unread), size)
  {
    data := new byte[size];
    ghost var all := stream.unread;
    for j := 0 to size
      invariant data[..j] == Taken(all, j)
      invariant stream.unread == Dropped(all, j)
    {
      var b := stream.Get();
      data[j] := b;
      TakenSplit(all, j, 1);
      assert data[..j + 1] == data[..j] + [b];
    }
    assert data[..] == data[..size];
  }

  /** TestFsFile::fillWithData on a new file. */
  method FillWithData(stream: InStream, size: nat) returns (blocks: seq<Block>)
    modifies stream
    ensures Flatten(blocks) == Taken(old(stream.unread), size)
    ensures |blocks| == size / 512 + 1
    ensures FullBeforeLast(blocks)
    ensures |blocks[|blocks| - 1]| == size % 512
    ensures InOrder(blocks, Taken(old(stream.unread), size))
    ensures stream.unread == Dropped(old(stream.unread), size)
  {
    blocks := [];
    var fullBlockCnt := size / BLOCK_SIZE;
    var lastBlockSize := size % BLOCK_SIZE;
    ghost var all := stream.unread;
    for i := 0 to fullBlockCnt
      invariant |blocks| == i
      invariant Flatten(blocks) == Taken(all, BLOCK_SIZE * i)
      invariant forall k :: 0 <= k < i ==> |blocks[k]| == BLOCK_SIZE
      invariant stream.unread == Dropped(all, BLOCK_SIZE * i)
    {
      var data := ReadBlock(stream, BLOCK_SIZE);
      TakenSplit(all, BLOCK_SIZE * i, BLOCK_SIZE);
      FlattenSnoc(blocks, data[..]);
      blocks := blocks + [data[..]];
    }
    var data := ReadBlock(stream, lastBlockSize);
    TakenSplit(all, BLOCK_SIZE * fullBlockCnt, lastBlockSize);
    FlattenSnoc(blocks, data[..]);
    blocks := blocks + [data[..]];
    FlattenInOrder(blocks);
  }

  /** TestFsFile::contentToStream. */
  method ContentToStream(blocks: seq<Block>) returns (stream: seq<byte>)
    ensures stream == Flatten(blocks)
    ensures FullBeforeLast(blocks) ==> InOrder(blocks, stream)
  {
    stream := [];
    for k := 0 to |blocks|
      invariant stream == Flatten(blocks[..k])
    {
      var before := stream;
      for i := 0 to |blocks[k]|
        invariant stream == before + blocks[k][..i]
      {
        stream := stream + [blocks[k][i]];
      }
      assert blocks[..k + 1] == blocks[..k] + [blocks[k]];
      FlattenSnoc(blocks[..k], blocks[k]);
    }
    assert blocks[..|blocks|] == blocks;
    if FullBeforeLast(blocks) {
      FlattenInOrder(blocks);
    }
  }
}
