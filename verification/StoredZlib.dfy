/**
 Stored-block zlib writer of tools/generate_fixture_catalog.py, together with an
 independent reader that follows section 2.2 of RFC 1950 (zlib wrapper) and
 section 3.2.4 of RFC 1951 (non-compressed blocks).
 */
module StoredZlib {
  import opened Common

  type Byte = b: int | 0 <= b < 256

  const MAX_BLOCK := 65535
  const ADLER_MODULUS := 65521

  // ---------------------------------------------------------------------
  // Checksum (section 8.2 of RFC 1950)
  // ---------------------------------------------------------------------

  /** The two running sums of Adler-32 after the bytes of `s`. */
  function AdlerSums(s: seq<Byte>): (r: (int, int))
    ensures 0 <= r.0 < ADLER_MODULUS && 0 <= r.1 < ADLER_MODULUS
  {
    if s == [] then (1, 0)
    else
      var (a, b) := AdlerSums(s[..|s| - 1]);
      var a' := (a + s[|s| - 1]) % ADLER_MODULUS;
      (a', (b + a') % ADLER_MODULUS)
  }

  /** Adler-32 in network byte order. */
  function Checksum(s: seq<Byte>): seq<Byte> {
    var (a, b) := AdlerSums(s);
    [b / 256, b % 256, a / 256, a % 256]
  }

  // ---------------------------------------------------------------------
  // Writer
  // ---------------------------------------------------------------------

  function BlockBytes(data: seq<Byte>, final: bool): seq<Byte>
    requires |data| <= MAX_BLOCK
  {
    var len := |data|;
    var nlen := 0xFFFF - len; // len ^ 0xFFFF for a 16-bit len
    [if final then 1 else 0, len % 256, len / 256, nlen % 256, nlen / 256] + data
  }

  /** The blocks the loop of the writer appends for the remaining `content`. */
  function BlocksBytes(content: seq<Byte>): seq<Byte> {
    if content == [] then []
    else if |content| <= MAX_BLOCK then BlockBytes(content, true)
    else BlockBytes(content[..MAX_BLOCK], false) + BlocksBytes(content[MAX_BLOCK..])
  }

  function Stream(content: seq<Byte>): seq<Byte> {
    [0x78, 0x01] + BlocksBytes(content) + Checksum(content)
  }

  method StoredZlibStream(content: seq<Byte>) returns (output: seq<Byte>)
    ensures output == Stream(content)
  {
    output := [0x78, 0x01];
    var offset := 0;
    while offset < |content|
      invariant 0 <= offset <= |content|
      invariant output + BlocksBytes(content[offset..]) == [0x78, 0x01] + BlocksBytes(content)
    {
      var rest := content[offset..];
      var size := if |rest| <= MAX_BLOCK then |rest| else MAX_BLOCK;
      var block := content[offset..offset + size];
      var final := offset + |block| == |content|;
      assert block == rest[..size] && content[offset + size..] == rest[size..];
      output := output + BlockBytes(block, final);
      offset := offset + size;
    }
    assert content[offset..] == [];
    output := output + Checksum(content);
  }

  // ---------------------------------------------------------------------
  // Reader
  // ---------------------------------------------------------------------

  /** Little-endian 16-bit value. */
  function U16(lo: int, hi: int): int {
    lo + 256 * hi
  }

  datatype Block = Block(final: bool, len: nat, nlen: nat, data: seq<Byte>)

  /** The blocks at the front of `bs` up to the first final one, and what follows it. */
  function ReadBlocks(bs: seq<Byte>): (r: Option<(seq<Block>, seq<Byte>)>) {
    if |bs| < 5 || (bs[0] / 2) % 4 != 0 then None // BTYPE 00 only
    else
      var final := bs[0] % 2 == 1;
      var len := U16(bs[1], bs[2]);
      var nlen := U16(bs[3], bs[4]);
      if len + nlen != 0xFFFF || |bs| < 5 + len then None
      else
        var block := Block(final, len, nlen, bs[5..5 + len]);
        var rest := bs[5 + len..];
        if final then Some(([block], rest))
        else
          match ReadBlocks(rest)
          case None => None
          case Some((blocks, tail)) => Some(([block] + blocks, tail))
  }

  function Payload(blocks: seq<Block>): seq<Byte> {
    if blocks == [] then [] else blocks[0].data + Payload(blocks[1..])
  }

  function Decode(z: seq<Byte>): Option<seq<Byte>> {
    if |z| < 2 || z[0] % 16 != 8 || z[0] / 16 > 7    // CM = 8, window at most 32K
       || U16(z[1], z[0]) % 31 != 0                  // FCHECK
       || (z[1] / 32) % 2 != 0                       // FDICT
    then None
    else
      match ReadBlocks(z[2..])
      case None => None
      case Some((blocks, tail)) =>
        var data := Payload(blocks);
        if tail == Checksum(data) then Some(data) else None
  }

  // ---------------------------------------------------------------------
  // Properties
  // ---------------------------------------------------------------------

  /** Shape of a block list: complementary lengths, only the last block final, every
      other block full. */
  ghost predicate WellFormedBlocks(blocks: seq<Block>) {
    && blocks != []
    && (forall i :: 0 <= i < |blocks| ==>
          && |blocks[i].data| == blocks[i].len
          && 0 < blocks[i].len <= MAX_BLOCK
          && blocks[i].nlen == 0xFFFF - blocks[i].len
          && (blocks[i].final <==> i == |blocks| - 1)
          && (i < |blocks| - 1 ==> blocks[i].len == MAX_BLOCK))
  }

  /** The five header bytes and the data of one written block, found again in front of
      any tail. */
  lemma BlockLayout(data: seq<Byte>, final: bool, tail: seq<Byte>)
    requires |data| <= MAX_BLOCK
    ensures var bs := BlockBytes(data, final) + tail;
            && |bs| >= 5 + |data| && (bs[0] / 2) % 4 == 0 && (bs[0] % 2 == 1 <==> final)
            && U16(bs[1], bs[2]) == |data| && U16(bs[3], bs[4]) == 0xFFFF - |data|
            && bs[5..5 + |data|] == data && bs[5 + |data|..] == tail
  {
  }

  function Prepend(block: Block, r: Option<(seq<Block>, seq<Byte>)>): Option<(seq<Block>, seq<Byte>)> {
    match r
    case None => None
    case Some((blocks, tail)) => Some(([block] + blocks, tail))
  }

  /** Reading one written block yields that block and goes on with what follows it. */
  lemma ReadOneBlock(data: seq<Byte>, final: bool, tail: seq<Byte>)
    requires |data| <= MAX_BLOCK
    ensures var block := Block(final, |data|, 0xFFFF - |data|, data);
            ReadBlocks(BlockBytes(data, final) + tail) ==
            if final then Some(([block], tail)) else Prepend(block, ReadBlocks(tail))
  {
    BlockLayout(data, final, tail);
  }

  /** The blocks the writer's loop writes for `content`. */
  function BlocksOf(content: seq<Byte>): (blocks: seq<Block>)
    requires content != []
    ensures blocks != []
  {
    if |content| <= MAX_BLOCK then [Block(true, |content|, 0xFFFF - |content|, content)]
    else [Block(false, MAX_BLOCK, 0, content[..MAX_BLOCK])] + BlocksOf(content[MAX_BLOCK..])
  }

  lemma {:induction false} BlocksOfWellFormed(content: seq<Byte>)
    requires content != []
    ensures WellFormedBlocks(BlocksOf(content))
  {
    if |content| > MAX_BLOCK {
      var more := BlocksOf(content[MAX_BLOCK..]);
      BlocksOfWellFormed(content[MAX_BLOCK..]);
      assert forall i :: 0 < i <= |more| ==> BlocksOf(content)[i] == more[i - 1];
    }
  }

  lemma {:induction false} BlocksOfPayload(content: seq<Byte>)
    requires content != []
    ensures Payload(BlocksOf(content)) == content
  {
    var blocks := BlocksOf(content);
    if |content| <= MAX_BLOCK {
      assert blocks[1..] == [];
    } else {
      BlocksOfPayload(content[MAX_BLOCK..]);
      assert blocks[1..] == BlocksOf(content[MAX_BLOCK..]);
    }
  }

  /** Reading back what the writer's loop wrote, whatever bytes follow. */
  lemma {:induction false} WrittenBlocksReadBack(content: seq<Byte>, tail: seq<Byte>)
    requires content != []
    ensures ReadBlocks(BlocksBytes(content) + tail) == Some((BlocksOf(content), tail))
  {
    if |content| <= MAX_BLOCK {
      ReadOneBlock(content, true, tail);
    } else {
      var first, rest := content[..MAX_BLOCK], content[MAX_BLOCK..];
      calc {
        ReadBlocks(BlocksBytes(content) + tail);
        { assert BlocksBytes(content) + tail == BlockBytes(first, false) + (BlocksBytes(rest) + tail); }
        ReadBlocks(BlockBytes(first, false) + (BlocksBytes(rest) + tail));
        { ReadOneBlock(first, false, BlocksBytes(rest) + tail); }
        Prepend(Block(false, MAX_BLOCK, 0, first), ReadBlocks(BlocksBytes(rest) + tail));
        { WrittenBlocksReadBack(rest, tail); }
        Prepend(Block(false, MAX_BLOCK, 0, first), Some((BlocksOf(rest), tail)));
      }
    }
  }

  /** The reader accepts the two header bytes. */
  lemma HeaderAccepted(tail: seq<Byte>)
    ensures Decode([0x78, 0x01] + tail) ==
            match ReadBlocks(tail)
            case None => None
            case Some((blocks, rest)) =>
              if rest == Checksum(Payload(blocks)) then Some(Payload(blocks)) else None
  {
    var z := [0x78, 0x01] + tail;
    assert z[0] == 0x78 && z[1] == 0x01 && z[2..] == tail;
  }

  /** The stream decodes to its input exactly when the input is not empty: on empty
      input the loop writes no block at all, so there is no final block to stop at. */
  lemma RoundTrip(content: seq<Byte>)
    ensures Decode(Stream(content)) == if content != [] then Some(content) else None
  {
    var body := BlocksBytes(content) + Checksum(content);
    assert Stream(content) == [0x78, 0x01] + body;
    HeaderAccepted(body);
    if content != [] {
      WrittenBlocksReadBack(content, Checksum(content));
      BlocksOfPayload(content);
    } else {
      assert |body| == 4;
      assert ReadBlocks(body) == None;
    }
  }

  /** Every block the stream holds has LEN at most 65535 with NLEN its complement, and
      only the last one is final. */
  lemma StreamShape(content: seq<Byte>)
    requires content != []
    ensures exists blocks ::
              && ReadBlocks(Stream(content)[2..]) == Some((blocks, Checksum(content)))
              && WellFormedBlocks(blocks)
              && Payload(blocks) == content
  {
    assert Stream(content)[2..] == BlocksBytes(content) + Checksum(content);
    WrittenBlocksReadBack(content, Checksum(content));
    BlocksOfWellFormed(content);
    BlocksOfPayload(content);
  }

  /** Two inputs with the same stream are the same input. */
  lemma StreamInjective(a: seq<Byte>, b: seq<Byte>)
    requires Stream(a) == Stream(b)
    ensures a == b
  {
    RoundTrip(a);
    RoundTrip(b);
  }
}
