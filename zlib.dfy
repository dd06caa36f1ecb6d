/**
 * The zlib container (RFC 1950) around a DEFLATE stream (RFC 1951) made of
 * stored blocks.
 *
 * The client compresses every packet with zlib and the receiver
 * decompresses it.  This module gives both directions a concrete
 * definition: compression writes the two-byte header, the data as a
 * chain of stored blocks of at most 65535 bytes, and the big-endian
 * Adler-32 checksum of the data; decompression checks the header, walks
 * the blocks, checks the checksum and ignores whatever follows it.  Only
 * stored blocks are decoded (see README).
 */
module Zlib {
  import opened Wrappers
  import opened Text
  import opened Binary

  /** The largest payload of one stored block (LEN is 16 bits). */
  const MaxStoredBlock: nat := 65535
  const AdlerModulus: nat := 65521

  /** CMF = deflate with a 32K window, FLG = best compression; 0x78DA is a multiple of 31. */
  const Header: seq<byte> := [0x78, 0xDA]

  const ErrEOF := "EOF"
  const ErrUnexpectedEOF := "unexpected EOF"
  const ErrHeader := "zlib: invalid header"
  const ErrDictionary := "zlib: invalid dictionary"
  const ErrCorrupt := "flate: corrupt input"
  const ErrChecksum := "zlib: invalid checksum"
  const ErrBlockType := "flate: compressed block type not modelled"

  // ---------------------------------------------------------------- Adler-32

  /** The two running sums of Adler-32 after `data`. */
  function AdlerSums(data: seq<byte>): (r: (nat, nat))
    ensures r.0 < AdlerModulus && r.1 < AdlerModulus
    decreases |data|
  {
    if data == [] then (1, 0)
    else
      var (a, b) := AdlerSums(data[..|data| - 1]);
      var a' := (a + data[|data| - 1]) % AdlerModulus;
      (a', (b + a') % AdlerModulus)
  }

  function Adler32(data: seq<byte>): (c: uint32)
  {
    var (a, b) := AdlerSums(data);
    b * 0x1_0000 + a
  }

  // ------------------------------------------------------------- compression

  /** The stored-block chain that carries `data`; the last block has BFINAL set. */
  function StoredBlocks(data: seq<byte>): (s: seq<byte>)
    decreases |data|
  {
    if |data| <= MaxStoredBlock then StoredBlock(true, data)
    else StoredBlock(false, data[..MaxStoredBlock]) + StoredBlocks(data[MaxStoredBlock..])
  }

  /** One stored block: BFINAL and BTYPE = 00 in the first byte, then LEN, NLEN and the bytes. */
  function StoredBlock(final: bool, chunk: seq<byte>): seq<byte>
    requires |chunk| <= MaxStoredBlock
  {
    [if final then 1 else 0] + LittleEndian(|chunk|, 2) + LittleEndian(MaxStoredBlock - |chunk|, 2) + chunk
  }

  function Compress(data: seq<byte>): seq<byte>
  {
    Header + StoredBlocks(data) + BigEndian(Adler32(data), 4)
  }

  // ----------------------------------------------------------- decompression

  /** The header check of the zlib reader: deflate method, window <= 32K, FCHECK, no preset dictionary. */
  function CheckHeader(s: seq<byte>): (r: Option<string>)
  {
    if |s| == 0 then Some(ErrEOF)
    else if |s| == 1 then Some(ErrUnexpectedEOF)
    else if s[0] % 16 != 8 || s[0] / 16 > 7 || (s[0] as int * 256 + s[1]) % 31 != 0 then Some(ErrHeader)
    else if (s[1] / 32) % 2 == 1 then Some(ErrDictionary)
    else None
  }

  /**
   * The header of the block at the start of `s`: whether it is the final
   * block and how many bytes it stores.
   */
  function BlockHeader(s: seq<byte>): (r: Result<(bool, nat)>)
    ensures r.Ok? ==> 5 + r.value.1 <= |s|
  {
    if |s| < 1 then Err(ErrUnexpectedEOF)
    else
      var blockType := (s[0] / 2) % 4;
      if blockType == 3 then Err(ErrCorrupt)
      else if blockType != 0 then Err(ErrBlockType)
      else if |s| < 5 then Err(ErrUnexpectedEOF)
      else
        var len := FromLittleEndian(s[1..3]);
        var nlen := FromLittleEndian(s[3..5]);
        if nlen != MaxStoredBlock - len then Err(ErrCorrupt)
        else if |s| < 5 + len then Err(ErrUnexpectedEOF)
        else Ok((s[0] % 2 == 1, len))
  }

  /**
   * Decode the block chain at the start of `s`: the data it carries and the
   * number of bytes it occupies.
   */
  function InflateBlocks(s: seq<byte>): (r: Result<(seq<byte>, nat)>)
    ensures r.Ok? ==> r.value.1 <= |s|
    decreases |s|
  {
    match BlockHeader(s)
    case Err(e) => Err(e)
    case Ok((final, len)) =>
      if final then Ok((s[5..5 + len], 5 + len))
      else
        match InflateBlocks(s[5 + len..])
        case Err(e) => Err(e)
        case Ok((rest, k)) => Ok((s[5..5 + len] + rest, 5 + len + k))
  }

  /** Read a whole zlib stream from `s`, as ReadAll over a zlib reader does. */
  function Decompress(s: seq<byte>): (r: Result<seq<byte>>)
  {
    match CheckHeader(s)
    case Some(e) => Err(e)
    case None =>
      match InflateBlocks(s[2..])
      case Err(e) => Err(e)
      case Ok((data, k)) =>
        var tail := s[2 + k..];
        if |tail| < 4 then Err(ErrUnexpectedEOF)
        else if FromBigEndian(tail[..4]) != Adler32(data) then Err(ErrChecksum)
        else Ok(data)
  }

  // ------------------------------------------------------------------ proofs

  lemma HeaderAccepted(rest: seq<byte>)
    ensures CheckHeader(Header + rest) == None
  {
  }

  lemma BlockHeaderOf(final: bool, chunk: seq<byte>, rest: seq<byte>)
    requires |chunk| <= MaxStoredBlock
    ensures BlockHeader(StoredBlock(final, chunk) + rest) == Ok((final, |chunk|))
  {
    var s := StoredBlock(final, chunk) + rest;
    var len := LittleEndian(|chunk|, 2);
    var nlen := LittleEndian(MaxStoredBlock - |chunk|, 2);
    assert s == [if final then 1 else 0] + len + nlen + (chunk + rest);
    assert s[1..3] == len by {
      assert s[1] == len[0] && s[2] == len[1];
    }
    assert s[3..5] == nlen by {
      assert s[3] == nlen[0] && s[4] == nlen[1];
    }
    assert FromLittleEndian(s[1..3]) == |chunk| by {
      LittleEndianRoundTrip(|chunk|, 2);
    }
    assert FromLittleEndian(s[3..5]) == MaxStoredBlock - |chunk| by {
      LittleEndianRoundTrip(MaxStoredBlock - |chunk|, 2);
    }
    assert s[0] % 2 == (if final then 1 else 0) && (s[0] / 2) % 4 == 0;
  }

  lemma InflateStoredBlock(final: bool, chunk: seq<byte>, rest: seq<byte>)
    requires |chunk| <= MaxStoredBlock
    ensures final ==> InflateBlocks(StoredBlock(final, chunk) + rest) == Ok((chunk, 5 + |chunk|))
    ensures !final ==> (InflateBlocks(StoredBlock(final, chunk) + rest).Ok? <==> InflateBlocks(rest).Ok?)
    ensures !final && InflateBlocks(rest).Ok? ==>
              InflateBlocks(StoredBlock(final, chunk) + rest).value.0 == chunk + InflateBlocks(rest).value.0
              && InflateBlocks(StoredBlock(final, chunk) + rest).value.1 == 5 + |chunk| + InflateBlocks(rest).value.1
  {
    var s := StoredBlock(final, chunk) + rest;
    BlockHeaderOf(final, chunk, rest);
    assert s[5..5 + |chunk|] == chunk;
    assert s[5 + |chunk|..] == rest;
  }

  lemma {:induction false} InflateStoredBlocks(data: seq<byte>, rest: seq<byte>)
    ensures InflateBlocks(StoredBlocks(data) + rest) == Ok((data, |StoredBlocks(data)|))
    decreases |data|
  {
    if |data| <= MaxStoredBlock {
      InflateStoredBlock(true, data, rest);
    } else {
      var chunk := data[..MaxStoredBlock];
      var tail := data[MaxStoredBlock..];
      var head := StoredBlock(false, chunk);
      var blocks := StoredBlocks(tail);
      assert StoredBlocks(data) == head + blocks;
      InflateStoredBlocks(tail, rest);
      InflateChained(chunk, blocks, tail, rest);
      ConcatAssoc(head, blocks, rest);
      assert chunk + tail == data;
    }
  }

  lemma ConcatAssoc(a: seq<byte>, b: seq<byte>, c: seq<byte>)
    ensures a + (b + c) == (a + b) + c
  {
  }

  lemma InflateChained(chunk: seq<byte>, blocks: seq<byte>, tail: seq<byte>, rest: seq<byte>)
    requires |chunk| <= MaxStoredBlock
    requires InflateBlocks(blocks + rest) == Ok((tail, |blocks|))
    ensures InflateBlocks(StoredBlock(false, chunk) + (blocks + rest)) == Ok((chunk + tail, |StoredBlock(false, chunk) + blocks|))
  {
    InflateStoredBlock(false, chunk, blocks + rest);
  }

  /** Decompression inverts compression, whatever bytes follow the stream. */
  lemma DecompressCompress(data: seq<byte>, trailing: seq<byte>)
    ensures Decompress(Compress(data) + trailing) == Ok(data)
  {
    var c := Adler32(data);
    var blocks := StoredBlocks(data);
    var x := blocks + (BigEndian(c, 4) + trailing);
    assert InflateBlocks(x) == Ok((data, |blocks|)) by {
      InflateStoredBlocks(data, BigEndian(c, 4) + trailing);
    }
    assert x[|blocks|..|blocks| + 4] == BigEndian(c, 4);
    assert Compress(data) + trailing == Header + x;
    DecompressFrame(x, data, |blocks|, c);
  }

  lemma DecompressFrame(x: seq<byte>, data: seq<byte>, k: nat, c: uint32)
    requires InflateBlocks(x) == Ok((data, k))
    requires |x| >= k + 4 && x[k..k + 4] == BigEndian(c, 4) && c == Adler32(data)
    ensures Decompress(Header + x) == Ok(data)
  {
    var s := Header + x;
    assert CheckHeader(s) == None by {
      HeaderAccepted(x);
    }
    assert InflateBlocks(s[2..]) == Ok((data, k)) by {
      assert s[2..] == x;
    }
    assert FromBigEndian(s[2 + k..][..4]) == c by {
      assert s[2 + k..][..4] == x[k..k + 4] by {
        assert |Header| == 2;
        var a, b := s[2 + k..][..4], x[k..k + 4];
        forall i | 0 <= i < 4 ensures a[i] == b[i] {
          assert s[2 + k + i] == x[k + i];
        }
      }
      BigEndianRoundTrip(c, 4);
    }
    DecompressOf(s, data, k);
  }

  /** The three checks of the reader passing: the data of the block chain. */
  lemma DecompressOf(s: seq<byte>, data: seq<byte>, k: nat)
    requires |s| >= 2 + k + 4 && CheckHeader(s) == None && InflateBlocks(s[2..]) == Ok((data, k))
    requires FromBigEndian(s[2 + k..][..4]) == Adler32(data)
    ensures Decompress(s) == Ok(data)
  {
  }
}
