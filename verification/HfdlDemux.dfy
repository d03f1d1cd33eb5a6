/** The channel demultiplexer of projects/hfdl_receiver/server/hfdl-receiver.c: a chunk holds
    256 samples of 13 channels in turn, 4 bytes a sample. */
module HfdlDemux {
  import opened Bytes
  import opened HfdlLedger

  const NUMCHANS: nat := 13
  const CHUNK_BYTES: nat := NUMCHANS * CHUNK

  /** Byte b of sample k: I low, I high, Q low, Q high. */
  function SampleByte(src: seq<byte>, k: nat, b: nat): byte
    requires |src| == CHUNK_BYTES && k < NUMCHANS * 256 && b < 4
  {
    src[4 * k + b]
  }

  /** (uint8_t) ((x >> 8) + 127) for an int16_t x with this high byte. */
  function ToCu8(high: byte): byte {
    (high + 127) % 256
  }

  /** The signed value of a high byte. */
  function Signed(high: byte): int {
    if high < 128 then high else high - 256
  }

  /** The conversion is a shift by 127 exactly for all samples but those of the lowest code,
      which wraps to the top. */
  lemma Cu8IsShift(high: byte)
    ensures ToCu8(high) == Signed(high) + 127 <==> Signed(high) != -128
    ensures Signed(high) == -128 ==> ToCu8(high) == 255
  {
  }

  /** What a client of channel c gets of a chunk. */
  function Block(src: seq<byte>, format: Format, c: nat): (block: seq<byte>)
    requires |src| == CHUNK_BYTES && c < NUMCHANS
    ensures |block| == format.Bytes(1)
  {
    if format.CS16? then
      seq(CHUNK, n requires 0 <= n < CHUNK => SampleByte(src, c + NUMCHANS * (n / 4), n % 4))
    else
      seq(CHUNK / 2, n requires 0 <= n < CHUNK / 2 => ToCu8(SampleByte(src, c + NUMCHANS * (n / 2), 2 * (n % 2) + 1)))
  }

  /** Sample t of a CS16 block is sample c + 13 t of the chunk, byte for byte. */
  lemma Cs16Sample(src: seq<byte>, c: nat, t: nat)
    requires |src| == CHUNK_BYTES && c < NUMCHANS && t < 256
    ensures
      var block, k := Block(src, CS16, c), c + 13 * t;
      && k < NUMCHANS * 256
      && block[4 * t] == src[4 * k] && block[4 * t + 1] == src[4 * k + 1]
      && block[4 * t + 2] == src[4 * k + 2] && block[4 * t + 3] == src[4 * k + 3]
  {
  }

  /** Sample t of a CU8 block is made of the high bytes of that sample. */
  lemma Cu8Sample(src: seq<byte>, c: nat, t: nat)
    requires |src| == CHUNK_BYTES && c < NUMCHANS && t < 256
    ensures
      var block, k := Block(src, CU8, c), c + 13 * t;
      && k < NUMCHANS * 256
      && block[2 * t] == ToCu8(src[4 * k + 1]) && block[2 * t + 1] == ToCu8(src[4 * k + 3])
  {
  }

  /** The samples of 13 channel blocks put back in turn. */
  function Interleave(blocks: seq<seq<byte>>): seq<byte>
    requires |blocks| == NUMCHANS && forall c :: 0 <= c < NUMCHANS ==> |blocks[c]| == CHUNK
  {
    seq(CHUNK_BYTES, n requires 0 <= n < CHUNK_BYTES => blocks[n / 4 % NUMCHANS][n / 4 / NUMCHANS * 4 + n % 4])
  }

  function Blocks(src: seq<byte>): (blocks: seq<seq<byte>>)
    requires |src| == CHUNK_BYTES
    ensures |blocks| == NUMCHANS && forall c :: 0 <= c < NUMCHANS ==> |blocks[c]| == CHUNK
  {
    seq(NUMCHANS, c requires 0 <= c < NUMCHANS => Block(src, CS16, c))
  }

  /** Byte n of a chunk is byte b of sample s of channel c. */
  lemma Coordinates(n: nat)
    requires n < CHUNK_BYTES
    ensures
      var c, s, b := n / 4 % NUMCHANS, n / 4 / NUMCHANS, n % 4;
      && s < 256
      && (s * 4 + b) / 4 == s && (s * 4 + b) % 4 == b
      && 4 * (c + NUMCHANS * s) + b == n
  {
  }

  /** Demultiplexing loses nothing and mixes nothing up: re-interleaving the 13 CS16 channel
      blocks restores the chunk. */
  lemma DemuxRoundTrip(src: seq<byte>)
    requires |src| == CHUNK_BYTES
    ensures Interleave(Blocks(src)) == src
  {
    forall n | 0 <= n < CHUNK_BYTES ensures Interleave(Blocks(src))[n] == src[n] {
      Coordinates(n);
    }
  }

  /** And every 13 blocks of 256 samples are the demultiplexed channels of some chunk. */
  lemma InterleaveRoundTrip(blocks: seq<seq<byte>>)
    requires |blocks| == NUMCHANS && forall c :: 0 <= c < NUMCHANS ==> |blocks[c]| == CHUNK
    ensures Blocks(Interleave(blocks)) == blocks
  {
    forall c, n | 0 <= c < NUMCHANS && 0 <= n < CHUNK
      ensures Block(Interleave(blocks), CS16, c)[n] == blocks[c][n]
    {
      var k, b := c + NUMCHANS * (n / 4), n % 4;
      assert (4 * k + b) / 4 == k && (4 * k + b) % 4 == b;
      assert k % NUMCHANS == c && k / NUMCHANS == n / 4;
    }
    forall c | 0 <= c < NUMCHANS ensures Blocks(Interleave(blocks))[c] == blocks[c] {
      assert Block(Interleave(blocks), CS16, c) == blocks[c];
    }
  }
}
