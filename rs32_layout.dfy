/** Byte offsets of the RS32 packet fields. Both decoder generations overlay packed structs of the
    same layout on a 1248-octet buffer; here every field is located by an explicit offset instead. */
module Rs32Layout {
  import opened Bytes

  /** Both packet kinds are 1248 octets long. */
  const PKT_LEN: nat := 1248

  const BLOCKS_PER_PKT: nat := 12
  const CHANNELS_PER_BLOCK: nat := 32

  /** A channel reading: 16-bit big-endian distance, then one intensity octet. */
  const CHANNEL_SIZE: nat := 3
  /** A block: 2-octet id, 16-bit big-endian azimuth, then 32 channel readings. */
  const BLOCK_SIZE: nat := 2 + 2 + CHANNELS_PER_BLOCK * CHANNEL_SIZE
  /** The MSOP header precedes the blocks; the blocks are followed by a 4-octet index and a
      2-octet tail, which fixes the header at 42 octets. */
  const MSOP_HEADER_SIZE: nat := PKT_LEN - 4 - 2 - BLOCKS_PER_PKT * BLOCK_SIZE

  /** DIFOP: return_mode octet. */
  const DIFOP_RETURN_MODE: nat := 300
  /** DIFOP: 32 vertical (pitch) calibration triples, then 32 horizontal (yaw) triples, followed
      by 586 reserved octets and the 2-octet tail. */
  const DIFOP_PITCH_CALI: nat := PKT_LEN - 2 - 586 - 96 - 96
  const DIFOP_YAW_CALI: nat := DIFOP_PITCH_CALI + 96

  function BlockStart(blk: nat): (off: nat)
    requires blk < BLOCKS_PER_PKT
    ensures MSOP_HEADER_SIZE <= off && off + BLOCK_SIZE <= PKT_LEN - 6
  {
    MSOP_HEADER_SIZE + blk * BLOCK_SIZE
  }

  function ChannelStart(blk: nat, chan: nat): (off: nat)
    requires blk < BLOCKS_PER_PKT && chan < CHANNELS_PER_BLOCK
    ensures BlockStart(blk) + 4 <= off && off + CHANNEL_SIZE <= BlockStart(blk) + BLOCK_SIZE
  {
    BlockStart(blk) + 4 + chan * CHANNEL_SIZE
  }

  /** The two id octets of block `blk`. */
  function BlockIdBytes(pkt: seq<Byte>, blk: nat): (id: seq<Byte>)
    requires |pkt| >= PKT_LEN && blk < BLOCKS_PER_PKT
    ensures |id| == 2
  {
    pkt[BlockStart(blk)..BlockStart(blk) + 2]
  }

  /** The raw azimuth of block `blk`, in hundredths of a degree. */
  function BlockAzimuth(pkt: seq<Byte>, blk: nat): (az: nat)
    requires |pkt| >= PKT_LEN && blk < BLOCKS_PER_PKT
    ensures az < 0x1_0000
  {
    ReadBE16(pkt, BlockStart(blk) + 2)
  }

  /** The raw distance of a channel reading, in units of 5 mm. */
  function ChannelDistance(pkt: seq<Byte>, blk: nat, chan: nat): (d: nat)
    requires |pkt| >= PKT_LEN && blk < BLOCKS_PER_PKT && chan < CHANNELS_PER_BLOCK
    ensures d < 0x1_0000
  {
    ReadBE16(pkt, ChannelStart(blk, chan))
  }

  function ChannelIntensity(pkt: seq<Byte>, blk: nat, chan: nat): Byte
    requires |pkt| >= PKT_LEN && blk < BLOCKS_PER_PKT && chan < CHANNELS_PER_BLOCK
  {
    pkt[ChannelStart(blk, chan) + 2]
  }

  /** The first eight octets of a packet: the packet id of both kinds. */
  function PacketIdBytes(pkt: seq<Byte>): (id: seq<Byte>)
    requires |pkt| >= PKT_LEN
    ensures |id| == 8
  {
    pkt[0..8]
  }

  function ReturnMode(pkt: seq<Byte>): Byte
    requires |pkt| >= PKT_LEN
  {
    pkt[DIFOP_RETURN_MODE]
  }

  /** The 96 octets of vertical calibration triples. */
  function PitchCali(pkt: seq<Byte>): (t: seq<Byte>)
    requires |pkt| >= PKT_LEN
    ensures |t| == 96
  {
    pkt[DIFOP_PITCH_CALI..DIFOP_PITCH_CALI + 96]
  }

  /** The 96 octets of horizontal calibration triples. */
  function YawCali(pkt: seq<Byte>): (t: seq<Byte>)
    requires |pkt| >= PKT_LEN
    ensures |t| == 96
  {
    pkt[DIFOP_YAW_CALI..DIFOP_YAW_CALI + 96]
  }

  /** The fields located above do not overlap one another and lie inside the packet. */
  lemma LayoutFits()
    ensures MSOP_HEADER_SIZE == 42 && BLOCK_SIZE == 100
    ensures BlockStart(BLOCKS_PER_PKT - 1) + BLOCK_SIZE + 4 + 2 == PKT_LEN
    ensures 8 <= DIFOP_RETURN_MODE < DIFOP_PITCH_CALI
    ensures DIFOP_PITCH_CALI == 468 && DIFOP_YAW_CALI + 96 + 586 + 2 == PKT_LEN
  {
  }
}
