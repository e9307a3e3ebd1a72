/** How the two decoder generations relate: the first compares ids as integers read in host order,
    the second compares octets, and the two agree; the echo-mode mappings agree only on the
    return modes the device documents. */
module Generations {
  import opened Bytes
  import opened Rs32Layout
  import Decoder32
  import DecoderRS32

  /** The first generation's MSOP header test and the second's `memcmp` against the MSOP id
      accept the same packets. */
  lemma MsopIdsAgree(pkt: seq<Byte>)
    requires |pkt| >= PKT_LEN
    ensures Decoder32.PacketId(pkt) == Decoder32.MSOP_ID
        <==> PacketIdBytes(pkt) == DecoderRS32.GetConstParam().msopId
  {
    var id := DecoderRS32.MSOP_ID_BYTES;
    LittleEndianEight(id);
    Decoder32.PacketIdIsHostRead(pkt);
    if Decoder32.PacketId(pkt) == Decoder32.MSOP_ID {
      LittleEndianInjective(PacketIdBytes(pkt), id);
    }
  }

  /** Likewise for the DIFOP id. */
  lemma DifopIdsAgree(pkt: seq<Byte>)
    requires |pkt| >= PKT_LEN
    ensures Decoder32.PacketId(pkt) == Decoder32.DIFOP_ID
        <==> PacketIdBytes(pkt) == DecoderRS32.GetConstParam().difopId
  {
    var id := DecoderRS32.DIFOP_ID_BYTES;
    LittleEndianEight(id);
    Decoder32.PacketIdIsHostRead(pkt);
    if Decoder32.PacketId(pkt) == Decoder32.DIFOP_ID {
      LittleEndianInjective(PacketIdBytes(pkt), id);
    }
  }

  /** Likewise for the block id. */
  lemma BlockIdsAgree(pkt: seq<Byte>, blk: nat)
    requires |pkt| >= PKT_LEN && blk < BLOCKS_PER_PKT
    ensures Decoder32.BlockId(pkt, blk) == Decoder32.BLOCK_ID
        <==> BlockIdBytes(pkt, blk) == DecoderRS32.GetConstParam().blockId
  {
    var id := DecoderRS32.BLOCK_ID_BYTES;
    LittleEndianTwo(id);
    Decoder32.BlockIdIsHostRead(pkt, blk);
    if Decoder32.BlockId(pkt, blk) == Decoder32.BLOCK_ID {
      LittleEndianInjective(BlockIdBytes(pkt, blk), id);
    }
  }

  /** The two echo-mode mappings agree on dual echo exactly for return modes 0, 1 and 2; for
      every other octet the first generation chooses dual echo and the second single echo. */
  lemma EchoMappingsAgree(mode: Byte)
    ensures ((Decoder32.EchoModeOf(mode) == Decoder32.ECHO_DUAL)
             == (DecoderRS32.GetEchoMode(mode) == DecoderRS32.EchoDual)) <==> mode <= 2
  {
  }
}
