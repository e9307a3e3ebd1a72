/** The first-generation RS32 decoder (`Decoder32`): MSOP packets become points, DIFOP packets
    set the echo mode, the frame length and, once, the per-channel angle tables. */
module Decoder32 {
  import opened Bytes
  import opened Rs32Layout
  import opened Rs32Angles
  import opened Rs32Calibration
  import CppInt

  /** RS32_MSOP_ID, RS32_BLOCK_ID and RS32_DIFOP_ID, compared with fields read in host
      (little-endian) order. */
  const MSOP_ID: nat := 0xA050A55A0A05AA55
  const BLOCK_ID: nat := 0xEEFF
  const DIFOP_ID: nat := 0x555511115A00FFA5

  /** The return value for a packet with the wrong id. */
  const ERR_WRONG_ID: int := -2

  /** RS_ECHO_DUAL. */
  const ECHO_DUAL: int := 0

  /** RS32_POINTS_CHANNEL_PER_SECOND / RS32_BLOCKS_CHANNEL_PER_PKT: packets per second in single
      echo. */
  const PKT_RATE: int := 18000 / 12

  /** The distance limits of the constructor in raw 5 mm counts: 200 m and 0.4 m. */
  const DISTANCE_LIMIT: int := 40000
  const DISTANCE_FLOOR: int := 80

  /** The id of either packet kind: its first eight octets read as a 64-bit host-order
      (little-endian) integer. */
  function PacketId(pkt: seq<Byte>): nat
    requires |pkt| >= PKT_LEN
  {
    (pkt[0] as int) + 0x100 * (pkt[1] as int) + 0x1_0000 * (pkt[2] as int) + 0x100_0000 * (pkt[3] as int)
      + 0x1_0000_0000 * (pkt[4] as int) + 0x100_0000_0000 * (pkt[5] as int)
      + 0x1_0000_0000_0000 * (pkt[6] as int) + 0x100_0000_0000_0000 * (pkt[7] as int)
  }

  /** The id of block `blk`: its first two octets read as a 16-bit host-order integer. */
  function BlockId(pkt: seq<Byte>, blk: nat): nat
    requires |pkt| >= PKT_LEN && blk < BLOCKS_PER_PKT
  {
    (pkt[BlockStart(blk)] as int) + 0x100 * (pkt[BlockStart(blk) + 1] as int)
  }

  /** The packet id is the little-endian value of the id field. */
  lemma PacketIdIsHostRead(pkt: seq<Byte>)
    requires |pkt| >= PKT_LEN
    ensures PacketId(pkt) == LittleEndian(PacketIdBytes(pkt))
  {
    LittleEndianEight(PacketIdBytes(pkt));
  }

  /** The block id is the little-endian value of the block's id field. */
  lemma BlockIdIsHostRead(pkt: seq<Byte>, blk: nat)
    requires |pkt| >= PKT_LEN && blk < BLOCKS_PER_PKT
    ensures BlockId(pkt, blk) == LittleEndian(BlockIdBytes(pkt, blk))
  {
    LittleEndianTwo(BlockIdBytes(pkt, blk));
  }

  /** An emitted point: the raw distance, the intensity and the three table indices from which the
      source computes x, y and z (vertical, calibrated horizontal and uncalibrated horizontal), or a
      point whose coordinates and intensity are all NaN. */
  datatype Point32 =
    | Point(distance: int, intensity: Byte, angleVert: int, angleHoriz: int, angleHorizOri: int)
    | NaNPoint

  /** The decoder state an MSOP decode reads. */
  datatype Settings = Settings(dual: bool, minDistance: int, maxDistance: int,
                               startAngle: int, endAngle: int, angleFlag: bool,
                               vertAngles: seq<real>)

  /** The base decoder's `azimuthCalibration(azimuth, channel)`, which is not part of this model. */
  type AzimuthCalibration = (real, int) -> int

  // ---------------------------------------------------------------------------------------------
  // What an MSOP packet decodes to
  // ---------------------------------------------------------------------------------------------

  /** The forward azimuth step used to interpolate within block `blk`: from the earlier of the
      block's and its neighbour's azimuths to the later one, modulo a full turn. */
  function BlockDiff(pkt: seq<Byte>, blk: nat, dual: bool): (d: int)
    requires |pkt| >= PKT_LEN && blk < BLOCKS_PER_PKT
    ensures -FULL_TURN < d < FULL_TURN
    ensures var nb := Neighbour(blk, dual);
      var az, azNb := BlockAzimuth(pkt, blk), BlockAzimuth(pkt, nb.0);
      az < FULL_TURN && azNb < FULL_TURN ==>
        0 <= d < FULL_TURN
        && (if nb.1 then (azNb + d) % FULL_TURN == az else (az + d) % FULL_TURN == azNb)
  {
    var nb := Neighbour(blk, dual);
    var az, azNb := BlockAzimuth(pkt, blk), BlockAzimuth(pkt, nb.0);
    if nb.1 then AzimuthDiff(az, azNb) else AzimuthDiff(azNb, az)
  }

  /** The point of channel `chan` of block `blk`. */
  function DecodeChannel(s: Settings, cal: AzimuthCalibration, pkt: seq<Byte>,
                         blk: nat, diff: int, chan: nat): (p: Point32)
    requires |pkt| >= PKT_LEN && blk < BLOCKS_PER_PKT && chan < CHANNELS_PER_BLOCK
    requires |s.vertAngles| == CHANNELS_PER_BLOCK
    ensures var h := WrapAngle(cal(ChannelAzimuth(BlockAzimuth(pkt, blk), diff, chan), chan));
      p.Point? <==> InDistance(s.minDistance, s.maxDistance, ChannelDistance(pkt, blk, chan))
                    && InSector(s.startAngle, s.endAngle, s.angleFlag, h)
    ensures p.Point? ==>
      && p.distance == ChannelDistance(pkt, blk, chan) && p.intensity == ChannelIntensity(pkt, blk, chan)
      && 0 <= p.angleVert < FULL_TURN && p.angleVert == CppInt.Trunc(s.vertAngles[chan]) % FULL_TURN
  {
    var azChannel := ChannelAzimuth(BlockAzimuth(pkt, blk), diff, chan);
    var d := ChannelDistance(pkt, blk, chan);
    var h := WrapAngle(cal(azChannel, chan));
    if InDistance(s.minDistance, s.maxDistance, d) && InSector(s.startAngle, s.endAngle, s.angleFlag, h)
    then Point(d, ChannelIntensity(pkt, blk, chan), VertIndex(s.vertAngles[chan]), h,
               CppInt.Rem(CppInt.Trunc(azChannel + FULL_TURN as real), FULL_TURN))
    else NaNPoint
  }

  /** The 32 points of block `blk`, in channel order. */
  function BlockPoints(s: Settings, cal: AzimuthCalibration, pkt: seq<Byte>, blk: nat): (ps: seq<Point32>)
    requires |pkt| >= PKT_LEN && blk < BLOCKS_PER_PKT && |s.vertAngles| == CHANNELS_PER_BLOCK
    ensures |ps| == CHANNELS_PER_BLOCK
  {
    seq(CHANNELS_PER_BLOCK, c requires 0 <= c < CHANNELS_PER_BLOCK =>
      DecodeChannel(s, cal, pkt, blk, BlockDiff(pkt, blk, s.dual), c))
  }

  /** The index of the first block at or after `from` whose id is not 0xEEFF, or 12. */
  function LeadingBlocks(pkt: seq<Byte>, from: nat): (n: nat)
    requires |pkt| >= PKT_LEN && from <= BLOCKS_PER_PKT
    ensures from <= n <= BLOCKS_PER_PKT
    ensures forall b :: from <= b < n ==> BlockId(pkt, b) == BLOCK_ID
    ensures n < BLOCKS_PER_PKT ==> BlockId(pkt, n) != BLOCK_ID
    decreases BLOCKS_PER_PKT - from
  {
    if from == BLOCKS_PER_PKT || BlockId(pkt, from) != BLOCK_ID then from
    else LeadingBlocks(pkt, from + 1)
  }

  /** The number of blocks decoded: those before the first block with a wrong id. */
  function DecodedBlocks(pkt: seq<Byte>): (n: nat)
    requires |pkt| >= PKT_LEN
    ensures n <= BLOCKS_PER_PKT
    ensures forall b :: 0 <= b < n ==> BlockId(pkt, b) == BLOCK_ID
    ensures n < BLOCKS_PER_PKT ==> BlockId(pkt, n) != BLOCK_ID
  {
    LeadingBlocks(pkt, 0)
  }

  /** The points of blocks 0 .. n-1, block after block. */
  function PointsOfBlocks(s: Settings, cal: AzimuthCalibration, pkt: seq<Byte>, n: nat): (ps: seq<Point32>)
    requires |pkt| >= PKT_LEN && n <= BLOCKS_PER_PKT && |s.vertAngles| == CHANNELS_PER_BLOCK
    ensures |ps| == CHANNELS_PER_BLOCK * n
  {
    if n == 0 then [] else PointsOfBlocks(s, cal, pkt, n - 1) + BlockPoints(s, cal, pkt, n - 1)
  }

  /** Everything a packet with the right id appends to the point vector. */
  function MsopPoints(s: Settings, cal: AzimuthCalibration, pkt: seq<Byte>): (ps: seq<Point32>)
    requires |pkt| >= PKT_LEN && |s.vertAngles| == CHANNELS_PER_BLOCK
  {
    PointsOfBlocks(s, cal, pkt, DecodedBlocks(pkt))
  }

  /** Point k of a packet is channel k % 32 of block k / 32, and there are exactly 32 points per
      block decoded: the filter never removes a point, it only turns it into a NaN point. */
  lemma {:induction false} PointsOfBlocksAt(s: Settings, cal: AzimuthCalibration, pkt: seq<Byte>,
                                            n: nat, blk: nat, chan: nat)
    requires |pkt| >= PKT_LEN && n <= BLOCKS_PER_PKT && |s.vertAngles| == CHANNELS_PER_BLOCK
    requires blk < n && chan < CHANNELS_PER_BLOCK
    ensures PointsOfBlocks(s, cal, pkt, n)[CHANNELS_PER_BLOCK * blk + chan]
         == DecodeChannel(s, cal, pkt, blk, BlockDiff(pkt, blk, s.dual), chan)
  {
    if blk < n - 1 {
      PointsOfBlocksAt(s, cal, pkt, n - 1, blk, chan);
    }
  }

  /** The points of a packet, in block order and then channel order: 32 for each block before the
      first block with a wrong id. Each has coordinates exactly when its distance is within the
      inclusive bounds and its calibrated horizontal angle within the sector; otherwise it is a
      NaN point. */
  lemma MsopPointsSpec(s: Settings, cal: AzimuthCalibration, pkt: seq<Byte>, blk: nat, chan: nat)
    requires |pkt| >= PKT_LEN && |s.vertAngles| == CHANNELS_PER_BLOCK
    requires blk < DecodedBlocks(pkt) && chan < CHANNELS_PER_BLOCK
    ensures |MsopPoints(s, cal, pkt)| == CHANNELS_PER_BLOCK * DecodedBlocks(pkt)
    ensures var p := MsopPoints(s, cal, pkt)[CHANNELS_PER_BLOCK * blk + chan];
      var h := WrapAngle(cal(ChannelAzimuth(BlockAzimuth(pkt, blk), BlockDiff(pkt, blk, s.dual), chan), chan));
      p.Point? <==> InDistance(s.minDistance, s.maxDistance, ChannelDistance(pkt, blk, chan))
                    && InSector(s.startAngle, s.endAngle, s.angleFlag, h)
    ensures var p := MsopPoints(s, cal, pkt)[CHANNELS_PER_BLOCK * blk + chan];
      p.Point? ==> p.distance == ChannelDistance(pkt, blk, chan) && p.intensity == ChannelIntensity(pkt, blk, chan)
  {
    PointsOfBlocksAt(s, cal, pkt, DecodedBlocks(pkt), blk, chan);
  }

  /** Every table index of a point with coordinates lies in [0, 36000), so the cosine and sine
      lookups stay inside their tables, provided the sector does not start below zero. A
      calibrated angle below -36000 yields a negative index, which the sector test rejects. */
  lemma {:induction false} ValidPointIndicesInRange(s: Settings, cal: AzimuthCalibration, pkt: seq<Byte>, k: nat)
    requires |pkt| >= PKT_LEN && |s.vertAngles| == CHANNELS_PER_BLOCK && s.startAngle >= 0
    requires k < |MsopPoints(s, cal, pkt)| && MsopPoints(s, cal, pkt)[k].Point?
    ensures var p := MsopPoints(s, cal, pkt)[k];
      0 <= p.angleVert < FULL_TURN && 0 <= p.angleHoriz < FULL_TURN && 0 <= p.angleHorizOri < FULL_TURN
  {
    var blk, chan := k / CHANNELS_PER_BLOCK, k % CHANNELS_PER_BLOCK;
    assert k == CHANNELS_PER_BLOCK * blk + chan;
    PointsOfBlocksAt(s, cal, pkt, DecodedBlocks(pkt), blk, chan);
    var diff := BlockDiff(pkt, blk, s.dual);
    HorizOriInRange(BlockAzimuth(pkt, blk), diff, chan);
  }

  /** When every block azimuth is a proper angle, each channel lies between the block azimuth and
      the block azimuth plus the step, channels c and c + 16 share an azimuth, and channels 0 and
      16 fire exactly at the block azimuth. For the last blocks the step is taken from the earlier
      block, so there the channels are extrapolated beyond both samples. */
  lemma {:induction false} InterpolationBetweenSamples(pkt: seq<Byte>, blk: nat, dual: bool, chan: nat)
    requires |pkt| >= PKT_LEN && blk < BLOCKS_PER_PKT && chan < CHANNELS_PER_BLOCK
    requires forall b :: 0 <= b < BLOCKS_PER_PKT ==> BlockAzimuth(pkt, b) < FULL_TURN
    ensures var diff := BlockDiff(pkt, blk, dual);
      var a := ChannelAzimuth(BlockAzimuth(pkt, blk), diff, chan);
      && 0 <= diff < FULL_TURN
      && BlockAzimuth(pkt, blk) as real <= a
      && (diff > 0 ==> a < (BlockAzimuth(pkt, blk) + diff) as real)
      && a == ChannelAzimuth(BlockAzimuth(pkt, blk), diff, chan % 16)
      && (chan % 16 == 0 ==> a == BlockAzimuth(pkt, blk) as real)
  {
    var nb := Neighbour(blk, dual);
    var az, azNb := BlockAzimuth(pkt, blk), BlockAzimuth(pkt, nb.0);
    assert az < FULL_TURN && azNb < FULL_TURN;
    var diff := BlockDiff(pkt, blk, dual);
    assert 0 <= diff < FULL_TURN by {
      if nb.1 {
        assert diff == AzimuthDiff(az, azNb);
      } else {
        assert diff == AzimuthDiff(azNb, az);
      }
    }
    var k := chan % 16;
    assert k % 16 == k;
    assert ChannelAzimuth(az, diff, chan) == ChannelAzimuth(az, diff, k);
  }

  // ---------------------------------------------------------------------------------------------
  // DIFOP fields
  // ---------------------------------------------------------------------------------------------

  /** The table loop of `decodeDifopPkt`: entry i of each table is decoded from triple i, the
      sign carried over from the last triple whose sign octet was decisive. The loop updates
      copies of the two tables entry by entry and returns them; `DecodeDifopPkt` stores them in
      the decoder's fields. */
  method DecodeAngleTables(pVerCali: seq<Byte>, pHoriCali: seq<Byte>, vertAngleList: seq<real>,
                           horiAngleList: seq<real>)
    returns (vert: seq<real>, hori: seq<real>)
    requires |pVerCali| == 96 && |pHoriCali| == 96
    requires |vertAngleList| == CALI_CHANNELS && |horiAngleList| == CALI_CHANNELS
    ensures vert == VertTable(pVerCali, pHoriCali)
    ensures hori == HoriTable(pVerCali, pHoriCali)
  {
    vert, hori := vertAngleList, horiAngleList;
    var neg := 1;
    var i := 0;
    while i < CALI_CHANNELS
      invariant 0 <= i <= CALI_CHANNELS
      invariant neg == if i == 0 then 1 else ChannelSigns(pVerCali, pHoriCali, i - 1).1
      invariant TablesUpTo(pVerCali, pHoriCali, vert, hori, i)
    {
      ghost var signs, vert0, hori0 := ChannelSigns(pVerCali, pHoriCali, i), vert, hori;
      var at := 3 * i;
      // vertical angle calibration data
      var lsb, mid, msb := pVerCali[at], pVerCali[at + 1], pVerCali[at + 2];
      if lsb == 0 {
        neg := 1;
      } else if lsb == 1 {
        neg := -1;
      }
      var magnitude := (mid as int) * 256 + msb;
      assert magnitude == Magnitude(pVerCali, i) && neg == signs.0;
      var vertEntry := Entry(magnitude, neg);
      vert := vert[i := vertEntry];
      // horizontal angle calibration data
      lsb, mid, msb := pHoriCali[at], pHoriCali[at + 1], pHoriCali[at + 2];
      if lsb == 0 {
        neg := 1;
      } else if lsb == 1 {
        neg := -1;
      }
      magnitude := (mid as int) * 256 + msb;
      assert magnitude == Magnitude(pHoriCali, i) && neg == signs.1;
      var horiEntry := Entry(magnitude, neg);
      hori := hori[i := horiEntry];
      TablesStep(pVerCali, pHoriCali, vert0, hori0, i, vertEntry, horiEntry);
      i := i + 1;
    }
    TablesComplete(pVerCali, pHoriCali, vert, hori);
  }

  /** `echo_mode_` after a DIFOP: the return mode itself when it is 1 or 2, dual echo otherwise. */
  function EchoModeOf(returnMode: Byte): (m: int)
    ensures m == ECHO_DUAL <==> returnMode != 1 && returnMode != 2
    ensures m != ECHO_DUAL ==> m == returnMode
  {
    if returnMode == 0x01 || returnMode == 0x02 then returnMode else ECHO_DUAL
  }

  /** `pkts_per_frame_`: packets in one revolution, rounded down (both operands are integers);
      dual echo sends twice the packets. */
  function PktsPerFrame(dual: bool, rpm: int): (n: int)
    requires rpm > 0
    ensures var rate := if dual then 2 * PKT_RATE else PKT_RATE;
      n * rpm <= rate * 60 < (n + 1) * rpm
  {
    (if dual then PKT_RATE * 2 else PKT_RATE) * 60 / rpm
  }

  /** Bit 0x2 of `cali_data_flag_`: angle tables have been loaded. */
  predicate AnglesLoaded(caliDataFlag: bv32)
  {
    caliDataFlag & 0x2 != 0
  }

  /** `cali_data_flag_` with bit 0x2 set; the other bits are kept. */
  function MarkAnglesLoaded(caliDataFlag: bv32): (f: bv32)
    ensures AnglesLoaded(f)
    ensures f & !0x2 == caliDataFlag & !0x2
  {
    caliDataFlag | 0x2
  }

  /** The tables are written only when no calibration has been loaded (bit 0x2 clear) and the
      first vertical triple is not blank. */
  predicate CalibrationAccepted(caliDataFlag: bv32, pkt: seq<Byte>)
    requires |pkt| >= PKT_LEN
  {
    !AnglesLoaded(caliDataFlag) && !Blank(PitchCali(pkt))
  }

  // ---------------------------------------------------------------------------------------------
  // Construction
  // ---------------------------------------------------------------------------------------------

  /** The constructor's clamp of (max, min): a maximum outside [0.4 m, 200 m] becomes 200 m, then a
      minimum above 200 m or above the maximum becomes 0.4 m. */
  function ClampDistances(maxDistance: int, minDistance: int): (r: (int, int))
    ensures DISTANCE_FLOOR <= r.0 <= DISTANCE_LIMIT && r.1 <= r.0
    ensures r.0 != maxDistance ==> r.0 == DISTANCE_LIMIT
    ensures r.1 != minDistance ==> r.1 == DISTANCE_FLOOR
    ensures r.0 == maxDistance <==> DISTANCE_FLOOR <= maxDistance <= DISTANCE_LIMIT
    ensures r.1 == minDistance <==> minDistance <= DISTANCE_LIMIT && minDistance <= r.0
    ensures r == (maxDistance, minDistance) <==>
      DISTANCE_FLOOR <= maxDistance <= DISTANCE_LIMIT && minDistance <= maxDistance
  {
    var maxD := if maxDistance > DISTANCE_LIMIT || maxDistance < DISTANCE_FLOOR then DISTANCE_LIMIT else maxDistance;
    var minD := if minDistance > DISTANCE_LIMIT || minDistance > maxD then DISTANCE_FLOOR else minDistance;
    (maxD, minD)
  }

  /** The fields as the base decoder's constructor leaves them (the base decoder is not part of
      this model); distances in raw 5 mm counts, angles in hundredths of a degree. */
  datatype BaseState = BaseState(maxDistance: int, minDistance: int,
                                 startAngle: int, endAngle: int, angleFlag: bool,
                                 echoMode: int, rpm: int, pktsPerFrame: int, caliDataFlag: bv32,
                                 vertAngles: seq<real>, horiAngles: seq<real>)

  class Decoder32 {
    var maxDistance: int
    var minDistance: int
    var startAngle: int
    var endAngle: int
    var angleFlag: bool
    var echoMode: int
    var rpm: int
    var pktsPerFrame: int
    var caliDataFlag: bv32
    var vertAngleList: seq<real>
    var horiAngleList: seq<real>

    /** One angle per channel in each table, a positive rotation speed, and distance bounds as the
        constructor leaves them. */
    ghost predicate Valid()
      reads this
    {
      && |vertAngleList| == CHANNELS_PER_BLOCK && |horiAngleList| == CHANNELS_PER_BLOCK
      && rpm > 0
      && DISTANCE_FLOOR <= maxDistance <= DISTANCE_LIMIT && minDistance <= maxDistance
    }

    /** The state an MSOP decode reads. */
    function Snapshot(): Settings
      reads this
    {
      Settings(echoMode == ECHO_DUAL, minDistance, maxDistance, startAngle, endAngle, angleFlag,
               vertAngleList)
    }

    constructor (base: BaseState)
      requires |base.vertAngles| == CHANNELS_PER_BLOCK && |base.horiAngles| == CHANNELS_PER_BLOCK
      requires base.rpm > 0
      ensures Valid()
      ensures (maxDistance, minDistance) == ClampDistances(base.maxDistance, base.minDistance)
      ensures startAngle == base.startAngle && endAngle == base.endAngle && angleFlag == base.angleFlag
      ensures echoMode == base.echoMode && rpm == base.rpm && pktsPerFrame == base.pktsPerFrame
      ensures caliDataFlag == base.caliDataFlag
      ensures vertAngleList == base.vertAngles && horiAngleList == base.horiAngles
    {
      maxDistance := base.maxDistance;
      minDistance := base.minDistance;
      startAngle := base.startAngle;
      endAngle := base.endAngle;
      angleFlag := base.angleFlag;
      echoMode := base.echoMode;
      rpm := base.rpm;
      pktsPerFrame := base.pktsPerFrame;
      caliDataFlag := base.caliDataFlag;
      vertAngleList := base.vertAngles;
      horiAngleList := base.horiAngles;
      new;
      if maxDistance > DISTANCE_LIMIT || maxDistance < DISTANCE_FLOOR {
        maxDistance := DISTANCE_LIMIT;
      }
      if minDistance > DISTANCE_LIMIT || minDistance > maxDistance {
        minDistance := DISTANCE_FLOOR;
      }
    }

    /** `decodeMsopPkt`: a packet with the wrong id returns -2 and appends nothing; otherwise the
        points of the packet are appended to `vec` and the raw azimuth of block 0 is returned. */
    method DecodeMsopPkt(pkt: seq<Byte>, vec: seq<Point32>, cal: AzimuthCalibration)
      returns (ret: int, out: seq<Point32>, height: int)
      requires Valid() && |pkt| >= PKT_LEN
      ensures height == CHANNELS_PER_BLOCK
      ensures PacketId(pkt) != MSOP_ID ==> ret == ERR_WRONG_ID && out == vec
      ensures PacketId(pkt) == MSOP_ID ==>
        ret == BlockAzimuth(pkt, 0) && out == vec + MsopPoints(Snapshot(), cal, pkt)
    {
      height := CHANNELS_PER_BLOCK;
      if PacketId(pkt) != MSOP_ID {
        return ERR_WRONG_ID, vec, height;
      }
      var firstAzimuth := BlockAzimuth(pkt, 0);
      ghost var s, decoded := Snapshot(), DecodedBlocks(pkt);
      out := vec;
      var blk := 0;
      while blk < BLOCKS_PER_PKT
        invariant 0 <= blk <= decoded
        invariant out == vec + PointsOfBlocks(s, cal, pkt, blk)
      {
        if BlockId(pkt, blk) != BLOCK_ID {
          break;
        }
        assert blk < decoded;
        ghost var done, block := PointsOfBlocks(s, cal, pkt, blk), BlockPoints(s, cal, pkt, blk);
        out := DecodeBlock(pkt, blk, cal, out);
        assert out == vec + (done + block);
        assert PointsOfBlocks(s, cal, pkt, blk + 1) == done + block;
        blk := blk + 1;
      }
      assert blk == decoded;
      return firstAzimuth, out, height;
    }

    /** One block of `decodeMsopPkt`: its azimuth, the step to its neighbour's, then its
        channels. */
    method DecodeBlock(pkt: seq<Byte>, blk: nat, cal: AzimuthCalibration, vec: seq<Point32>)
      returns (out: seq<Point32>)
      requires Valid() && |pkt| >= PKT_LEN && blk < BLOCKS_PER_PKT
      ensures out == vec + BlockPoints(Snapshot(), cal, pkt, blk)
    {
      var azimuthBlk := BlockAzimuth(pkt, blk);
      var azimuthDiff := BlockAzimuthDiff(pkt, blk, azimuthBlk);
      out := DecodeBlockChannels(pkt, blk, azimuthBlk, azimuthDiff, cal, vec);
    }

    /** The azimuth step of block `blk` in `decodeMsopPkt`: taken towards the block `stride` ahead
        (2 in dual echo, 1 otherwise), or from the block `stride` behind for the last blocks. */
    method BlockAzimuthDiff(pkt: seq<Byte>, blk: nat, azimuthBlk: int) returns (azimuthDiff: int)
      requires |pkt| >= PKT_LEN && blk < BLOCKS_PER_PKT && azimuthBlk == BlockAzimuth(pkt, blk)
      ensures azimuthDiff == BlockDiff(pkt, blk, echoMode == ECHO_DUAL)
    {
      var aziPrev, aziCur;
      if echoMode == ECHO_DUAL {
        if blk < BLOCKS_PER_PKT - 2 {
          aziPrev := BlockAzimuth(pkt, blk + 2);
          aziCur := azimuthBlk;
        } else {
          aziPrev := azimuthBlk;
          aziCur := BlockAzimuth(pkt, blk - 2);
        }
      } else {
        if blk < BLOCKS_PER_PKT - 1 {
          aziPrev := BlockAzimuth(pkt, blk + 1);
          aziCur := azimuthBlk;
        } else {
          aziPrev := azimuthBlk;
          aziCur := BlockAzimuth(pkt, blk - 1);
        }
      }
      azimuthDiff := AzimuthDiff(aziPrev, aziCur);
    }

    /** The channel loop of `decodeMsopPkt` for block `blk`: one point per channel is appended. */
    method DecodeBlockChannels(pkt: seq<Byte>, blk: nat, azimuthBlk: int, azimuthDiff: int,
                               cal: AzimuthCalibration, vec: seq<Point32>) returns (out: seq<Point32>)
      requires Valid() && |pkt| >= PKT_LEN && blk < BLOCKS_PER_PKT
      requires azimuthBlk == BlockAzimuth(pkt, blk) && azimuthDiff == BlockDiff(pkt, blk, echoMode == ECHO_DUAL)
      ensures out == vec + BlockPoints(Snapshot(), cal, pkt, blk)
    {
      ghost var block := BlockPoints(Snapshot(), cal, pkt, blk);
      out := vec;
      var chan := 0;
      while chan < CHANNELS_PER_BLOCK
        invariant 0 <= chan <= CHANNELS_PER_BLOCK
        invariant out == vec + block[..chan]
      {
        var azimuthChannel := ChannelAzimuth(azimuthBlk, azimuthDiff, chan);
        var azimuthFinal := cal(azimuthChannel, chan);
        var intensity := ChannelIntensity(pkt, blk, chan);
        var distance := ChannelDistance(pkt, blk, chan);
        var angleHoriz := WrapAngle(azimuthFinal);
        var angleHorizOri := CppInt.Rem(CppInt.Trunc(azimuthChannel + FULL_TURN as real), FULL_TURN);
        var angleVert := VertIndex(vertAngleList[chan]);
        var point;
        if InDistance(minDistance, maxDistance, distance) && InSector(startAngle, endAngle, angleFlag, angleHoriz) {
          point := Point(distance, intensity, angleVert, angleHoriz, angleHorizOri);
        } else {
          point := NaNPoint;
        }
        assert block[chan] == DecodeChannel(Snapshot(), cal, pkt, blk, azimuthDiff, chan);
        assert point == block[chan];
        assert block[..chan + 1] == block[..chan] + [point];
        out := out + [point];
        chan := chan + 1;
      }
      assert block[..CHANNELS_PER_BLOCK] == block;
    }

    /** `decodeDifopPkt`: a packet with the wrong id returns -2 and changes nothing. Otherwise the
        echo mode and the frame length are set, and the angle tables are decoded from the
        calibration triples if no calibration was loaded yet and the triples are not blank, after
        which bit 0x2 of `caliDataFlag` is set. */
    method DecodeDifopPkt(pkt: seq<Byte>) returns (ret: int)
      requires Valid() && |pkt| >= PKT_LEN
      modifies this`echoMode, this`pktsPerFrame, this`caliDataFlag, this`vertAngleList, this`horiAngleList
      ensures Valid()
      ensures PacketId(pkt) != DIFOP_ID ==> ret == ERR_WRONG_ID && unchanged(this)
      ensures PacketId(pkt) == DIFOP_ID ==>
        && ret == 0
        && echoMode == EchoModeOf(ReturnMode(pkt))
        && pktsPerFrame == PktsPerFrame(echoMode == ECHO_DUAL, rpm)
        && rpm == old(rpm)
        && maxDistance == old(maxDistance) && minDistance == old(minDistance)
        && startAngle == old(startAngle) && endAngle == old(endAngle) && angleFlag == old(angleFlag)
        && if CalibrationAccepted(old(caliDataFlag), pkt) then
             && vertAngleList == VertTable(PitchCali(pkt), YawCali(pkt))
             && horiAngleList == HoriTable(PitchCali(pkt), YawCali(pkt))
             && caliDataFlag == MarkAnglesLoaded(old(caliDataFlag))
           else
             && vertAngleList == old(vertAngleList) && horiAngleList == old(horiAngleList)
             && caliDataFlag == old(caliDataFlag)
    {
      if PacketId(pkt) != DIFOP_ID {
        return ERR_WRONG_ID;
      }
      var returnMode := ReturnMode(pkt);
      if returnMode == 0x01 || returnMode == 0x02 {
        echoMode := returnMode;
      } else {
        echoMode := ECHO_DUAL;
      }
      var pktRate := PKT_RATE;
      if echoMode == ECHO_DUAL {
        pktRate := pktRate * 2;
      }
      pktsPerFrame := pktRate * 60 / rpm;

      if !AnglesLoaded(caliDataFlag) {
        var pVerCali := PitchCali(pkt);
        var pHoriCali := YawCali(pkt);
        var caliPresent := true;
        if (pVerCali[0] == 0x00 || pVerCali[0] == 0xFF)
          && (pVerCali[1] == 0x00 || pVerCali[1] == 0xFF)
          && (pVerCali[2] == 0x00 || pVerCali[2] == 0xFF)
        {
          caliPresent := false;
        }
        if caliPresent {
          vertAngleList, horiAngleList := DecodeAngleTables(pVerCali, pHoriCali, vertAngleList, horiAngleList);
          caliDataFlag := MarkAnglesLoaded(caliDataFlag);
        }
      }
      return 0;
    }

    /** `loadCalibrationFile` over the lines of the angle file (None: the file could not be
        opened, which changes nothing). Row r sets vertical entry r to 100 times its first field
        and horizontal entry r to 100 times its second; at most 32 rows are read. `threw` is true
        when `stof` rejected a field, which ends the load with the rows before it (and the
        vertical entry of that row, if only the second field was rejected) already stored. */
    method LoadCalibrationFile(file: Option<seq<string>>, stof: string -> Option<real>)
      returns (threw: bool)
      requires Valid()
      requires file.Some? ==> RowsReadable(FieldsOf(file.value), stof, 0)
      modifies this`vertAngleList, this`horiAngleList
      ensures Valid()
      ensures file.None? ==> !threw && unchanged(this)
      ensures file.Some? ==>
        var o := LoadRows(old(vertAngleList), old(horiAngleList), FieldsOf(file.value), stof, 0);
        vertAngleList == o.vert && horiAngleList == o.hori && threw == o.threw
    {
      if file.None? {
        return false;
      }
      var rows := SplitLines(file.value);
      var o := ReadAngleRows(vertAngleList, horiAngleList, rows, stof);
      vertAngleList, horiAngleList, threw := o.vert, o.hori, o.threw;
    }
  }

  /** A client's view of the load-once policy: after a DIFOP has loaded the tables, a second DIFOP
      (with any triples) still sets the echo mode but leaves the tables as the first one left them. */
  method DifopLoadsOnce(d: Decoder32, first: seq<Byte>, second: seq<Byte>)
    requires d.Valid() && |first| >= PKT_LEN && |second| >= PKT_LEN
    requires PacketId(first) == DIFOP_ID && PacketId(second) == DIFOP_ID
    requires CalibrationAccepted(d.caliDataFlag, first)
    modifies d
    ensures d.vertAngleList == VertTable(PitchCali(first), YawCali(first))
    ensures d.horiAngleList == HoriTable(PitchCali(first), YawCali(first))
    ensures d.echoMode == EchoModeOf(ReturnMode(second))
  {
    var r1 := d.DecodeDifopPkt(first);
    var r2 := d.DecodeDifopPkt(second);
  }
}
