/** The second-generation RS32 decoder (`DecoderRS32`): a constant description of the device, the
    echo-mode mapping, and packet handlers that report errors through a callback and go on
    decoding. The packet traverser, the channel-angle object, the distance and scan windows and the
    base decoder's `decodeDifopCommon` are not part of this model; they enter as parameters. */
module DecoderRS32 {
  import opened Bytes
  import opened Rs32Layout

  /** The constant part of the decoder description (`RSDecoderConstParam`). */
  datatype ConstParam = ConstParam(
    msopLen: nat, difopLen: nat, msopIdLen: nat, difopIdLen: nat,
    msopId: seq<Byte>, difopId: seq<Byte>, blockId: seq<Byte>,
    blocksPerPkt: nat, channelsPerBlock: nat,
    disResolution: real,
    firingTs: seq<real>, blockDuration: real,
    rx: real, ry: real, rz: real)

  /** The ids and the distance unit of the device description. */
  const MSOP_ID_BYTES: seq<Byte> := [0x55, 0xAA, 0x05, 0x0A, 0x5A, 0xA5, 0x50, 0xA0]
  const DIFOP_ID_BYTES: seq<Byte> := [0xA5, 0xFF, 0x00, 0x5A, 0x11, 0x11, 0x55, 0x55]
  const BLOCK_ID_BYTES: seq<Byte> := [0xFF, 0xEE]
  const DIS_RESOLUTION: real := 0.005

  /** Firing offset between two consecutive channels of the first 15, and between channel c and
      channel c + 16, in microseconds. */
  const FIRING_STEP: real := 2.88
  const FIRING_HALF_STEP: real := 1.44

  /** The firing time of each channel within a block and the block's duration, in microseconds. */
  const FIRING_TS: seq<real> :=
    [ 0.00,  2.88,  5.76,  8.64, 11.52, 14.40, 17.28, 20.16,
     23.04, 25.92, 28.80, 31.68, 34.56, 37.44, 40.32, 44.64,
      1.44,  4.32,  7.20, 10.08, 12.96, 15.84, 18.72, 21.60,
     24.48, 27.36, 30.24, 33.12, 36.00, 38.88, 41.76, 46.08]
  const BLOCK_DURATION: real := 55.52

  /** The firing table has one entry per channel and every channel fires within the block;
      the first 15 channels fire 2.88 us apart from time 0, and channel c + 16 fires 1.44 us
      after channel c. */
  lemma FiringTimes()
    ensures |FIRING_TS| == CHANNELS_PER_BLOCK && FIRING_TS[0] == 0.0
    ensures forall c :: 0 <= c < |FIRING_TS| ==> 0.0 <= FIRING_TS[c] < BLOCK_DURATION
    ensures forall c :: 0 <= c < 15 ==> FIRING_TS[c] == c as real * FIRING_STEP
    ensures forall c :: 0 <= c < 16 ==> FIRING_TS[c + 16] == FIRING_TS[c] + FIRING_HALF_STEP
  {
  }

  /** `getConstParam`. */
  function GetConstParam(): (p: ConstParam)
    ensures p.msopLen == PKT_LEN && p.difopLen == PKT_LEN
    ensures p.msopIdLen == |p.msopId| == 8 && p.difopIdLen == |p.difopId| == 8 && |p.blockId| == 2
    ensures p.msopId == MSOP_ID_BYTES && p.difopId == DIFOP_ID_BYTES && p.blockId == BLOCK_ID_BYTES
    ensures p.blocksPerPkt == BLOCKS_PER_PKT && p.channelsPerBlock == CHANNELS_PER_BLOCK
    ensures p.disResolution == DIS_RESOLUTION
    ensures p.firingTs == FIRING_TS && p.blockDuration == BLOCK_DURATION
    ensures p.rx == 0.03997 && p.ry == -0.01087 && p.rz == 0.0
  {
    ConstParam(
      1248, 1248, 8, 8,
      MSOP_ID_BYTES,
      DIFOP_ID_BYTES,
      BLOCK_ID_BYTES,
      12, 32,
      DIS_RESOLUTION,
      FIRING_TS,
      BLOCK_DURATION,
      0.03997, -0.01087, 0.0)
  }

  datatype EchoMode = EchoSingle | EchoDual

  /** `getEchoMode`: return mode 0x00 is dual echo, every other octet (0x01, 0x02 and any
      unknown value) single echo. */
  function GetEchoMode(mode: Byte): (m: EchoMode)
    ensures m == EchoDual <==> mode == 0x00
  {
    if mode == 0x00 then EchoDual else EchoSingle
  }

  /** The error codes this decoder hands to its callback. */
  datatype ErrCode = WrongPktLength | WrongPktHeader

  /** One step of the packet traverser (not part of this model): block and channel, the
      horizontal angle it computed, and the channel's timestamp. */
  datatype Step = Step(blk: nat, chan: nat, angleHoriz: int, chanTs: real)

  predicate StepsInRange(steps: seq<Step>)
  {
    forall i :: 0 <= i < |steps| ==> steps[i].blk < BLOCKS_PER_PKT && steps[i].chan < CHANNELS_PER_BLOCK
  }

  /** A point of the cloud. A measured point keeps what its x, y and z are computed from
      (distance in metres and the vertical, calibrated horizontal and traverser horizontal angles);
      a placeholder has NaN coordinates and intensity 0. Both carry ring and timestamp. */
  datatype CloudPoint =
    | Measured(distance: real, intensity: Byte, angleVert: int, angleHorizFinal: int, angleHoriz: int,
               ring: int, timestamp: real)
    | Placeholder(ring: int, timestamp: real)

  /** The collaborators a measurement packet is decoded with: the channel-angle object `A`
      (`vertAdjust`, `horizAdjust`, `toUserChan`) and the distance and scan windows (`in`). */
  datatype Ops<-A> = Ops(vertAdjust: (A, int) -> int, horizAdjust: (A, int, int) -> int,
                        toUserChan: (A, int) -> int,
                        distanceIn: real -> bool, scanIn: int -> bool)

  /** The distance of a channel reading in metres. */
  function DistanceOf(pkt: seq<Byte>, blk: nat, chan: nat): (d: real)
    requires |pkt| >= PKT_LEN && blk < BLOCKS_PER_PKT && chan < CHANNELS_PER_BLOCK
    ensures 0.0 <= d <= 65535.0 * DIS_RESOLUTION
  {
    ChannelDistance(pkt, blk, chan) as real * DIS_RESOLUTION
  }

  /** The channel of step `st` passes both windows. */
  predicate Passes<A>(ops: Ops<A>, angles: A, pkt: seq<Byte>, st: Step)
    requires |pkt| >= PKT_LEN && st.blk < BLOCKS_PER_PKT && st.chan < CHANNELS_PER_BLOCK
  {
    ops.distanceIn(DistanceOf(pkt, st.blk, st.chan))
    && ops.scanIn(ops.horizAdjust(angles, st.chan, st.angleHoriz))
  }

  /** What one traverser step appends: a measured point when it passes both windows, otherwise a
      placeholder unless dense points are asked for. */
  function EmitStep<A>(ops: Ops<A>, angles: A, dense: bool, pkt: seq<Byte>, st: Step): seq<CloudPoint>
    requires |pkt| >= PKT_LEN && st.blk < BLOCKS_PER_PKT && st.chan < CHANNELS_PER_BLOCK
  {
    var ring := ops.toUserChan(angles, st.chan);
    if Passes(ops, angles, pkt, st) then
      [Measured(DistanceOf(pkt, st.blk, st.chan), ChannelIntensity(pkt, st.blk, st.chan),
                ops.vertAdjust(angles, st.chan), ops.horizAdjust(angles, st.chan, st.angleHoriz),
                st.angleHoriz, ring, st.chanTs)]
    else if !dense then [Placeholder(ring, st.chanTs)]
    else []
  }

  /** The emission policy of one step: at most one point; exactly one unless the step fails a
      window in dense mode; the point carries the channel's ring and the step's timestamp, and it
      has coordinates exactly when the step passes both windows, computed from the channel's
      big-endian distance times 0.005 and its intensity. */
  lemma EmitStepSpec<A>(ops: Ops<A>, angles: A, dense: bool, pkt: seq<Byte>, st: Step)
    requires |pkt| >= PKT_LEN && st.blk < BLOCKS_PER_PKT && st.chan < CHANNELS_PER_BLOCK
    ensures var ps := EmitStep(ops, angles, dense, pkt, st);
      && |ps| <= 1
      && (|ps| == 1 <==> Passes(ops, angles, pkt, st) || !dense)
      && (forall p :: p in ps ==>
            p.ring == ops.toUserChan(angles, st.chan) && p.timestamp == st.chanTs
            && (p.Measured? <==> Passes(ops, angles, pkt, st)))
      && (forall p :: p in ps && p.Measured? ==>
            p.distance == ChannelDistance(pkt, st.blk, st.chan) as real * 0.005
            && p.intensity == ChannelIntensity(pkt, st.blk, st.chan)
            && p.angleVert == ops.vertAdjust(angles, st.chan)
            && p.angleHorizFinal == ops.horizAdjust(angles, st.chan, st.angleHoriz)
            && p.angleHoriz == st.angleHoriz)
  {
  }

  /** Everything the first n steps of a measurement packet append to the cloud, step after step. */
  function Emitted<A>(ops: Ops<A>, angles: A, dense: bool, pkt: seq<Byte>, steps: seq<Step>, n: nat): seq<CloudPoint>
    requires |pkt| >= PKT_LEN && StepsInRange(steps) && n <= |steps|
  {
    if n == 0 then []
    else Emitted(ops, angles, dense, pkt, steps, n - 1) + EmitStep(ops, angles, dense, pkt, steps[n - 1])
  }

  /** The block ids the first n steps of a measurement packet are checked against: one header
      error per step whose block id differs from 0xFF 0xEE. */
  function HeaderErrors(pkt: seq<Byte>, steps: seq<Step>, n: nat): seq<ErrCode>
    requires |pkt| >= PKT_LEN && StepsInRange(steps) && n <= |steps|
  {
    if n == 0 then []
    else HeaderErrors(pkt, steps, n - 1) + StepErrors(pkt, steps[n - 1])
  }

  /** The error one step reports: a header error when its block id is not 0xFF 0xEE. */
  function StepErrors(pkt: seq<Byte>, st: Step): seq<ErrCode>
    requires |pkt| >= PKT_LEN && st.blk < BLOCKS_PER_PKT
  {
    if BlockIdBytes(pkt, st.blk) != BLOCK_ID_BYTES then [WrongPktHeader] else []
  }

  /** Appending what step i emits to everything the first i steps emitted gives the first i + 1. */
  lemma EmittedNext<A>(ops: Ops<A>, angles: A, dense: bool, pkt: seq<Byte>, steps: seq<Step>, i: nat,
                       base: seq<CloudPoint>, points: seq<CloudPoint>, points': seq<CloudPoint>)
    requires |pkt| >= PKT_LEN && StepsInRange(steps) && i < |steps|
    requires points == base + Emitted(ops, angles, dense, pkt, steps, i)
    requires points' == points + EmitStep(ops, angles, dense, pkt, steps[i])
    ensures points' == base + Emitted(ops, angles, dense, pkt, steps, i + 1)
  {
    var e := EmitStep(ops, angles, dense, pkt, steps[i]);
    assert (base + Emitted(ops, angles, dense, pkt, steps, i)) + e == base + (Emitted(ops, angles, dense, pkt, steps, i) + e);
  }

  /** Likewise for the header errors. */
  lemma HeaderErrorsNext(pkt: seq<Byte>, steps: seq<Step>, i: nat,
                         base: seq<ErrCode>, reported: seq<ErrCode>, reported': seq<ErrCode>)
    requires |pkt| >= PKT_LEN && StepsInRange(steps) && i < |steps|
    requires reported == base + HeaderErrors(pkt, steps, i)
    requires reported' == reported + StepErrors(pkt, steps[i])
    ensures reported' == base + HeaderErrors(pkt, steps, i + 1)
  {
    var e := StepErrors(pkt, steps[i]);
    assert (base + HeaderErrors(pkt, steps, i)) + e == base + (HeaderErrors(pkt, steps, i) + e);
  }

  /** Without dense points every step appends exactly one point; with dense points at most one,
      and only measured points. */
  lemma {:induction false} EmittedCount<A>(ops: Ops<A>, angles: A, dense: bool, pkt: seq<Byte>,
                                           steps: seq<Step>, n: nat)
    requires |pkt| >= PKT_LEN && StepsInRange(steps) && n <= |steps|
    ensures !dense ==> |Emitted(ops, angles, dense, pkt, steps, n)| == n
    ensures |Emitted(ops, angles, dense, pkt, steps, n)| <= n
    ensures dense ==> forall p :: p in Emitted(ops, angles, dense, pkt, steps, n) ==> p.Measured?
  {
    if n > 0 {
      EmittedCount(ops, angles, dense, pkt, steps, n - 1);
      EmitStepSpec(ops, angles, dense, pkt, steps[n - 1]);
    }
  }

  /** Without dense points, point k of the packet belongs to step k: it has that step's ring and
      timestamp, and it is measured exactly when the step passes both windows, whether or not
      the step's block id was wrong. */
  lemma {:induction false} SparseEmittedAt<A>(ops: Ops<A>, angles: A, pkt: seq<Byte>, steps: seq<Step>,
                                              n: nat, k: nat)
    requires |pkt| >= PKT_LEN && StepsInRange(steps) && k < n <= |steps|
    ensures |Emitted(ops, angles, false, pkt, steps, n)| == n
    ensures var p := Emitted(ops, angles, false, pkt, steps, n)[k];
      p.ring == ops.toUserChan(angles, steps[k].chan) && p.timestamp == steps[k].chanTs
      && (p.Measured? <==> Passes(ops, angles, pkt, steps[k]))
  {
    var prev, last := Emitted(ops, angles, false, pkt, steps, n - 1), EmitStep(ops, angles, false, pkt, steps[n - 1]);
    EmittedCount(ops, angles, false, pkt, steps, n - 1);
    EmitStepSpec(ops, angles, false, pkt, steps[n - 1]);
    assert Emitted(ops, angles, false, pkt, steps, n) == prev + last;
    assert |prev| == n - 1 && |last| == 1;
    if k < n - 1 {
      SparseEmittedAt(ops, angles, pkt, steps, n - 1, k);
      assert (prev + last)[k] == prev[k];
    } else {
      assert (prev + last)[k] == last[0];
      assert last[0] in last;
    }
  }

  /** A header error is reported for the first n steps exactly when one of them reads a block
      whose id is wrong, and never more than once per step. */
  lemma {:induction false} HeaderErrorsSpec(pkt: seq<Byte>, steps: seq<Step>, n: nat)
    requires |pkt| >= PKT_LEN && StepsInRange(steps) && n <= |steps|
    ensures |HeaderErrors(pkt, steps, n)| <= n
    ensures HeaderErrors(pkt, steps, n) == [] <==>
      forall i :: 0 <= i < n ==> BlockIdBytes(pkt, steps[i].blk) == BLOCK_ID_BYTES
  {
    if n > 0 {
      HeaderErrorsSpec(pkt, steps, n - 1);
      var prev := HeaderErrors(pkt, steps, n - 1);
      if BlockIdBytes(pkt, steps[n - 1].blk) == BLOCK_ID_BYTES {
        assert HeaderErrors(pkt, steps, n) == prev + [];
        assert prev + [] == prev;
      } else {
        assert HeaderErrors(pkt, steps, n) == prev + [WrongPktHeader];
        assert |prev + [WrongPktHeader]| == |prev| + 1;
      }
    }
  }

  /** The errors a device-info packet of `size` octets reports, in order: the length, then the id. */
  function DifopErrors(pkt: seq<Byte>, size: nat): (es: seq<ErrCode>)
    requires |pkt| >= PKT_LEN
    ensures WrongPktLength in es <==> size != PKT_LEN
    ensures WrongPktHeader in es <==> PacketIdBytes(pkt) != DIFOP_ID_BYTES
    ensures |es| <= 2
    ensures size != PKT_LEN ==> es[0] == WrongPktLength
    ensures PacketIdBytes(pkt) != DIFOP_ID_BYTES ==> es[|es| - 1] == WrongPktHeader
  {
    (if size != PKT_LEN then [WrongPktLength] else [])
    + (if PacketIdBytes(pkt) != DIFOP_ID_BYTES then [WrongPktHeader] else [])
  }

  /** The decoder's state. `A` is the channel-angle object; `cloud` is `point_cloud_->points`
      and `errors` every code handed to the error callback so far. */
  class DecoderRS32<A> {
    const constParam: ConstParam
    const densePoints: bool
    var echoMode: EchoMode
    var difopReady: bool
    var chanAngles: A
    var cloud: seq<CloudPoint>
    var errors: seq<ErrCode>

    /** The description fields the packet handlers consult are those of `getConstParam`. */
    predicate Valid()
    {
      && constParam.difopLen == PKT_LEN && constParam.difopId == DIFOP_ID_BYTES
      && constParam.blockId == BLOCK_ID_BYTES && constParam.disResolution == DIS_RESOLUTION
    }

    /** `DecoderRS32(param, excb)`: the base decoder (not part of this model) starts from an
        empty cloud with no device information and the given echo mode and channel angles. */
    constructor (densePoints: bool, echoMode: EchoMode, chanAngles: A)
      ensures constParam == GetConstParam() && Valid() && this.densePoints == densePoints
      ensures this.echoMode == echoMode && this.chanAngles == chanAngles
      ensures !difopReady && cloud == [] && errors == []
    {
      constParam := GetConstParam();
      this.densePoints := densePoints;
      this.echoMode := echoMode;
      this.chanAngles := chanAngles;
      difopReady := false;
      cloud := [];
      errors := [];
    }

    /** `processDifopPkt` on a buffer of `size` octets: a wrong length and a wrong id are reported
        and processing goes on. The echo mode is always taken from the packet; `difopCommon` gives
        `difop_ready_` after the base decoder's `decodeDifopCommon`, and the channel angles are
        loaded (by `loadFromDifop`) only when that is false. */
    method ProcessDifopPkt(pkt: seq<Byte>, size: nat, difopCommon: (bool, seq<Byte>) -> bool,
                           loadFromDifop: (A, seq<Byte>, seq<Byte>) -> A)
      requires Valid() && |pkt| >= PKT_LEN
      modifies this
      ensures errors == old(errors) + DifopErrors(pkt, size)
      ensures echoMode == GetEchoMode(ReturnMode(pkt))
      ensures difopReady == difopCommon(old(difopReady), pkt)
      ensures chanAngles == if difopReady then old(chanAngles)
                            else loadFromDifop(old(chanAngles), PitchCali(pkt), YawCali(pkt))
      ensures cloud == old(cloud)
    {
      if size != constParam.difopLen {
        errors := errors + [WrongPktLength];
      }
      if constParam.difopId != PacketIdBytes(pkt) {
        errors := errors + [WrongPktHeader];
      }
      echoMode := GetEchoMode(ReturnMode(pkt));
      difopReady := difopCommon(difopReady, pkt);
      if !difopReady {
        chanAngles := loadFromDifop(chanAngles, PitchCali(pkt), YawCali(pkt));
      }
    }

    /** `decodeMsopPkt` over the traverser's steps: each step reports a header error when its
        block id is wrong and still appends what `EmitStep` says. */
    method DecodeMsopPkt(pkt: seq<Byte>, steps: seq<Step>, ops: Ops<A>)
      requires Valid() && |pkt| >= PKT_LEN && StepsInRange(steps)
      modifies this`cloud, this`errors
      ensures cloud == old(cloud) + Emitted(ops, chanAngles, densePoints, pkt, steps, |steps|)
      ensures errors == old(errors) + HeaderErrors(pkt, steps, |steps|)
    {
      cloud, errors := DecodeSteps(constParam, chanAngles, densePoints, pkt, steps, ops, cloud, errors);
    }
  }

  /** The traverser loop of `decodeMsopPkt`, from the decoder's description, channel angles and
      dense-points setting, appending to the cloud and the reported errors so far. */
  method DecodeSteps<A>(param: ConstParam, angles: A, dense: bool, pkt: seq<Byte>, steps: seq<Step>,
                        ops: Ops<A>, cloud: seq<CloudPoint>, errors: seq<ErrCode>)
    returns (cloud': seq<CloudPoint>, errors': seq<ErrCode>)
    requires param.blockId == BLOCK_ID_BYTES && param.disResolution == DIS_RESOLUTION
    requires |pkt| >= PKT_LEN && StepsInRange(steps)
    ensures cloud' == cloud + Emitted(ops, angles, dense, pkt, steps, |steps|)
    ensures errors' == errors + HeaderErrors(pkt, steps, |steps|)
  {
    cloud', errors' := cloud, errors;
    var i := 0;
    while i < |steps|
      invariant 0 <= i <= |steps|
      invariant cloud' == cloud + Emitted(ops, angles, dense, pkt, steps, i)
      invariant errors' == errors + HeaderErrors(pkt, steps, i)
    {
      var points, reported := DecodeStep(param, angles, dense, pkt, steps[i], ops, cloud', errors');
      EmittedNext(ops, angles, dense, pkt, steps, i, cloud, cloud', points);
      HeaderErrorsNext(pkt, steps, i, errors, errors', reported);
      cloud', errors', i := points, reported, i + 1;
    }
  }

  /** The body of the traverser loop for one step. */
  method DecodeStep<A>(param: ConstParam, angles: A, dense: bool, pkt: seq<Byte>, st: Step, ops: Ops<A>,
                       cloud: seq<CloudPoint>, errors: seq<ErrCode>)
    returns (cloud': seq<CloudPoint>, errors': seq<ErrCode>)
    requires param.blockId == BLOCK_ID_BYTES && param.disResolution == DIS_RESOLUTION
    requires |pkt| >= PKT_LEN && st.blk < BLOCKS_PER_PKT && st.chan < CHANNELS_PER_BLOCK
    ensures cloud' == cloud + EmitStep(ops, angles, dense, pkt, st)
    ensures errors' == errors + StepErrors(pkt, st)
  {
    var blk, chan := st.blk, st.chan;
    errors' := errors;
    if param.blockId != BlockIdBytes(pkt, blk) {
      errors' := errors' + [WrongPktHeader];
    }
    var distance := ChannelDistance(pkt, blk, chan) as real * param.disResolution;
    var intensity := ChannelIntensity(pkt, blk, chan);
    var angleVert := ops.vertAdjust(angles, chan);
    var angleHorizFinal := ops.horizAdjust(angles, chan, st.angleHoriz);
    cloud' := cloud;
    if ops.distanceIn(distance) && ops.scanIn(angleHorizFinal) {
      cloud' := cloud' + [Measured(distance, intensity, angleVert, angleHorizFinal, st.angleHoriz,
                                   ops.toUserChan(angles, chan), st.chanTs)];
    } else if !dense {
      cloud' := cloud' + [Placeholder(ops.toUserChan(angles, chan), st.chanTs)];
    }
  }
}
