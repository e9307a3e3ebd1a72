/** The integer angle logic of the first-generation RS32 decoder: which neighbouring block supplies
    the second azimuth sample, the wrapped azimuth step, per-channel interpolation, reduction of
    angles to table indices, and the distance / sector filter. Angles are in hundredths of a degree. */
module Rs32Angles {
  import CppInt

  /** One full turn in hundredths of a degree. */
  const FULL_TURN: int := 36000
  /** Firing-time step of one channel and firing duration of a block (RS32_CHANNEL_TOFFSET,
      RS32_FIRING_TDURATION). */
  const CHANNEL_TOFFSET: int := 3
  const FIRING_TDURATION: int := 50

  /** The block whose azimuth is paired with block `blk`, and whether the two samples swap roles.
      The neighbour is `stride` blocks ahead (1 in single echo, 2 in dual echo, where two blocks
      share one firing); the last `stride` blocks have nothing ahead and look back instead. */
  function Neighbour(blk: int, dual: bool): (r: (int, bool))
    requires 0 <= blk < 12
    ensures 0 <= r.0 < 12
    ensures var stride := if dual then 2 else 1;
      if blk + stride < 12 then r.0 == blk + stride && !r.1
      else r.0 == blk - stride && r.1
  {
    if dual then
      if blk < 12 - 2 then (blk + 2, false) else (blk - 2, true)
    else
      if blk < 12 - 1 then (blk + 1, false) else (blk - 1, true)
  }

  /** `(36000 + prev - cur) % 36000` with C++'s remainder: the forward angular step from `cur` to
      `prev` (the source calls the later sample `azi_prev`). */
  function AzimuthDiff(prev: int, cur: int): (d: int)
    ensures -FULL_TURN < d < FULL_TURN
    ensures 0 <= prev < FULL_TURN && 0 <= cur < FULL_TURN ==>
      0 <= d < FULL_TURN && (cur + d) % FULL_TURN == prev
  {
    CppInt.Rem(FULL_TURN + prev - cur, FULL_TURN)
  }

  /** The azimuth (a floating value in the source) at which channel `chan` of a block fires: the
      block azimuth plus the fraction 3 * (chan % 16) / 50 of the step to the next sample. */
  function ChannelAzimuth(azBlk: int, diff: int, chan: int): (a: real)
    requires 0 <= chan
    ensures 0 <= diff ==> azBlk as real <= a
    ensures 0 < diff ==> a < (azBlk + diff) as real
    ensures diff == 0 || chan % 16 == 0 <==> a == azBlk as real
  {
    azBlk as real + (diff * CHANNEL_TOFFSET * (chan % 16)) as real / FIRING_TDURATION as real
  }

  /** `(x + 36000) % 36000` with C++'s remainder, used for the horizontal table indices. */
  function WrapAngle(x: int): (a: int)
    ensures x >= -FULL_TURN ==> 0 <= a < FULL_TURN && a == x % FULL_TURN
    ensures x < -FULL_TURN ==> -FULL_TURN < a <= 0
  {
    CppInt.Rem(x + FULL_TURN, FULL_TURN)
  }

  /** `((int)v % 36000 + 36000) % 36000`: the vertical table index of a calibration value. */
  function VertIndex(v: real): (a: int)
    ensures 0 <= a < FULL_TURN
    ensures a == CppInt.Trunc(v) % FULL_TURN
  {
    CppInt.Rem(CppInt.Rem(CppInt.Trunc(v), FULL_TURN) + FULL_TURN, FULL_TURN)
  }

  /** The distance gate, inclusive at both ends, on raw 5 mm counts. */
  predicate InDistance(minDistance: int, maxDistance: int, d: int)
  {
    d <= maxDistance && d >= minDistance
  }

  /** The sector gate: `[start, end]` when `angleFlag` is set, otherwise the wrapped sector
      `[start, 36000] ∪ [0, end]`. */
  predicate InSector(startAngle: int, endAngle: int, angleFlag: bool, h: int)
  {
    (angleFlag && h >= startAngle && h <= endAngle)
    || (!angleFlag && ((h >= startAngle && h <= FULL_TURN) || (h >= 0 && h <= endAngle)))
  }

  /** Angle `h` lies on the arc swept counter-clockwise from `start` to `end`. */
  predicate OnArc(start: int, end: int, h: int)
  {
    (h - start) % FULL_TURN <= (end - start) % FULL_TURN
  }

  /** For a table angle, both forms of the sector test are "h lies on the arc from start to end":
      the plain interval when start <= end, the wrapped union when the sector crosses zero. A
      sector ending at 36000 is no arc: it is [start, 36000], which holds angle 0 only when it
      starts there. */
  lemma SectorIsArc(startAngle: int, endAngle: int, angleFlag: bool, h: int)
    requires 0 <= startAngle < FULL_TURN && 0 <= endAngle <= FULL_TURN && 0 <= h < FULL_TURN
    requires angleFlag <==> startAngle <= endAngle
    ensures endAngle < FULL_TURN ==>
      (InSector(startAngle, endAngle, angleFlag, h) <==> OnArc(startAngle, endAngle, h))
    ensures endAngle == FULL_TURN ==> (InSector(startAngle, endAngle, angleFlag, h) <==> startAngle <= h)
  {
    if h >= startAngle {
      assert (h - startAngle) % FULL_TURN == h - startAngle;
    } else {
      assert (h - startAngle) % FULL_TURN == h - startAngle + FULL_TURN;
    }
    if endAngle < FULL_TURN {
      if endAngle >= startAngle {
        assert (endAngle - startAngle) % FULL_TURN == endAngle - startAngle;
      } else {
        assert (endAngle - startAngle) % FULL_TURN == endAngle - startAngle + FULL_TURN;
      }
    }
  }

  /** The distance gate is inclusive: both bounds pass, one count beyond either fails. */
  lemma DistanceBoundsInclusive(minDistance: int, maxDistance: int)
    requires minDistance <= maxDistance
    ensures InDistance(minDistance, maxDistance, minDistance)
    ensures InDistance(minDistance, maxDistance, maxDistance)
    ensures !InDistance(minDistance, maxDistance, minDistance - 1)
    ensures !InDistance(minDistance, maxDistance, maxDistance + 1)
  {
  }

  /** Channels c and c + 16 fire at the same interpolated azimuth. */
  lemma ChannelAzimuthHalves(azBlk: int, diff: int, chan: int)
    requires 0 <= chan < 16
    ensures ChannelAzimuth(azBlk, diff, chan) == ChannelAzimuth(azBlk, diff, chan + 16)
  {
  }

  /** The untruncated channel azimuth `azimuth_channel + 36000` is positive for any raw block
      azimuth and any step `AzimuthDiff` can produce, so its horizontal index `angle_horiz_ori`
      is always a valid table index. */
  lemma HorizOriInRange(azBlk: int, diff: int, chan: int)
    requires 0 <= azBlk && -FULL_TURN < diff < FULL_TURN && 0 <= chan
    ensures ChannelAzimuth(azBlk, diff, chan) + FULL_TURN as real > 0.0
    ensures 0 <= CppInt.Rem(CppInt.Trunc(ChannelAzimuth(azBlk, diff, chan) + FULL_TURN as real), FULL_TURN) < FULL_TURN
  {
    var k := chan % 16;
    assert 0 <= k <= 15;
    var p := diff * CHANNEL_TOFFSET * k;
    assert p > -FULL_TURN * 45 by {
      if diff < 0 {
        assert diff * k >= diff * 15;
      }
    }
  }
}
