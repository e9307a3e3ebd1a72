# RS32 packet decoding, modelled in Dafny

This project models the two generations of the RoboSense RS32 LiDAR decoder and proves
properties of them.

- `Decoder32` is the first generation. It turns MSOP (measurement) packets into points. It
  takes the echo mode, the frame length and, once, the per-channel vertical and horizontal
  calibration angles from DIFOP (device information) packets. It can also load those angles
  from a comma-separated angle file.
- `DecoderRS32` is the second generation. It carries a constant device description. Its packet
  handlers report errors through a callback and then go on decoding. The packet traverser
  yields one (block, channel) step at a time. A step whose reading passes the distance and scan
  windows appends a measured point. A step that fails them appends a placeholder, or nothing when
  dense points are asked for.

Both generations read the same 1248-octet packet layout. Module by module:

| file | module | contents |
|---|---|---|
| `bytes.dfy` | `Bytes` | octets, little-endian (host) reads and big-endian 16-bit reads |
| `cpp_int.dfy` | `CppInt` | C++ `%` and the C++ float-to-`int` conversion, both truncating toward zero |
| `rs32_layout.dfy` | `Rs32Layout` | field offsets of MSOP and DIFOP packets |
| `rs32_angles.dfy` | `Rs32Angles` | the integer angle arithmetic of the first generation and its distance and sector filter |
| `rs32_calibration.dfy` | `Rs32Calibration` | calibration triples (sign octet plus 16-bit magnitude) with their encoder, and the angle file split into fields and loaded row by row |
| `decoder32.dfy` | `Decoder32` | the first-generation decoder: a class whose methods update its fields as the C++ object does |
| `decoder_rs32.dfy` | `DecoderRS32` | the second-generation decoder, with the traverser, the channel-angle object and the distance and scan windows as parameters |
| `generations.dfy` | `Generations` | how the two generations' id tests and echo-mode mappings relate |

Floating values are modelled as exact `real`s. Integers are unbounded, and every C++ remainder
and truncating cast is written out through `CppInt`. Distances in the first generation are kept
in raw 5 mm counts, so 200 m is 40000 and 0.4 m is 80.

Three behaviours of the code are easy to misread, and the model states them as the code has them:

- A calibration sign octet other than 0 or 1 does not make the angle positive. The running sign
  `neg` keeps its previous value, and it is one variable shared by the vertical and horizontal
  triples (`Rs32Calibration.CarriedSignIsLatestDecisive`).
- The two generations map return modes to echo modes differently. The first treats every value
  other than 1 and 2 as dual echo. The second treats only 0 as dual echo
  (`Generations.EchoMappingsAgree`).
- With an integer `rpm_`, `pkts_per_frame_` is computed by integer division before `ceil` is
  applied, so it is rounded down (`Decoder32.PktsPerFrame`).

## Model

| member | source | states |
|---|---|---|
| `Bytes.ReadBE16` | rs_driver/driver/decoder/decoder_32.hpp:174 | the 16-bit network-order field: high octet `v / 256` first, low octet `v % 256` second, value below 65536 |
| `Bytes.LittleEndian` | rs_driver/driver/decoder/decoder_32.hpp:157 | the host-order (little-endian) value of an octet string, below 256 to the power of its length; `LittleEndianInjective` and `LittleEndianRoundTrip` make it a bijection with its octets |
| `Bytes.LittleEndianInjective` | rs_driver/driver/decoder/decoder_32.hpp:157 | two octet strings of equal length that read as the same host-order integer are equal, so comparing ids as integers is comparing octets |
| `Bytes.LittleEndianRoundTrip` | rs_driver/driver/decoder/decoder_32.hpp:31-33 | reading back the little-endian octets of a constant gives the constant |
| `Bytes.LittleEndianEquals` | rs_driver/driver/decoder/decoder_32.hpp:170 | a host-order field equals a constant exactly when its octets are the constant's little-endian octets |
| `CppInt.Rem` | rs_driver/driver/decoder/decoder_32.hpp:204 | C++ remainder: `a == b * q + r` with the quotient truncated toward zero, and `r` has the sign of `a` |
| `CppInt.Trunc` | rs_driver/driver/decoder/decoder_32.hpp:222-223 | the `(int)` cast: the largest integer not above a non-negative value, and the smallest not below a non-positive one |
| `Rs32Layout.LayoutFits` | rs_driver/driver/decoder/decoder_32.hpp:41-102 | the MSOP header is 42 octets and a block 100; the 12 blocks plus a 6-octet tail end exactly at 1248; the calibration triples start at 468 and end 588 octets before the end |
| `Rs32Layout.BlockAzimuth` | rs_driver/driver/decoder/decoder_32.hpp:174 | the block azimuth is a 16-bit value read in network order |
| `Rs32Layout.ChannelDistance` | rs_driver/driver/decoder/decoder_32.hpp:216 | the channel distance is a 16-bit value read in network order |
| `Rs32Layout.ChannelIntensity` | rs_driver/driver/decoder/decoder_32.hpp:215 | the intensity is the third octet of a channel reading, after its two distance octets; `ChannelStart` keeps the reading inside its block and `LayoutFits` the block inside the packet |
| `Rs32Layout.ReturnMode` | rs_driver/driver/decoder/decoder_32.hpp:278 | the DIFOP return mode is the single octet at offset 300, before the calibration triples (`LayoutFits`) |
| `Rs32Layout.PitchCali` | rs_driver/driver/decoder/decoder_32.hpp:299 | the vertical calibration triples are 96 octets, starting at offset 468 (`LayoutFits`) |
| `Rs32Layout.YawCali` | rs_driver/driver/decoder/decoder_32.hpp:309 | the horizontal calibration triples are the 96 octets right after the vertical ones, followed by 586 reserved octets and the tail (`LayoutFits`) |
| `Rs32Angles.Neighbour` | rs_driver/driver/decoder/decoder_32.hpp:177-202 | the second azimuth sample comes from the block 2 ahead in dual echo and 1 ahead otherwise; the last blocks look back instead and swap the roles of the two samples |
| `Rs32Angles.AzimuthDiff` | rs_driver/driver/decoder/decoder_32.hpp:204 | for two proper azimuths, the step lies in [0, 36000) and leads from the current azimuth to the later one modulo a full turn; otherwise it lies strictly within one turn either way |
| `Rs32Angles.ChannelAzimuth` | rs_driver/driver/decoder/decoder_32.hpp:210 | with a non-negative step, the channel azimuth is at least the block azimuth and (for a positive step) below the block azimuth plus the step; that sum is the later sample only modulo a full turn, and for the last blocks the step is borrowed from the earlier block, so the channels lie beyond both samples there; it equals the block azimuth exactly for channels 0 and 16 or a zero step |
| `Rs32Angles.WrapAngle` | rs_driver/driver/decoder/decoder_32.hpp:220 | from -36000 up the result is the angle reduced into [0, 36000) (-36000 itself gives 0); below -36000 it is negative or zero |
| `Rs32Angles.VertIndex` | rs_driver/driver/decoder/decoder_32.hpp:223 | the vertical index is the truncated calibration value reduced into [0, 36000) |
| `Rs32Angles.SectorIsArc` | rs_driver/driver/decoder/decoder_32.hpp:227 | for a start and an angle in [0, 36000) and an end below 36000, the sector test is exactly "on the arc from start to end": the plain interval or the wrapped union; a sector ending at 36000 is [start, 36000], so it holds angle 0 only when it starts at 0 |
| `Rs32Angles.DistanceBoundsInclusive` | rs_driver/driver/decoder/decoder_32.hpp:227 | the distance gate accepts both bounds and rejects one count beyond either |
| `Rs32Angles.InDistance` | rs_driver/driver/decoder/decoder_32.hpp:227 | the distance gate of the filter: the raw distance lies between the bounds, both inclusive (its boundary behaviour is `DistanceBoundsInclusive`) |
| `Rs32Angles.InSector` | rs_driver/driver/decoder/decoder_32.hpp:227 | the sector gate of the filter: `[start, end]` when the angle flag is set, otherwise `[start, 36000]` together with `[0, end]` (proved to be the arc test by `SectorIsArc`) |
| `Rs32Angles.ChannelAzimuthHalves` | rs_driver/driver/decoder/decoder_32.hpp:210 | channels c and c + 16 are given the same azimuth |
| `Rs32Angles.HorizOriInRange` | rs_driver/driver/decoder/decoder_32.hpp:222 | `azimuth_channel + 36000` is positive for every block azimuth and step, so `angle_horiz_ori` is always a valid table index |
| `Rs32Calibration.CarriedSign` | rs_driver/driver/decoder/decoder_32.hpp:308-339 | the running sign after any sign octet is +1 or -1 |
| `Rs32Calibration.UpdateSign` | rs_driver/driver/decoder/decoder_32.hpp:316-323 | one step of the running sign, also at lines 330-337: sign octet 0 gives +1, 1 gives -1, any other octet keeps the previous sign |
| `Rs32Calibration.CarriedSignIsLatestDecisive` | rs_driver/driver/decoder/decoder_32.hpp:316-323 | the running sign is that of the latest sign octet that was 0 or 1, whether that octet was in a vertical or a horizontal triple |
| `Rs32Calibration.CarriedSignInitial` | rs_driver/driver/decoder/decoder_32.hpp:308 | before any sign octet of 0 or 1, the running sign is its initial +1 |
| `Rs32Calibration.ChannelSignsCarried` | rs_driver/driver/decoder/decoder_32.hpp:310-339 | channel i's vertical sign is the running sign after step 2i, its horizontal sign the one after step 2i + 1 |
| `Rs32Calibration.ChannelSigns` | rs_driver/driver/decoder/decoder_32.hpp:308-339 | both of a channel's signs are +1 or -1; a horizontal sign octet of 0 or 1 decides the horizontal sign, and any other octet keeps the channel's vertical sign |
| `Rs32Calibration.Entry` | rs_driver/driver/decoder/decoder_32.hpp:324 | a table entry is the magnitude times the sign times 0.1 (its inverse is `AngleRoundTrip`) |
| `Rs32Calibration.VertTable` | rs_driver/driver/decoder/decoder_32.hpp:310-324 | 32 entries; entry i is triple i's magnitude with the running sign after its sign octet, divided by 10 |
| `Rs32Calibration.HoriTable` | rs_driver/driver/decoder/decoder_32.hpp:326-339 | 32 entries; entry i is horizontal triple i's magnitude with the running sign after its sign octet, divided by 10 |
| `Rs32Calibration.Magnitude` | rs_driver/driver/decoder/decoder_32.hpp:313-315 | `mid * 256 + msb` of a triple is below 65536 |
| `Rs32Calibration.TablesStep` | rs_driver/driver/decoder/decoder_32.hpp:324 | storing channel i's two entries extends the decoded prefix of both tables by one channel |
| `Rs32Calibration.TablesComplete` | rs_driver/driver/decoder/decoder_32.hpp:310 | tables decoded for all 32 channels are the whole vertical and horizontal tables |
| `Rs32Calibration.EncodeAngle` | rs_driver/driver/decoder/decoder_32.hpp:313-315 | an encodable angle becomes a triple whose sign octet is 0 or 1 |
| `Rs32Calibration.DecodeEncodedTables` | rs_driver/driver/decoder/decoder_32.hpp:306-340 | encoding two tables of angles and decoding them gives every angle back, divided by 10 (hundredths of a degree) |
| `Rs32Calibration.DecodeTriples` | rs_driver/driver/decoder/decoder_32.hpp:313-339 | a channel whose two triples encode v and h decodes to v / 10 and h / 10, whatever came before it |
| `Rs32Calibration.AngleRoundTrip` | rs_driver/driver/decoder/decoder_32.hpp:324 | one encoded triple decodes, with its own sign, to the angle divided by 10 |
| `Rs32Calibration.EncodedBlank` | rs_driver/driver/decoder/decoder_32.hpp:297-305 | an encoded table counts as "no calibration" exactly when channel 0's vertical angle is 0, 0xFF, 0xFF00 or 0xFFFF |
| `Rs32Calibration.Blank` | rs_driver/driver/decoder/decoder_32.hpp:300-302 | the first vertical triple has only 0x00 and 0xFF octets, so the device sent no calibration (characterised by `EncodedBlank`) |
| `Rs32Calibration.IndexOfComma` | rs_driver/driver/decoder/decoder_32.hpp:369 | the first field ends at the first comma, or at the end of the line when there is none |
| `Rs32Calibration.SplitFields` | rs_driver/driver/decoder/decoder_32.hpp:369-372 | the fields repeated `getline` extracts: the comma-separated pieces, with nothing after a final comma and no field from an empty line (its inverse is `JoinFields`, see the two lemmas below) |
| `Rs32Calibration.SplitFieldsHaveNoComma` | rs_driver/driver/decoder/decoder_32.hpp:369-372 | no field extracted from a line contains a comma |
| `Rs32Calibration.JoinSplitFields` | rs_driver/driver/decoder/decoder_32.hpp:369-372 | a line not ending in a comma is its fields joined with commas |
| `Rs32Calibration.SplitJoinFields` | rs_driver/driver/decoder/decoder_32.hpp:369-372 | comma-free fields, the last non-empty, are split back out of their joined line unchanged |
| `Rs32Calibration.SplitLine` | rs_driver/driver/decoder/decoder_32.hpp:369-372 | the `getline` loop extracts exactly the comma-separated fields of the line |
| `Rs32Calibration.FieldsOf` | rs_driver/driver/decoder/decoder_32.hpp:364-372 | one field list per line of the file, in order, each the line's `SplitFields` (what `SplitLines` computes) |
| `Rs32Calibration.SplitLines` | rs_driver/driver/decoder/decoder_32.hpp:364-372 | every line of the file is split into its fields, in order |
| `Rs32Calibration.ReadAngleRows` | rs_driver/driver/decoder/decoder_32.hpp:364-380 | the row loop stores 100 times the two fields of each row, stops after row 31, and stops at the first field `stof` rejects, keeping what was already stored |
| `Rs32Calibration.LoadRows` | rs_driver/driver/decoder/decoder_32.hpp:364-380 | the load from a given row on: both tables keep 32 entries; each row sets entry r of each table to 100 times its field; the load stops after row 31, at the end of the file, or at the first field `stof` rejects |
| `Rs32Calibration.RowsReadable` | rs_driver/driver/decoder/decoder_32.hpp:373-374 | the fields the load reads exist: a first field on every line it reaches, and a second where the first parses |
| `Rs32Calibration.RejectedFirstFieldEndsLoad` | rs_driver/driver/decoder/decoder_32.hpp:373 | a line whose first field is rejected ends the load with nothing of it stored, even with no second field and whatever follows it |
| `Rs32Calibration.LoadRowsCapped` | rs_driver/driver/decoder/decoder_32.hpp:375-379 | entries beyond the rows the file has, and beyond row 31, are never touched |
| `Rs32Calibration.LoadRowsIgnoresExtraLines` | rs_driver/driver/decoder/decoder_32.hpp:376-379 | lines after the 32nd never influence the load |
| `Rs32Calibration.LoadRowsStoresRows` | rs_driver/driver/decoder/decoder_32.hpp:373-374 | when every field parses, row r becomes entry r of both tables, scaled by 100, for each of the first min(rows, 32) rows |
| `Decoder32.PacketIdIsHostRead` | rs_driver/driver/decoder/decoder_32.hpp:157 | the packet id compared is the first eight octets read in host (little-endian) order |
| `Decoder32.BlockIdIsHostRead` | rs_driver/driver/decoder/decoder_32.hpp:170 | the block id compared is the block's first two octets read in host order |
| `Decoder32.PacketId` | rs_driver/driver/decoder/decoder_32.hpp:157 | the packet id as the first eight octets read in host order (proved equal to `LittleEndian` by `PacketIdIsHostRead`) |
| `Decoder32.BlockId` | rs_driver/driver/decoder/decoder_32.hpp:170 | a block's id as its first two octets read in host order (proved equal to `LittleEndian` by `BlockIdIsHostRead`) |
| `Decoder32.BlockDiff` | rs_driver/driver/decoder/decoder_32.hpp:177-204 | the azimuth step of a block lies strictly within one turn; for proper azimuths it is in [0, 36000) and leads from the earlier sample to the later one modulo a full turn |
| `Decoder32.DecodeChannel` | rs_driver/driver/decoder/decoder_32.hpp:208-253 | a channel gives a point with coordinates exactly when its distance is within the bounds and its calibrated angle within the sector, with the channel's distance and intensity and a vertical index in [0, 36000); otherwise a NaN point |
| `Decoder32.LeadingBlocks` | rs_driver/driver/decoder/decoder_32.hpp:168-173 | blocks are decoded up to, and not including, the first block whose id is not 0xEEFF |
| `Decoder32.DecodedBlocks` | rs_driver/driver/decoder/decoder_32.hpp:168-173 | the block loop stops at the first block whose id is not 0xEEFF, or after block 11: every block before the count has the right id, and the block at the count, if any, has a wrong one |
| `Decoder32.PointsOfBlocks` | rs_driver/driver/decoder/decoder_32.hpp:168-262 | the points the block loop has appended after n blocks: 32 per block, point 32·b + c being channel c of block b (`PointsOfBlocksAt`); the loop of `DecodeMsopPkt` keeps it as its invariant |
| `Decoder32.BlockPoints` | rs_driver/driver/decoder/decoder_32.hpp:206-261 | a decoded block yields exactly 32 points |
| `Decoder32.PointsOfBlocksAt` | rs_driver/driver/decoder/decoder_32.hpp:168-262 | point 32·b + c of the output is channel c of block b |
| `Decoder32.MsopPoints` | rs_driver/driver/decoder/decoder_32.hpp:168-262 | everything a packet with the right id appends: the points of the blocks before the first wrong block id, block after block (characterised by `MsopPointsSpec`) |
| `Decoder32.MsopPointsSpec` | rs_driver/driver/decoder/decoder_32.hpp:168-262 | a packet appends 32 points per decoded block; each has coordinates exactly when its distance is within the inclusive bounds and its horizontal angle within the sector, and then carries the channel's distance and intensity; otherwise it is a NaN point |
| `Decoder32.ValidPointIndicesInRange` | rs_driver/driver/decoder/decoder_32.hpp:220-231 | when the sector starts at or above 0, every table index of a point with coordinates lies in [0, 36000), so the cosine and sine lookups stay inside their tables |
| `Decoder32.InterpolationBetweenSamples` | rs_driver/driver/decoder/decoder_32.hpp:177-210 | for proper block azimuths the step is in [0, 36000); each channel lies between the block azimuth and the block azimuth plus the step; for the last blocks the step is taken from the earlier block, so the channels are extrapolated there; channels c and c + 16 share an azimuth, and channels 0 and 16 fire at the block azimuth |
| `Decoder32.DecodeAngleTables` | rs_driver/driver/decoder/decoder_32.hpp:306-340 | the DIFOP loop writes exactly the vertical and horizontal tables: each entry is its triple's magnitude, with the running sign, divided by 10 |
| `Decoder32.EchoModeOf` | rs_driver/driver/decoder/decoder_32.hpp:278-285 | the echo mode is the return mode itself when that is 1 or 2, and dual echo otherwise |
| `Decoder32.PktsPerFrame` | rs_driver/driver/decoder/decoder_32.hpp:287-293 | packets per frame is 1500 · 60 / rpm (doubled in dual echo), rounded down |
| `Decoder32.AnglesLoaded` | rs_driver/driver/decoder/decoder_32.hpp:295 | the test `cali_data_flag_ & 0x2`: angle tables have been loaded; `MarkAnglesLoaded` makes it true and `DifopLoadsOnce` shows it stops a second load |
| `Decoder32.MarkAnglesLoaded` | rs_driver/driver/decoder/decoder_32.hpp:341 | bit 0x2 is set and every other bit of the flag is kept |
| `Decoder32.CalibrationAccepted` | rs_driver/driver/decoder/decoder_32.hpp:295-306 | the DIFOP tables are written only when bit 0x2 of the flag is clear and the first vertical triple is not blank |
| `Decoder32.ClampDistances` | rs_driver/driver/decoder/decoder_32.hpp:126-133 | the clamp yields 0.4 m ≤ max ≤ 200 m and min ≤ max; it changes max only to 200 m and min only to 0.4 m; it changes nothing exactly when the bounds were already in range |
| `Decoder32.Decoder32.constructor` | rs_driver/driver/decoder/decoder_32.hpp:120-135 | the distance bounds are clamped, every other field is as the base decoder left it, and the decoder is valid |
| `Decoder32.Decoder32.DecodeMsopPkt` | rs_driver/driver/decoder/decoder_32.hpp:153-265 | a wrong id returns -2 and appends nothing; otherwise the packet's points are appended and block 0's raw azimuth is returned; height is 32 |
| `Decoder32.Decoder32.DecodeBlock` | rs_driver/driver/decoder/decoder_32.hpp:174-261 | one block appends its 32 points |
| `Decoder32.Decoder32.BlockAzimuthDiff` | rs_driver/driver/decoder/decoder_32.hpp:174-204 | the azimuth step is taken towards the neighbour block for the current echo mode |
| `Decoder32.Decoder32.DecodeBlockChannels` | rs_driver/driver/decoder/decoder_32.hpp:206-261 | the channel loop appends the block's points in channel order |
| `Decoder32.Decoder32.DecodeDifopPkt` | rs_driver/driver/decoder/decoder_32.hpp:268-346 | a wrong id returns -2 and changes nothing; otherwise it returns 0 and sets the echo mode and the frame length; the angle tables are replaced and flag bit 0x2 set only when no angles were loaded and the first vertical triple is not blank; nothing else changes |
| `Decoder32.Decoder32.LoadCalibrationFile` | rs_driver/driver/decoder/decoder_32.hpp:349-383 | a file that cannot be opened changes nothing; otherwise the tables become what the row-by-row load leaves, including a load cut short by `stof` |
| `Decoder32.DifopLoadsOnce` | rs_driver/driver/decoder/decoder_32.hpp:295 | after a DIFOP has loaded the tables, a second DIFOP still sets the echo mode but leaves the tables as the first one left them |
| `DecoderRS32.FiringTimes` | src/rs_driver/driver/decoder/decoder_RS32.hpp:113-117 | one firing time per channel, all within the 55.52 µs block; the first 15 channels are 2.88 µs apart from 0, and channel c + 16 fires 1.44 µs after channel c |
| `DecoderRS32.GetConstParam` | src/rs_driver/driver/decoder/decoder_RS32.hpp:97-126 | both packet lengths are 1248; the ids are 8, 8 and 2 octets with the documented values; 12 blocks of 32 channels; 5 mm distance unit; the firing table; the lens offsets |
| `DecoderRS32.GetEchoMode` | src/rs_driver/driver/decoder/decoder_RS32.hpp:128-139 | dual echo exactly for return mode 0x00 |
| `DecoderRS32.DistanceOf` | src/rs_driver/driver/decoder/decoder_RS32.hpp:212 | the channel distance in metres: the network-order raw count times 0.005, so within [0, 327.675] |
| `DecoderRS32.Passes` | src/rs_driver/driver/decoder/decoder_RS32.hpp:217 | the distance window holds the distance in metres and the scan window holds the adjusted horizontal angle; `EmitStepSpec` shows a measured point is emitted exactly when it holds |
| `DecoderRS32.EmitStepSpec` | src/rs_driver/driver/decoder/decoder_RS32.hpp:212-243 | a step appends at most one point, and exactly one unless it fails a window in dense mode; the point has the channel's ring and the step's timestamp; it is measured exactly when both windows pass, with distance = raw × 0.005 m, the channel's intensity and the adjusted angles |
| `DecoderRS32.EmitStep` | src/rs_driver/driver/decoder/decoder_RS32.hpp:217-243 | what one step appends: a measured point when both windows pass, otherwise a placeholder, or nothing in dense mode (its properties are `EmitStepSpec`) |
| `DecoderRS32.StepErrors` | src/rs_driver/driver/decoder/decoder_RS32.hpp:206-210 | one header error when the step's block id is not 0xFF 0xEE, none otherwise (summed over steps by `HeaderErrorsSpec`) |
| `DecoderRS32.EmittedCount` | src/rs_driver/driver/decoder/decoder_RS32.hpp:196-244 | without dense points each step appends exactly one point; with dense points at most one, and only measured points |
| `DecoderRS32.Emitted` | src/rs_driver/driver/decoder/decoder_RS32.hpp:196-244 | everything the first n traverser steps append to the cloud, step after step (characterised by `EmittedCount` and `SparseEmittedAt`) |
| `DecoderRS32.HeaderErrors` | src/rs_driver/driver/decoder/decoder_RS32.hpp:206-210 | the header errors the first n steps report, one per step with a wrong block id (characterised by `HeaderErrorsSpec`) |
| `DecoderRS32.SparseEmittedAt` | src/rs_driver/driver/decoder/decoder_RS32.hpp:196-244 | without dense points, point k belongs to step k: its ring and timestamp, measured exactly when that step passes both windows, even when its block id was wrong |
| `DecoderRS32.HeaderErrorsSpec` | src/rs_driver/driver/decoder/decoder_RS32.hpp:206-210 | a header error is reported exactly when some step reads a block with a wrong id, at most one per step |
| `DecoderRS32.DifopErrors` | src/rs_driver/driver/decoder/decoder_RS32.hpp:157-165 | a wrong length and a wrong id are each reported, and only they |
| `DecoderRS32.DecoderRS32.constructor` | src/rs_driver/driver/decoder/decoder_RS32.hpp:144-148 | the description is `getConstParam()`; the cloud and the reported errors start empty, with no device information yet |
| `DecoderRS32.DecoderRS32.ProcessDifopPkt` | src/rs_driver/driver/decoder/decoder_RS32.hpp:151-175 | the length and id errors are reported and processing goes on; the echo mode comes from the packet; the channel angles are loaded only when `difop_ready_` is false after the common step; the cloud is unchanged |
| `DecoderRS32.DecoderRS32.DecodeMsopPkt` | src/rs_driver/driver/decoder/decoder_RS32.hpp:178-245 | the cloud grows by what every traverser step emits, and the reported errors by one header error per step with a wrong block id |
| `DecoderRS32.DecodeSteps` | src/rs_driver/driver/decoder/decoder_RS32.hpp:194-244 | the traverser loop appends what each step emits, and its header errors, step after step |
| `DecoderRS32.DecodeStep` | src/rs_driver/driver/decoder/decoder_RS32.hpp:198-243 | one step appends what `EmitStep` specifies and reports a header error when its block id is wrong |
| `Generations.MsopIdsAgree` | rs_driver/driver/decoder/decoder_32.hpp:157 | the first generation's 64-bit id comparison and the second's octet comparison accept the same MSOP packets |
| `Generations.DifopIdsAgree` | rs_driver/driver/decoder/decoder_32.hpp:272 | likewise for the DIFOP id |
| `Generations.BlockIdsAgree` | rs_driver/driver/decoder/decoder_32.hpp:170 | likewise for the block id |
| `Generations.EchoMappingsAgree` | src/rs_driver/driver/decoder/decoder_RS32.hpp:128-139 | the two echo mappings agree on dual echo exactly for return modes 0, 1 and 2 |

## Left out

- Time: `getLidarTime`, the packet timestamp and the host clock are not modelled. The second generation's per-channel timestamps come from the traverser as parameters.
- Temperature (`computeTemperatue`, `calcTemp`) is not modelled.
- x, y and z: the cosine and sine lookups and the lens-offset arithmetic are left out. A point keeps the distance, intensity and table indices they are computed from. `Decoder32.ValidPointIndicesInRange` shows that those indices stay inside the tables.
- Floating-point rounding: `float` and `double` values are exact `real`s. This includes `azimuth_channel`, the distance in metres and the `0.1f` and `* 100` scalings of the angle tables.
- Decoder32.DecodeChannel: the distance bounds are compared in raw 5 mm counts instead of metres. For bounds that are whole multiples of 5 mm, this is the same test as the comparison in metres.
- Decoder32.ClampDistances: bounds that are not whole multiples of 5 mm are not represented. Rounding such bounds to counts can change the clamp's `min > max` test. For example, 100.001 m and 100.003 m both round to 20000 counts, and the C++ keeps that minimum.
- `azimuthCalibration` belongs to the base decoder and is not part of this model. It is a function parameter.
- The base decoder's `decodeDifopCommon`, the `SingleReturnPacketTraverser`, the channel-angle object (`vertAdjust`, `horizAdjust`, `toUserChan`, `loadFromDifop`) and the distance and scan windows are not part of this model. They are function parameters, and the traverser's steps are a sequence.
- DecoderRS32.DecoderRS32.DecodeMsopPkt: the `int16_t` narrowing of `vertAdjust`'s and `horizAdjust`'s results is not written out. Their results are taken as they are returned.
- DecoderRS32.DecoderRS32.DecodeMsopPkt: points and errors are accumulated in sequence order. The callback is a record of the codes it received, so nothing it does in response is modelled.
- Packets shorter than 1248 octets are not modelled. The C++ overlays a struct on the buffer and reads past its end; the model requires a full-length packet. The second generation's length error is modelled through the separate `size` argument.
- `RS_POINT_COMPLEX` fields (distance, ring id, echo id) of the first generation and the `hexdump` call of the second are not modelled.
- The DIFOP fields other than the return mode and the two calibration tables are not part of this model. These are every other field: rpm, the Ethernet settings, the FOV, the phase lock angle, the versions, the intensity block, the serial number, the zero calibration, the software version, the time, the status, the diagnostics, the GPRMC sentence and the reserved octets. Their fixed sizes put the return mode at offset 300. The first generation takes its frame length from its own `rpm_`, not from the DIFOP's `rpm` field.
- Host byte order: the first generation compares ids read as host integers. The model takes the host to be little-endian (x86 and ARM as deployed).
- Decoder32.DecodeMsopPkt: `RS_ECHO_DUAL` is taken to be 0, as the echo-mode constants of the base decoder define it.
- Decoder32.PktsPerFrame: `rpm_` is declared by the base decoder, which is not part of this model. It is taken to be an integer, so `pkt_rate * 60 / rpm_` is an integer division and the `ceil` around it changes nothing.
- Rs32Angles.SectorIsArc: it assumes `angle_flag_` is set exactly when the sector does not cross zero (start <= end). The base decoder sets that flag and is not part of this model, and `Decoder32.Decoder32.Valid` does not carry the assumption.
- Decoder32.DecodeDifopPkt: `rpm_` is required to be positive. The C++ divides by it without a check.
- Decoder32.LoadCalibrationFile: the file is given as its lines. Indexing a missing field is undefined behaviour in the C++ (`vect_str[0]` of an empty line, `vect_str[1]` of a one-field line), so `RowsReadable` requires the fields the load actually reads to exist. That is a first field on every line the load reaches, and a second field where the first one parses. A one-field line whose field is rejected is allowed, and so is any line after it or after the 32nd. `stof` is a parameter returning None where it would throw; the exception itself is reported through `threw` rather than propagated.
