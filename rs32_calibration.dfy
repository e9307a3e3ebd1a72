/** Per-channel angle calibration of the first-generation RS32 decoder: the signed-magnitude
    triples of a DIFOP packet, and the comma-separated angle file. */
module Rs32Calibration {
  import opened Bytes

  /** Channels with a calibration triple. */
  const CALI_CHANNELS: nat := 32

  // ---------------------------------------------------------------------------------------------
  // DIFOP triples: sign octet, then a 16-bit magnitude (high octet first), in 0.001 degree.
  // ---------------------------------------------------------------------------------------------

  /** Sign octets 0 and 1 are the two recognised signs. */
  predicate Decisive(b: Byte)
  {
    b == 0 || b == 1
  }

  function SignOf(b: Byte): int
    requires Decisive(b)
  {
    if b == 0 then 1 else -1
  }

  /** One step of the running sign `neg`: 0 makes it +1, 1 makes it -1, any other octet keeps it. */
  function UpdateSign(neg: int, b: Byte): int
  {
    if b == 0 then 1 else if b == 1 then -1 else neg
  }

  /** The DIFOP loop reads a sign octet at every step: even steps are the vertical triple of
      channel j / 2, odd steps its horizontal triple. */
  function SignByteAt(pitch: seq<Byte>, yaw: seq<Byte>, j: nat): Byte
    requires |pitch| == 96 && |yaw| == 96 && j < 64
  {
    if j % 2 == 0 then pitch[3 * (j / 2)] else yaw[3 * (j / 2)]
  }

  /** The value of `neg` after step j. It starts at +1 and is one variable for both tables. */
  function CarriedSign(pitch: seq<Byte>, yaw: seq<Byte>, j: nat): (neg: int)
    requires |pitch| == 96 && |yaw| == 96 && j < 64
    ensures neg == 1 || neg == -1
  {
    UpdateSign(if j == 0 then 1 else CarriedSign(pitch, yaw, j - 1), SignByteAt(pitch, yaw, j))
  }

  /** The running sign is the sign of the latest recognised sign octet. */
  lemma {:induction false} CarriedSignIsLatestDecisive(pitch: seq<Byte>, yaw: seq<Byte>, j: nat, k: nat)
    requires |pitch| == 96 && |yaw| == 96 && k <= j < 64
    requires Decisive(SignByteAt(pitch, yaw, k))
    requires forall m :: k < m <= j ==> !Decisive(SignByteAt(pitch, yaw, m))
    ensures CarriedSign(pitch, yaw, j) == SignOf(SignByteAt(pitch, yaw, k))
  {
    if j > k {
      CarriedSignIsLatestDecisive(pitch, yaw, j - 1, k);
    }
  }

  /** With no recognised sign octet so far, the running sign is still its initial +1. */
  lemma {:induction false} CarriedSignInitial(pitch: seq<Byte>, yaw: seq<Byte>, j: nat)
    requires |pitch| == 96 && |yaw| == 96 && j < 64
    requires forall m :: 0 <= m <= j ==> !Decisive(SignByteAt(pitch, yaw, m))
    ensures CarriedSign(pitch, yaw, j) == 1
  {
    if j > 0 {
      CarriedSignInitial(pitch, yaw, j - 1);
    }
  }

  /** `mid * 256 + msb` of triple i. */
  function Magnitude(t: seq<Byte>, i: nat): (m: nat)
    requires |t| == 96 && i < CALI_CHANNELS
    ensures m < 0x1_0000
  {
    (t[3 * i + 1] as int) * 256 + t[3 * i + 2]
  }

  /** Table entry `(mid * 256 + msb) * neg * 0.1`, in hundredths of a degree. */
  function Entry(mag: int, neg: int): real
  {
    (mag * neg) as real / 10.0
  }

  /** The running sign after the vertical and after the horizontal triple of channel i. The loop
      reads channel i's vertical sign octet, then its horizontal one, so this is the running sign
      one step at a time, counted by channel. */
  function ChannelSigns(pitch: seq<Byte>, yaw: seq<Byte>, i: nat): (signs: (int, int))
    requires |pitch| == 96 && |yaw| == 96 && i < CALI_CHANNELS
    ensures (signs.0 == 1 || signs.0 == -1) && (signs.1 == 1 || signs.1 == -1)
    ensures Decisive(yaw[3 * i]) ==> signs.1 == SignOf(yaw[3 * i])
    ensures !Decisive(yaw[3 * i]) ==> signs.1 == signs.0
  {
    var vert := UpdateSign(if i == 0 then 1 else ChannelSigns(pitch, yaw, i - 1).1, pitch[3 * i]);
    (vert, UpdateSign(vert, yaw[3 * i]))
  }

  /** Counting by channel and counting by step give the same running sign: channel i's vertical
      sign is the one after step 2i, its horizontal sign the one after step 2i + 1. */
  lemma {:induction false} ChannelSignsCarried(pitch: seq<Byte>, yaw: seq<Byte>, i: nat)
    requires |pitch| == 96 && |yaw| == 96 && i < CALI_CHANNELS
    ensures ChannelSigns(pitch, yaw, i) == (CarriedSign(pitch, yaw, 2 * i), CarriedSign(pitch, yaw, 2 * i + 1))
  {
    if i > 0 {
      ChannelSignsCarried(pitch, yaw, i - 1);
    }
    var j := 2 * i;
    assert j % 2 == 0 && j / 2 == i;
    assert (j + 1) % 2 == 1 && (j + 1) / 2 == i;
    assert SignByteAt(pitch, yaw, j) == pitch[3 * i];
    assert SignByteAt(pitch, yaw, j + 1) == yaw[3 * i];
    assert j == 0 || j - 1 == 2 * (i - 1) + 1;
  }

  /** The vertical table a DIFOP with these triples yields. */
  function VertTable(pitch: seq<Byte>, yaw: seq<Byte>): (t: seq<real>)
    requires |pitch| == 96 && |yaw| == 96
    ensures |t| == CALI_CHANNELS
  {
    seq(CALI_CHANNELS, i requires 0 <= i < CALI_CHANNELS =>
      Entry(Magnitude(pitch, i), ChannelSigns(pitch, yaw, i).0))
  }

  /** The horizontal table a DIFOP with these triples yields. */
  function HoriTable(pitch: seq<Byte>, yaw: seq<Byte>): (t: seq<real>)
    requires |pitch| == 96 && |yaw| == 96
    ensures |t| == CALI_CHANNELS
  {
    seq(CALI_CHANNELS, i requires 0 <= i < CALI_CHANNELS =>
      Entry(Magnitude(yaw, i), ChannelSigns(pitch, yaw, i).1))
  }

  /** The first i entries of both tables are those of `VertTable` and `HoriTable`. */
  predicate TablesUpTo(pitch: seq<Byte>, yaw: seq<Byte>, vert: seq<real>, hori: seq<real>, i: nat)
    requires |pitch| == 96 && |yaw| == 96 && i <= CALI_CHANNELS
  {
    && |vert| == CALI_CHANNELS && |hori| == CALI_CHANNELS
    && (forall k :: 0 <= k < i ==> vert[k] == Entry(Magnitude(pitch, k), ChannelSigns(pitch, yaw, k).0))
    && (forall k :: 0 <= k < i ==> hori[k] == Entry(Magnitude(yaw, k), ChannelSigns(pitch, yaw, k).1))
  }

  /** One iteration of the DIFOP loop: storing channel i's entries, each the triple's magnitude
      with the running sign after its sign octet, extends the decoded prefix by one channel. */
  lemma TablesStep(pitch: seq<Byte>, yaw: seq<Byte>, vert: seq<real>, hori: seq<real>, i: nat,
                   vertEntry: real, horiEntry: real)
    requires |pitch| == 96 && |yaw| == 96 && i < CALI_CHANNELS
    requires TablesUpTo(pitch, yaw, vert, hori, i)
    requires vertEntry == Entry(Magnitude(pitch, i), ChannelSigns(pitch, yaw, i).0)
    requires horiEntry == Entry(Magnitude(yaw, i), ChannelSigns(pitch, yaw, i).1)
    ensures TablesUpTo(pitch, yaw, vert[i := vertEntry], hori[i := horiEntry], i + 1)
  {
  }

  /** A table decoded up to channel 32 is the whole table. */
  lemma TablesComplete(pitch: seq<Byte>, yaw: seq<Byte>, vert: seq<real>, hori: seq<real>)
    requires |pitch| == 96 && |yaw| == 96
    requires TablesUpTo(pitch, yaw, vert, hori, CALI_CHANNELS)
    ensures vert == VertTable(pitch, yaw) && hori == HoriTable(pitch, yaw)
  {
  }

  /** The first vertical triple reads as all 0x00 / 0xFF octets: the device sent no calibration. */
  predicate Blank(pitch: seq<Byte>)
    requires |pitch| >= 3
  {
    (pitch[0] == 0x00 || pitch[0] == 0xFF)
    && (pitch[1] == 0x00 || pitch[1] == 0xFF)
    && (pitch[2] == 0x00 || pitch[2] == 0xFF)
  }

  // Encoding, the inverse of the decoding above.

  /** An angle in 0.001 degree that a triple can carry. */
  predicate Encodable(v: int)
  {
    -0x1_0000 < v < 0x1_0000
  }

  function Abs(v: int): nat
  {
    if v < 0 then -v else v
  }

  /** The triple that carries v: sign octet 0 or 1, then the magnitude high octet first. */
  function EncodeAngle(v: int): (t: seq<Byte>)
    requires Encodable(v)
    ensures |t| == 3 && Decisive(t[0])
  {
    [if v < 0 then 1 else 0, Abs(v) / 256, Abs(v) % 256]
  }

  /** 32 angles as 96 octets of triples. */
  function EncodeTable(vs: seq<int>): (t: seq<Byte>)
    requires |vs| == CALI_CHANNELS && forall i :: 0 <= i < |vs| ==> Encodable(vs[i])
    ensures |t| == 96
  {
    seq(96, k requires 0 <= k < 96 => EncodeAngle(vs[k / 3])[k % 3])
  }

  lemma EncodeTableAt(vs: seq<int>, i: nat)
    requires |vs| == CALI_CHANNELS && forall k :: 0 <= k < |vs| ==> Encodable(vs[k])
    requires i < CALI_CHANNELS
    ensures EncodeTable(vs)[3 * i] == EncodeAngle(vs[i])[0]
    ensures EncodeTable(vs)[3 * i + 1] == EncodeAngle(vs[i])[1]
    ensures EncodeTable(vs)[3 * i + 2] == EncodeAngle(vs[i])[2]
  {
    var t := EncodeTable(vs);
    assert (3 * i) / 3 == i && (3 * i + 1) / 3 == i && (3 * i + 2) / 3 == i;
    assert (3 * i) % 3 == 0 && (3 * i + 1) % 3 == 1 && (3 * i + 2) % 3 == 2;
  }

  /** Encoding two tables and decoding them gives every angle back, scaled to hundredths of a
      degree: the encoder writes only recognised sign octets, so no sign is ever carried over. */
  lemma {:induction false} DecodeEncodedTables(vs: seq<int>, hs: seq<int>)
    requires |vs| == CALI_CHANNELS && forall i :: 0 <= i < |vs| ==> Encodable(vs[i])
    requires |hs| == CALI_CHANNELS && forall i :: 0 <= i < |hs| ==> Encodable(hs[i])
    ensures forall i :: 0 <= i < CALI_CHANNELS ==>
      VertTable(EncodeTable(vs), EncodeTable(hs))[i] == vs[i] as real / 10.0
    ensures forall i :: 0 <= i < CALI_CHANNELS ==>
      HoriTable(EncodeTable(vs), EncodeTable(hs))[i] == hs[i] as real / 10.0
  {
    forall i | 0 <= i < CALI_CHANNELS
      ensures VertTable(EncodeTable(vs), EncodeTable(hs))[i] == vs[i] as real / 10.0
      ensures HoriTable(EncodeTable(vs), EncodeTable(hs))[i] == hs[i] as real / 10.0
    {
      EncodeTableAt(vs, i);
      EncodeTableAt(hs, i);
      DecodeTriples(vs[i], hs[i], EncodeTable(vs), EncodeTable(hs), i);
    }
  }

  /** Channel i of two tables whose triples i encode v and h decodes to v and h: both of its sign
      octets are recognised, so each entry takes its own triple's sign. */
  lemma DecodeTriples(v: int, h: int, pitch: seq<Byte>, yaw: seq<Byte>, i: nat)
    requires Encodable(v) && Encodable(h)
    requires |pitch| == 96 && |yaw| == 96 && i < CALI_CHANNELS
    requires pitch[3 * i] == EncodeAngle(v)[0] && pitch[3 * i + 1] == EncodeAngle(v)[1]
    requires pitch[3 * i + 2] == EncodeAngle(v)[2]
    requires yaw[3 * i] == EncodeAngle(h)[0] && yaw[3 * i + 1] == EncodeAngle(h)[1]
    requires yaw[3 * i + 2] == EncodeAngle(h)[2]
    ensures VertTable(pitch, yaw)[i] == v as real / 10.0
    ensures HoriTable(pitch, yaw)[i] == h as real / 10.0
  {
    var signs := ChannelSigns(pitch, yaw, i);
    AngleRoundTrip(v, signs.0, Magnitude(pitch, i));
    AngleRoundTrip(h, signs.1, Magnitude(yaw, i));
  }

  lemma AngleRoundTrip(v: int, neg: int, mag: int)
    requires Encodable(v)
    requires neg == SignOf(EncodeAngle(v)[0])
    requires mag == (EncodeAngle(v)[1] as int) * 256 + EncodeAngle(v)[2]
    ensures Entry(mag, neg) == v as real / 10.0
  {
    assert mag == Abs(v);
  }

  /** An encoded table counts as blank exactly when channel 0's vertical angle is one of
      0, 0xFF, 0xFF00 or 0xFFFF thousandths of a degree; in particular a channel-0 angle of
      exactly 0 is indistinguishable from "no calibration". */
  lemma EncodedBlank(vs: seq<int>)
    requires |vs| == CALI_CHANNELS && forall i :: 0 <= i < |vs| ==> Encodable(vs[i])
    ensures Blank(EncodeTable(vs)) <==> vs[0] in {0, 0xFF, 0xFF00, 0xFFFF}
  {
    EncodeTableAt(vs, 0);
    var v := vs[0];
    if v >= 0 {
      var hi, lo := v / 256, v % 256;
      assert v == hi * 256 + lo;
      if (hi == 0 || hi == 0xFF) && (lo == 0 || lo == 0xFF) {
        assert v in {0, 0xFF, 0xFF00, 0xFFFF};
      }
    }
  }

  // ---------------------------------------------------------------------------------------------
  // The angle file: one line per channel, "<vertical degrees>,<horizontal degrees>".
  // ---------------------------------------------------------------------------------------------

  /** Position of the first comma in s, or |s| when there is none. */
  function IndexOfComma(s: string): (i: nat)
    ensures i <= |s| && ',' !in s[..i]
    ensures i < |s| ==> s[i] == ','
  {
    if s == [] || s[0] == ',' then 0
    else
      var i := 1 + IndexOfComma(s[1..]);
      assert s[..i] == [s[0]] + s[1..][..i - 1];
      i
  }

  /** The fields that repeated `std::getline(ss, str, ',')` extracts from a line: the comma-
      separated pieces, except that nothing follows a final comma and an empty line has none. */
  function SplitFields(line: string): seq<string>
    decreases |line|
  {
    if line == [] then []
    else
      var i := IndexOfComma(line);
      if i == |line| then [line] else [line[..i]] + SplitFields(line[i + 1..])
  }

  /** No field contains a comma. */
  lemma {:induction false} SplitFieldsHaveNoComma(line: string)
    ensures forall i :: 0 <= i < |SplitFields(line)| ==> ',' !in SplitFields(line)[i]
    decreases |line|
  {
    if line != [] {
      var i := IndexOfComma(line);
      if i < |line| {
        SplitFieldsHaveNoComma(line[i + 1..]);
      }
    }
  }

  /** The line that a sequence of fields is written as. */
  function JoinFields(fs: seq<string>): string
  {
    if fs == [] then [] else if |fs| == 1 then fs[0] else fs[0] + [','] + JoinFields(fs[1..])
  }

  /** Splitting loses nothing but a final comma. */
  lemma {:induction false} JoinSplitFields(line: string)
    requires line == [] || line[|line| - 1] != ','
    ensures JoinFields(SplitFields(line)) == line
    decreases |line|
  {
    if line != [] {
      var i := IndexOfComma(line);
      if i < |line| {
        var rest := line[i + 1..];
        assert rest != [] by { assert line[|line| - 1] != ','; }
        assert rest[|rest| - 1] == line[|line| - 1];
        JoinSplitFields(rest);
        var fs := SplitFields(rest);
        assert fs != [];
        assert SplitFields(line) == [line[..i]] + fs;
        assert JoinFields([line[..i]] + fs) == line[..i] + [','] + JoinFields(fs) by {
          assert ([line[..i]] + fs)[1..] == fs;
        }
        assert line == line[..i] + [','] + rest;
      }
    }
  }

  /** Fields without commas, the last one non-empty, split back out of their line unchanged. */
  lemma {:induction false} SplitJoinFields(fs: seq<string>)
    requires forall i :: 0 <= i < |fs| ==> ',' !in fs[i]
    requires fs == [] || fs[|fs| - 1] != []
    ensures SplitFields(JoinFields(fs)) == fs
  {
    if |fs| == 1 {
      assert IndexOfComma(fs[0]) == |fs[0]|;
    } else if |fs| > 1 {
      var line := JoinFields(fs);
      var head := fs[0];
      var tail := JoinFields(fs[1..]);
      assert line == head + [','] + tail;
      assert line[..|head|] == head;
      assert line[|head|] == ',';
      FirstCommaAfter(line, head);
      assert line[|head| + 1..] == tail;
      SplitJoinFields(fs[1..]);
      assert JoinFields(fs[1..]) != [] by { JoinNonEmpty(fs[1..]); }
    }
  }

  lemma FirstCommaAfter(line: string, head: string)
    requires |head| < |line| && line[..|head|] == head && ',' !in head && line[|head|] == ','
    ensures IndexOfComma(line) == |head|
  {
  }

  lemma {:induction false} JoinNonEmpty(fs: seq<string>)
    requires fs != [] && fs[|fs| - 1] != []
    ensures JoinFields(fs) != []
  {
    if |fs| > 1 {
      JoinNonEmpty(fs[1..]);
    }
  }

  /** One field of the line starting at `pos` ends at the comma (or line end) at `j`. */
  lemma SplitFieldsStep(line: string, pos: nat, j: nat)
    requires pos < |line| && pos <= j <= |line|
    requires forall k :: pos <= k < j ==> line[k] != ','
    requires j < |line| ==> line[j] == ','
    ensures SplitFields(line[pos..]) ==
      [line[pos..j]] + (if j < |line| then SplitFields(line[j + 1..]) else [])
  {
    assert ',' !in line[pos..j];
    var rest := line[pos..];
    if j < |line| {
      assert rest[..j - pos] == line[pos..j];
      FirstCommaAfter(rest, line[pos..j]);
      assert rest[j - pos + 1..] == line[j + 1..];
    } else {
      assert rest == line[pos..j];
      assert IndexOfComma(rest) == |rest|;
    }
  }

  /** One `getline` call keeps the loop invariant of `SplitLine`: the field up to the next comma
      (or the end of the line) joins the fields read so far, and reading resumes after the comma. */
  lemma SplitLineStep(line: string, fields: seq<string>, pos: nat, j: nat, next: nat)
    requires pos < |line| && pos <= j <= |line|
    requires forall k :: pos <= k < j ==> line[k] != ','
    requires j < |line| ==> line[j] == ','
    requires next == if j < |line| then j + 1 else j
    requires fields + SplitFields(line[pos..]) == SplitFields(line)
    ensures (fields + [line[pos..j]]) + SplitFields(line[next..]) == SplitFields(line)
  {
    SplitFieldsStep(line, pos, j);
    var rest := SplitFields(line[next..]);
    if j == |line| {
      assert line[next..] == [];
    }
    assert SplitFields(line[pos..]) == [line[pos..j]] + rest;
    assert (fields + [line[pos..j]]) + rest == fields + ([line[pos..j]] + rest);
  }

  /** The loop `while (std::getline(ss, str, ',')) vect_str.push_back(str);`. */
  method SplitLine(line: string) returns (fields: seq<string>)
    ensures fields == SplitFields(line)
  {
    fields := [];
    var pos := 0;
    while pos < |line|
      invariant 0 <= pos <= |line|
      invariant fields + SplitFields(line[pos..]) == SplitFields(line)
      decreases |line| - pos
    {
      var j := pos;
      while j < |line| && line[j] != ','
        invariant pos <= j <= |line|
        invariant forall k :: pos <= k < j ==> line[k] != ','
      {
        j := j + 1;
      }
      var next := if j < |line| then j + 1 else j;
      SplitLineStep(line, fields, pos, j, next);
      fields := fields + [line[pos..j]];
      pos := next;
    }
  }

  /** What an angle-file load leaves behind: both tables, and whether `std::stof` threw (which
      leaves the rows already stored in place and ends the load). */
  datatype LoadOutcome = LoadOutcome(vert: seq<real>, hori: seq<real>, threw: bool)

  datatype Option<T> = None | Some(value: T)

  /** The fields of every line of the file. */
  function FieldsOf(lines: seq<string>): (rows: seq<seq<string>>)
    ensures |rows| == |lines|
  {
    seq(|lines|, k requires 0 <= k < |lines| => SplitFields(lines[k]))
  }

  /** Every field the load reads from row `row` on exists: each row it reaches has a first field,
      and a second one when the first parses. The load reaches no row after a rejected field and
      none after row 31, so those rows may be anything. */
  predicate RowsReadable(rows: seq<seq<string>>, stof: string -> Option<real>, row: nat)
    decreases CALI_CHANNELS - row
  {
    row >= |rows| || row >= CALI_CHANNELS ||
    (|rows[row]| >= 1
     && (stof(rows[row][0]).Some? ==>
           |rows[row]| >= 2 && (stof(rows[row][1]).Some? ==> RowsReadable(rows, stof, row + 1))))
  }

  /** Loading rows[row..] into the tables: row r sets vertical entry r to 100 times its first
      field, then horizontal entry r to 100 times its second; the load stops after row 31, at the
      end of the file, or where `stof` (None: it throws) rejects a field. */
  function LoadRows(vert: seq<real>, hori: seq<real>, rows: seq<seq<string>>,
                    stof: string -> Option<real>, row: nat): (o: LoadOutcome)
    requires |vert| == CALI_CHANNELS && |hori| == CALI_CHANNELS
    requires row <= |rows| && row <= CALI_CHANNELS && RowsReadable(rows, stof, row)
    ensures |o.vert| == CALI_CHANNELS && |o.hori| == CALI_CHANNELS
    decreases CALI_CHANNELS - row
  {
    if row == |rows| || row == CALI_CHANNELS then LoadOutcome(vert, hori, false)
    else
      var v := stof(rows[row][0]);
      if v.None? then LoadOutcome(vert, hori, true)
      else
        var h := stof(rows[row][1]);
        if h.None? then LoadOutcome(vert[row := v.value * 100.0], hori, true)
        else LoadRows(vert[row := v.value * 100.0], hori[row := h.value * 100.0], rows, stof, row + 1)
  }

  /** A row whose first field `stof` rejects ends the load there, even when the row has no second
      field and whatever the rows after it hold: nothing of it is stored and `threw` is set. */
  lemma RejectedFirstFieldEndsLoad(vert: seq<real>, hori: seq<real>, rows: seq<seq<string>>,
                                   stof: string -> Option<real>, row: nat)
    requires |vert| == CALI_CHANNELS && |hori| == CALI_CHANNELS
    requires row < |rows| && row < CALI_CHANNELS && |rows[row]| >= 1 && stof(rows[row][0]).None?
    ensures RowsReadable(rows, stof, row)
    ensures LoadRows(vert, hori, rows, stof, row) == LoadOutcome(vert, hori, true)
  {
  }

  /** Every line of the file split into its fields, one `SplitLine` per line. */
  method SplitLines(lines: seq<string>) returns (rows: seq<seq<string>>)
    ensures rows == FieldsOf(lines)
  {
    rows := [];
    var i := 0;
    while i < |lines|
      invariant 0 <= i <= |lines|
      invariant rows == FieldsOf(lines[..i])
    {
      var fields := SplitLine(lines[i]);
      assert lines[..i + 1] == lines[..i] + [lines[i]];
      rows := rows + [fields];
      i := i + 1;
    }
    assert lines[..i] == lines;
  }

  /** The row loop of `loadCalibrationFile` over the split lines: the first two fields of each
      row are parsed with `stof`; the loop stops after row 31, at the end of the file, or where a
      field is rejected. */
  method ReadAngleRows(vert0: seq<real>, hori0: seq<real>, rows: seq<seq<string>>, stof: string -> Option<real>)
    returns (o: LoadOutcome)
    requires |vert0| == CALI_CHANNELS && |hori0| == CALI_CHANNELS && RowsReadable(rows, stof, 0)
    ensures o == LoadRows(vert0, hori0, rows, stof, 0)
  {
    var vert, hori := vert0, hori0;
    var rowIndex := 0;
    while rowIndex < |rows|
      invariant 0 <= rowIndex < CALI_CHANNELS && rowIndex <= |rows|
      invariant |vert| == CALI_CHANNELS && |hori| == CALI_CHANNELS
      invariant RowsReadable(rows, stof, rowIndex)
      invariant LoadRows(vert, hori, rows, stof, rowIndex) == LoadRows(vert0, hori0, rows, stof, 0)
    {
      var vectStr := rows[rowIndex];
      var v := stof(vectStr[0]);
      if v.None? {
        return LoadOutcome(vert, hori, true);
      }
      var h := stof(vectStr[1]);
      if h.None? {
        return LoadOutcome(vert[rowIndex := v.value * 100.0], hori, true);
      }
      vert, hori := vert[rowIndex := v.value * 100.0], hori[rowIndex := h.value * 100.0];
      rowIndex := rowIndex + 1;
      if rowIndex >= CALI_CHANNELS {
        break;
      }
    }
    return LoadOutcome(vert, hori, false);
  }

  /** Entries from row min(|rows|, 32) on are never touched: the file can only fill rows it
      reaches, and the load stops after row 31. */
  lemma {:induction false} LoadRowsCapped(vert: seq<real>, hori: seq<real>, rows: seq<seq<string>>,
                                          stof: string -> Option<real>, row: nat, k: nat)
    requires |vert| == CALI_CHANNELS && |hori| == CALI_CHANNELS
    requires row <= |rows| && row <= CALI_CHANNELS && RowsReadable(rows, stof, row)
    requires k < CALI_CHANNELS && (k >= |rows| || k < row)
    ensures LoadRows(vert, hori, rows, stof, row).vert[k] == vert[k]
    ensures LoadRows(vert, hori, rows, stof, row).hori[k] == hori[k]
    decreases CALI_CHANNELS - row
  {
    if row < |rows| && row < CALI_CHANNELS {
      assert k != row;
      var fs := rows[row];
      if stof(fs[0]).Some? && stof(fs[1]).Some? {
        var v, h := stof(fs[0]), stof(fs[1]);
        var vert', hori' := vert[row := v.value * 100.0], hori[row := h.value * 100.0];
        assert LoadRows(vert, hori, rows, stof, row) == LoadRows(vert', hori', rows, stof, row + 1);
        LoadRowsCapped(vert', hori', rows, stof, row + 1, k);
        assert vert'[k] == vert[k] && hori'[k] == hori[k];
      }
    }
  }

  /** Lines after the 32nd never influence the load. */
  lemma {:induction false} LoadRowsIgnoresExtraLines(vert: seq<real>, hori: seq<real>, rows: seq<seq<string>>,
                                                    stof: string -> Option<real>, row: nat)
    requires |vert| == CALI_CHANNELS && |hori| == CALI_CHANNELS
    requires |rows| > CALI_CHANNELS && row <= CALI_CHANNELS && RowsReadable(rows, stof, row)
    ensures RowsReadable(rows[..CALI_CHANNELS], stof, row)
    ensures LoadRows(vert, hori, rows, stof, row) == LoadRows(vert, hori, rows[..CALI_CHANNELS], stof, row)
    decreases CALI_CHANNELS - row
  {
    var short := rows[..CALI_CHANNELS];
    if row < CALI_CHANNELS {
      assert short[row] == rows[row];
      var fs := rows[row];
      if stof(fs[0]).Some? && stof(fs[1]).Some? {
        LoadRowsIgnoresExtraLines(vert[row := stof(fs[0]).value * 100.0], hori[row := stof(fs[1]).value * 100.0],
                                  rows, stof, row + 1);
      }
    }
  }

  /** When every field parses, row r of the file becomes entry r of both tables, in hundredths
      of a degree, for each of the first min(|rows|, 32) rows. */
  lemma {:induction false} LoadRowsStoresRows(vert: seq<real>, hori: seq<real>, rows: seq<seq<string>>,
                                              stof: string -> Option<real>, row: nat, k: nat)
    requires |vert| == CALI_CHANNELS && |hori| == CALI_CHANNELS
    requires row <= |rows| && row <= CALI_CHANNELS && RowsReadable(rows, stof, row)
    requires forall r :: 0 <= r < |rows| && r < CALI_CHANNELS ==>
      |rows[r]| >= 2 && stof(rows[r][0]).Some? && stof(rows[r][1]).Some?
    requires row <= k < |rows| && k < CALI_CHANNELS
    ensures !LoadRows(vert, hori, rows, stof, row).threw
    ensures LoadRows(vert, hori, rows, stof, row).vert[k] == stof(rows[k][0]).value * 100.0
    ensures LoadRows(vert, hori, rows, stof, row).hori[k] == stof(rows[k][1]).value * 100.0
    decreases CALI_CHANNELS - row
  {
    var fs := rows[row];
    var v, h := stof(fs[0]).value, stof(fs[1]).value;
    var vert', hori' := vert[row := v * 100.0], hori[row := h * 100.0];
    assert LoadRows(vert, hori, rows, stof, row) == LoadRows(vert', hori', rows, stof, row + 1);
    if k == row {
      LoadRowsCapped(vert', hori', rows, stof, row + 1, k);
      if row + 1 < |rows| && row + 1 < CALI_CHANNELS {
        LoadRowsStoresRows(vert', hori', rows, stof, row + 1, row + 1);
      }
    } else {
      LoadRowsStoresRows(vert', hori', rows, stof, row + 1, k);
    }
  }
}
