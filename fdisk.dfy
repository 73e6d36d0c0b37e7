/** The partition table as `fdisk -l` prints it, read into records
    (`_parse_fdisk_stats`, `_map_str_to_int`, `_select_partition` and the two
    offsets computed from the first partition). */
module Fdisk {
  import opened Outcomes
  import opened Text
  import opened Machine

  /** A value of a record: a regex group that did not take part (None), a number,
      or text. */
  datatype Val = NoVal | Int(n: nat) | Str(s: string)

  /** A Python dict from field name to value. */
  type Record = map<string, Val>

  /** The parse of an `fdisk -l` listing: `{}` for no output, otherwise the disk
      fields and one record per partition line. */
  datatype FdiskStats = NoOutput | Stats(disk: Record, devices: seq<Record>)

  /** Index of the first partition line of the listing. */
  const DeviceLine: nat := 9

  // ---------------------------------------------------------------------------
  // Digit strings become integers

  /** `_map_str_to_int` on one value: a string of digits becomes its int. */
  function Convert(v: Val): Val {
    if v.Str? && IsDigits(v.s) then Int(DigitsValue(v.s)) else v
  }

  /** Every value of `d` is a digit string, as a regex group of digits is. */
  predicate AllDigitStrings(d: Record) {
    forall k :: k in d ==> d[k].Str? && IsDigits(d[k].s)
  }

  lemma UnionDigitStrings(a: Record, b: Record)
    requires AllDigitStrings(a) && AllDigitStrings(b)
    ensures AllDigitStrings(a + b)
  {
  }

  /** No value of `d` is a digit string any more. */
  predicate NoDigitStrings(d: Record) {
    forall k :: k in d ==> !(d[k].Str? && IsDigits(d[k].s))
  }

  /** The dictionary `_map_str_to_int` leaves behind. */
  function ConvertAll(d: Record): (r: Record)
    ensures r.Keys == d.Keys
    ensures NoDigitStrings(r)
    ensures forall k :: k in d && d[k].Str? && IsDigits(d[k].s) ==> r[k] == Int(DigitsValue(d[k].s))
    ensures forall k :: k in d && !(d[k].Str? && IsDigits(d[k].s)) ==> r[k] == d[k]
  {
    map k | k in d :: Convert(d[k])
  }

  /** Converting twice is converting once. */
  lemma ConvertAllIdempotent(d: Record)
    ensures ConvertAll(ConvertAll(d)) == ConvertAll(d)
  {
  }

  /** `_map_str_to_int(dictionary)`: rewrites, key by key, every digit-string value
      as an int. */
  method MapStrToInt(d: Record) returns (r: Record)
    ensures r == ConvertAll(d)
  {
    r := d;
    var todo := d.Keys;
    while todo != {}
      invariant todo <= d.Keys
      invariant r.Keys == d.Keys
      invariant forall k :: k in d && k in todo ==> r[k] == d[k]
      invariant forall k :: k in d && k !in todo ==> r[k] == Convert(d[k])
      decreases todo
    {
      var k :| k in todo;
      var v := d[k];
      if v.Str? && IsDigits(v.s) {
        r := r[k := Int(DigitsValue(v.s))];
      }
      todo := todo - {k};
    }
  }

  // ---------------------------------------------------------------------------
  // Searching a line for a sequence of words and numbers

  /** One element of a line pattern: a named run of digits, or a literal word. */
  datatype Piece = Field(key: string) | Word(w: string)

  predicate PieceFits(t: string, p: Piece) {
    match p
    case Field(_) => IsDigits(t)
    case Word(w) => t == w
  }

  /** The pattern fits the tokens starting at token `i`. */
  predicate FitsAt(toks: seq<string>, pat: seq<Piece>, i: int) {
    0 <= i <= |toks| - |pat| && forall j :: 0 <= j < |pat| ==> PieceFits(toks[i + j], pat[j])
  }

  /** The first token index at or after `i` where the pattern fits, or -1. */
  function FirstFit(toks: seq<string>, pat: seq<Piece>, i: nat): (r: int)
    ensures r == -1 || (i <= r && FitsAt(toks, pat, r))
    ensures r == -1 ==> forall j :: i <= j ==> !FitsAt(toks, pat, j)
    ensures r >= 0 ==> forall j :: i <= j < r ==> !FitsAt(toks, pat, j)
    decreases |toks| - i
  {
    if i + |pat| > |toks| then -1
    else if FitsAt(toks, pat, i) then i
    else FirstFit(toks, pat, i + 1)
  }

  function FieldKeys(pat: seq<Piece>): set<string> {
    if pat == [] then {}
    else (if pat[0].Field? then {pat[0].key} else {}) + FieldKeys(pat[1..])
  }

  /** The named groups of a fitting window, as strings (`groupdict()`). */
  function Capture(toks: seq<string>, pat: seq<Piece>): (r: Record)
    requires |toks| == |pat|
    requires forall j :: 0 <= j < |pat| ==> PieceFits(toks[j], pat[j])
    ensures r.Keys == FieldKeys(pat)
    ensures forall k :: k in r ==> r[k].Str? && IsDigits(r[k].s)
  {
    if pat == [] then map[]
    else
      var rest := Capture(toks[1..], pat[1..]);
      assert PieceFits(toks[0], pat[0]);
      match pat[0]
      case Field(k) => rest[k := Str(toks[0])]
      case Word(_) => rest
  }

  /** `regex.search(line).groupdict()`, or None when nothing matches. */
  function Search(line: string, pat: seq<Piece>): (r: Option<Record>)
    ensures r.Some? <==> exists j :: FitsAt(Tokens(line), pat, j)
    ensures r.Some? ==> r.value.Keys == FieldKeys(pat)
    ensures r.Some? ==> AllDigitStrings(r.value)
  {
    var toks := Tokens(line);
    var i := FirstFit(toks, pat, 0);
    if i < 0 then None
    else
      assert forall j :: 0 <= j < |pat| ==> PieceFits(toks[i..i + |pat|][j], pat[j]) by {
        forall j | 0 <= j < |pat| ensures PieceFits(toks[i..i + |pat|][j], pat[j]) {
          assert toks[i..i + |pat|][j] == toks[i + j];
        }
      }
      assert FitsAt(toks, pat, i);
      assert toks == Tokens(line);
      assert FitsAt(Tokens(line), pat, i);
      Some(Capture(toks[i..i + |pat|], pat))
  }

  /** Line 2: "255 heads, 63 sectors/track, 1174 cylinders, total 18874368 sectors". */
  const GeometryLine: seq<Piece> := [Field("heads"), Word("heads,"),
    Field("sectors_per_track"), Word("sectors/track,"), Field("cylinders"), Word("cylinders,"),
    Word("total"), Field("sectors_total"), Word("sectors")]

  /** Line 3: "Units = sectors of 1 * 512 = 512 bytes". */
  const UnitLine: seq<Piece> := [Field("unit_byte_size"), Word("bytes")]

  /** Line 4: "Sector size (logical/physical): 512 bytes / 512 bytes". */
  const SectorLine: seq<Piece> := [Field("logical_sector_size"), Word("bytes"), Word("/"),
    Field("physical_sector_size"), Word("bytes")]

  /** The fields every parsed disk record holds. */
  const DiskKeys: set<string> := {"heads", "sectors_per_track", "cylinders", "sectors_total",
    "unit_byte_size", "logical_sector_size", "physical_sector_size"}

  lemma DiskFieldKeys()
    ensures FieldKeys(GeometryLine) + FieldKeys(UnitLine) + FieldKeys(SectorLine) == DiskKeys
  {
    GeometryKeys();
    SectorKeys();
    assert UnitLine[1..][1..] == [];
  }

  lemma GeometryKeys()
    ensures FieldKeys(GeometryLine) == {"heads", "sectors_per_track", "cylinders", "sectors_total"}
  {
    var g := GeometryLine;
    assert FieldKeys(g[8..]) == {} by { assert g[8..][1..] == []; }
    assert FieldKeys(g[6..]) == {"sectors_total"} by { assert g[6..][1..][1..] == g[8..]; }
    assert FieldKeys(g[4..]) == {"cylinders", "sectors_total"} by { assert g[4..][1..][1..] == g[6..]; }
    assert FieldKeys(g[2..]) == {"sectors_per_track", "cylinders", "sectors_total"} by { assert g[2..][1..][1..] == g[4..]; }
    assert g[1..][1..] == g[2..];
  }

  lemma SectorKeys()
    ensures FieldKeys(SectorLine) == {"logical_sector_size", "physical_sector_size"}
  {
    assert SectorLine[1..][1..][1..][1..][1..] == [];
  }

  // ---------------------------------------------------------------------------
  // Partition lines

  predicate IsStars(t: string) { |t| > 0 && forall i :: 0 <= i < |t| ==> t[i] == '*' }

  predicate IsWordChar(c: char) { 'a' <= c <= 'z' || 'A' <= c <= 'Z' || IsDigit(c) || c == '_' }

  predicate IsWord(t: string) { |t| > 0 && forall i :: 0 <= i < |t| ==> IsWordChar(t[i]) }

  /** The block count with its optional trailing '+' removed, when it is a count. */
  function BlockCount(t: string): Option<string> {
    if IsDigits(t) then Some(t)
    else if |t| > 1 && t[|t| - 1] == '+' && IsDigits(t[..|t| - 1]) then Some(t[..|t| - 1])
    else None
  }

  /** A partition line: name, optional run of '*', start, end, blocks (an optional
      '+'), id and system, as strings; None for lines that do not have that shape. */
  function PartitionLine(line: string): (r: Option<Record>)
    ensures r.Some? ==> r.value.Keys == {"image_name", "bootable", "start", "end", "blocks", "id", "system"}
    ensures r.Some? ==> r.value["image_name"].Str? && r.value["image_name"].s != ""
    ensures r.Some? ==> forall k :: k in {"start", "end", "blocks"} ==>
      r.value[k].Str? && IsDigits(r.value[k].s)
  {
    var t := Tokens(line);
    if |t| < 2 then None
    else
      var b := if IsStars(t[1]) then 1 else 0;
      if |t| < 6 + b then None
      else if !IsDigits(t[1 + b]) || !IsDigits(t[2 + b]) || BlockCount(t[3 + b]).None? || !IsWord(t[4 + b]) then None
      else
        Some(map["image_name" := Str(t[0]),
                 "bootable" := if b == 1 then Str(t[1]) else NoVal,
                 "start" := Str(t[1 + b]),
                 "end" := Str(t[2 + b]),
                 "blocks" := Str(BlockCount(t[3 + b]).value),
                 "id" := Str(t[4 + b]),
                 "system" := Str(Join(" ", t[5 + b..]))])
  }

  /** The partition records of the given lines, in order, as strings. */
  function PartitionRecords(ls: seq<string>): seq<Record> {
    if ls == [] then []
    else
      var last := PartitionLine(ls[|ls| - 1]);
      PartitionRecords(ls[..|ls| - 1]) + (if last.Some? then [last.value] else [])
  }

  /** Records keep the order of their lines: the records of a concatenation are
      those of the first part followed by those of the second. */
  lemma {:induction false} PartitionRecordsConcat(a: seq<string>, b: seq<string>)
    ensures PartitionRecords(a + b) == PartitionRecords(a) + PartitionRecords(b)
    decreases |b|
  {
    if b != [] {
      var b' := b[..|b| - 1];
      assert (a + b)[..|a + b| - 1] == a + b';
      assert (a + b)[|a + b| - 1] == b[|b| - 1];
      PartitionRecordsConcat(a, b');
    } else {
      assert a + b == a;
    }
  }

  /** A line that is not a partition line contributes no record; one that is
      contributes exactly its own. */
  lemma PartitionRecordsOne(l: string)
    ensures PartitionRecords([l]) == if PartitionLine(l).Some? then [PartitionLine(l).value] else []
  {
    assert [l][..0] == [];
  }

  /** There are never more records than lines. */
  lemma {:induction false} PartitionRecordsBound(ls: seq<string>)
    ensures |PartitionRecords(ls)| <= |ls|
  {
    if ls != [] {
      PartitionRecordsBound(ls[..|ls| - 1]);
    }
  }

  /** Each partition record after int conversion: start, end and blocks are ints. */
  predicate ParsedPartition(d: Record) {
    "image_name" in d && d["image_name"] != NoVal &&
    "start" in d && d["start"].Int? && "end" in d && d["end"].Int? && "blocks" in d && d["blocks"].Int?
  }

  lemma {:induction false} PartitionRecordsShaped(ls: seq<string>)
    ensures forall i :: 0 <= i < |PartitionRecords(ls)| ==> ParsedPartition(ConvertAll(PartitionRecords(ls)[i]))
  {
    if ls != [] {
      PartitionRecordsShaped(ls[..|ls| - 1]);
    }
  }

  function ConvertEach(ds: seq<Record>): (r: seq<Record>)
    ensures |r| == |ds| && forall i :: 0 <= i < |ds| ==> r[i] == ConvertAll(ds[i])
  {
    seq(|ds|, i requires 0 <= i < |ds| => ConvertAll(ds[i]))
  }

  // ---------------------------------------------------------------------------
  // The whole listing

  /** The messages of the exceptions the parse runs into. */
  const MissingLine := "IndexError: list index out of range"
  const NoMatch := "AttributeError: 'NoneType' object has no attribute 'groupdict'"

  /** The disk record of lines 2, 3 and 4, before int conversion: each line must
      exist and match its pattern. */
  function DiskRecord(ls: seq<string>): (r: Outcome<Record>)
    ensures r.Ok? <==> (|ls| >= 5 && Search(ls[2], GeometryLine).Some? &&
      Search(ls[3], UnitLine).Some? && Search(ls[4], SectorLine).Some?)
    ensures r.Ok? ==> r.value.Keys == DiskKeys
    ensures r.Ok? ==> AllDigitStrings(r.value)
  {
    if |ls| <= 2 then Raised(MissingLine)
    else
      var g := Search(ls[2], GeometryLine);
      if g.None? then Raised(NoMatch)
      else if |ls| <= 3 then Raised(MissingLine)
      else
        var u := Search(ls[3], UnitLine);
        if u.None? then Raised(NoMatch)
        else if |ls| <= 4 then Raised(MissingLine)
        else
          var s := Search(ls[4], SectorLine);
          if s.None? then Raised(NoMatch)
          else
            DiskFieldKeys();
            UnionDigitStrings(g.value, u.value);
            UnionDigitStrings(g.value + u.value, s.value);
            Ok(g.value + u.value + s.value)
  }

  /** The lines the partition loop visits: index 9 onward. */
  function PartitionLines(ls: seq<string>): (r: seq<string>)
    ensures |r| == if |ls| > DeviceLine then |ls| - DeviceLine else 0
  {
    if |ls| > DeviceLine then ls[DeviceLine..] else []
  }

  /** The reference parse of `_parse_fdisk_stats`: no output gives the empty parse;
      otherwise the converted disk record and the converted records of the
      partition lines from index 9 on. */
  function ParseFdiskSpec(output: string): Outcome<FdiskStats> {
    if output == "" then Ok(NoOutput)
    else
      var ls := SplitStr(output, "\n");
      match DiskRecord(ls)
      case Raised(m) => Raised(m)
      case Ok(disk) => Ok(Stats(ConvertAll(disk), ConvertEach(PartitionRecords(PartitionLines(ls)))))
  }

  /** Empty output, and only empty output, parses to the empty map. */
  lemma ParseEmpty(output: string)
    ensures output == "" <==> ParseFdiskSpec(output) == Ok(NoOutput)
  {
  }

  /** The parse raises exactly when one of lines 2, 3 and 4 is missing or does not
      match. */
  lemma ParseRaises(output: string)
    requires output != ""
    ensures ParseFdiskSpec(output).Raised? <==> (var ls := SplitStr(output, "\n");
      |ls| < 5 || Search(ls[2], GeometryLine).None? || Search(ls[3], UnitLine).None? ||
      Search(ls[4], SectorLine).None?)
  {
  }

  /** A successful parse holds the seven disk fields, all ints, and at most one
      record per line from index 9 (none when there are no such lines), each with
      int start, end and blocks. */
  lemma ParseShape(output: string)
    requires ParseFdiskSpec(output).Ok? && ParseFdiskSpec(output).value.Stats?
    ensures WellParsed(ParseFdiskSpec(output).value)
    ensures ParseFdiskSpec(output).value.devices == [] ||
      |ParseFdiskSpec(output).value.devices| + DeviceLine <= |SplitStr(output, "\n")|
  {
    var ls := SplitStr(output, "\n");
    var disk := DiskRecord(ls).value;
    var lines := PartitionLines(ls);
    assert ParseFdiskSpec(output) == Ok(Stats(ConvertAll(disk), ConvertEach(PartitionRecords(lines))));
    ConvertedShape(disk, lines);
    PartitionRecordsBound(lines);
  }

  /** The disk fields are the seven of lines 2 to 4, all ints; every partition
      record has int start, end and blocks. */
  predicate WellParsed(st: FdiskStats) {
    st.Stats? && st.disk.Keys == DiskKeys && (forall k :: k in st.disk ==> st.disk[k].Int?) &&
    forall i :: 0 <= i < |st.devices| ==> ParsedPartition(st.devices[i])
  }

  lemma ConvertedShape(disk: Record, lines: seq<string>)
    requires disk.Keys == DiskKeys
    requires AllDigitStrings(disk)
    ensures WellParsed(Stats(ConvertAll(disk), ConvertEach(PartitionRecords(lines))))
  {
    PartitionRecordsShaped(lines);
  }

  /** The partition loop of `_parse_fdisk_stats`: from line 9 to the end, every line
      that parses as a partition line adds its record. */
  method WalkPartitionLines(ls: seq<string>) returns (devices: seq<Record>)
    ensures devices == PartitionRecords(PartitionLines(ls))
  {
    devices := [];
    var line := DeviceLine;
    while line < |ls|
      invariant (line == DeviceLine && devices == []) ||
        (DeviceLine < line <= |ls| && devices == PartitionRecords(ls[DeviceLine..line]))
      decreases |ls| - line
    {
      var p := PartitionLine(ls[line]);
      assert ls[DeviceLine..line + 1][..line - DeviceLine] == ls[DeviceLine..line];
      if p.Some? {
        devices := devices + [p.value];
      }
      line := line + 1;
    }
    assert devices == PartitionRecords(PartitionLines(ls)) by {
      if line > DeviceLine {
        assert ls[DeviceLine..line] == ls[DeviceLine..];
      }
    }
  }

  /** `[_map_str_to_int(dev) for dev in devices]`. */
  method MapEachStrToInt(devices: seq<Record>) returns (converted: seq<Record>)
    ensures converted == ConvertEach(devices)
  {
    converted := [];
    for i := 0 to |devices|
      invariant |converted| == i
      invariant forall j :: 0 <= j < i ==> converted[j] == ConvertAll(devices[j])
    {
      var d := MapStrToInt(devices[i]);
      converted := converted + [d];
    }
  }

  /** `_parse_fdisk_stats(output)`: reads lines 2, 3 and 4 into the disk record, then
      walks the partition lines from index 9, collecting every line that parses. */
  method ParseFdiskStats(output: string) returns (r: Outcome<FdiskStats>)
    ensures r == ParseFdiskSpec(output)
  {
    if output == "" {
      return Ok(NoOutput);
    }
    var ls := SplitStr(output, "\n");
    if |ls| <= 2 { return Raised(MissingLine); }
    var g := Search(ls[2], GeometryLine);
    if g.None? { return Raised(NoMatch); }
    var disk := g.value;
    if |ls| <= 3 { return Raised(MissingLine); }
    var u := Search(ls[3], UnitLine);
    if u.None? { return Raised(NoMatch); }
    disk := disk + u.value;
    if |ls| <= 4 { return Raised(MissingLine); }
    var s := Search(ls[4], SectorLine);
    if s.None? { return Raised(NoMatch); }
    disk := disk + s.value;
    assert DiskRecord(ls) == Ok(disk);
    var devices := WalkPartitionLines(ls);
    disk := MapStrToInt(disk);
    var converted := MapEachStrToInt(devices);
    return Ok(Stats(disk, converted));
  }

  // ---------------------------------------------------------------------------
  // Choosing a partition and its offset

  /** `_select_partition`: the first partition, or None for an empty list. */
  function SelectPartition(parts: seq<Record>): (r: Option<Record>)
    ensures r.None? <==> parts == []
    ensures r.Some? ==> r.value == parts[0]
  {
    if parts == [] then None else Some(parts[0])
  }

  /** `fdisk_image(path)`: lists the partition table of `path` and parses it. */
  function FdiskImage(env: Env, w: World, path: string): (res: (Outcome<FdiskStats>, World))
    ensures res.1 == w.(log := w.log + [["fdisk", "-l", path]])
    ensures res.0 == ParseFdiskSpec(env.respond(w.log, ["fdisk", "-l", path]).out)
  {
    var (reply, w1) := Run(env, w, ["fdisk", "-l", path], false);
    (ParseFdiskSpec(reply.out), w1)
  }

  /** `_fdisk_get_partition(path)`: `fdisk_stats['devices']` raises KeyError on the
      empty parse. */
  function FdiskGetPartition(env: Env, w: World, path: string): (res: (Outcome<Option<Record>>, World))
    ensures res.1 == FdiskImage(env, w, path).1
    ensures res.0.Ok? <==> FdiskImage(env, w, path).0.Ok? && FdiskImage(env, w, path).0.value.Stats?
    ensures res.0.Ok? ==> res.0.value == SelectPartition(FdiskImage(env, w, path).0.value.devices)
  {
    var (st, w1) := FdiskImage(env, w, path);
    match st
    case Raised(m) => (Raised(m), w1)
    case Ok(NoOutput) => (Raised("KeyError: 'devices'"), w1)
    case Ok(Stats(_, devs)) => (Ok(SelectPartition(devs)), w1)
  }

  /** The listing has a partition, and the unit size and the first start are ints. */
  predicate HasOffsetFields(st: FdiskStats) {
    st.Stats? && st.devices != [] && "unit_byte_size" in st.disk && st.disk["unit_byte_size"].Int? &&
    "start" in st.devices[0] && st.devices[0]["start"].Int?
  }

  /** The loop-mount offset of `mount_raw_with_offsets`:
      `disk['unit_byte_size'] * partition['start']`, raising for the empty parse
      and for a listing without partitions. */
  function RawOffset(st: FdiskStats): (r: Outcome<int>)
    ensures r.Ok? <==> HasOffsetFields(st)
    ensures r.Ok? ==> r.value >= 0
    ensures r.Ok? ==> r.value == st.disk["unit_byte_size"].n * st.devices[0]["start"].n
  {
    match st
    case NoOutput => Raised("Cannot mount as a raw image. Is it a QCOW?")
    case Stats(disk, devs) =>
      match SelectPartition(devs)
      case None => Raised("TypeError: 'NoneType' object has no attribute '__getitem__'")
      case Some(p) =>
        if "unit_byte_size" in disk && disk["unit_byte_size"].Int? && "start" in p && p["start"].Int?
        then Ok(disk["unit_byte_size"].n * p["start"].n)
        else Raised("TypeError")
  }

  /** For a listing that parses and has a partition, the raw offset is always
      defined: the unit size times the first partition's start sector. */
  lemma ParsedRawOffset(output: string)
    requires ParseFdiskSpec(output).Ok? && ParseFdiskSpec(output).value.Stats?
    requires ParseFdiskSpec(output).value.devices != []
    ensures RawOffset(ParseFdiskSpec(output).value).Ok?
  {
    ParseShape(output);
    assert "unit_byte_size" in DiskKeys;
    assert ParsedPartition(ParseFdiskSpec(output).value.devices[0]);
  }

  /** `int(partition.get('start', 0)) * 512`: the byte offset of the partition in
      a qcow image, 0 when the record has no start. */
  function QcowOffset(p: Record): (r: Outcome<int>)
    ensures r.Ok? ==> r.value >= 0
    ensures "start" !in p ==> r == Ok(0)
    ensures "start" in p && p["start"].Int? ==> r == Ok(p["start"].n * 512)
    ensures "start" in p && p["start"].NoVal? ==> r.Raised?
  {
    if "start" !in p then Ok(0)
    else match p["start"]
      case Int(n) => Ok(n * 512)
      case Str(s) => if IsDigits(s) then Ok(DigitsValue(s) * 512) else Raised("ValueError: invalid literal for int()")
      case NoVal => Raised("TypeError: int() argument must be a string or a number")
  }

  /** A parsed partition always yields its start sector times 512. */
  lemma ParsedQcowOffset(d: Record)
    requires ParsedPartition(d)
    ensures QcowOffset(d) == Ok(d["start"].n * 512)
  {
  }

  /** `partition.get('image_name', nbd_dev)` as it is then passed to `parted`: the
      device when the record has no name; a name that is not text makes the command
      line join raise. */
  function MountFrom(p: Record, nbd: string): (r: Outcome<string>)
    ensures "image_name" !in p ==> r == Ok(nbd)
    ensures r.Ok? && "image_name" in p ==> p["image_name"] == Str(r.value)
    ensures "image_name" in p && p["image_name"].Str? ==> r.Ok?
  {
    if "image_name" !in p then Ok(nbd)
    else match p["image_name"]
      case Str(s) => Ok(s)
      case _ => Raised("TypeError: sequence item: expected string")
  }
}
