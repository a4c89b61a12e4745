/** Resolution of a file-system path to the raw device that holds it: a CD-ROM
    through the DOS device alias of the path's drive letter, otherwise a physical
    drive through the partition-to-logical-disk association table the management
    service returns. */
module DeviceFromPath {
  import opened Common
  import opened Platform
  import Volumes

  // ------------------------------------------------------------ quoted values

  /** The key opener searched for in a management object path: `:type="`. */
  function Opener(typeName: string): string {
    ":" + typeName + "=\""
  }

  /** `q` stands between two quotes at position `k` of `value`. */
  predicate QuotedAt(value: string, k: int, q: string) {
    0 < k && k + |q| < |value| && value[k - 1] == '"' && value[k..k + |q|] == q && value[k + |q|] == '"'
  }

  /** The first quoted value after the opener: from the first quote after the
      opener's colon to the next quote. None when the opener or a quote is missing. */
  function QuotedValue(value: string, typeName: string): (r: Option<string>)
    ensures (forall i :: 0 <= i ==> !OccursAt(value, Opener(typeName), i)) ==> r.None?
    ensures r.Some? ==> '"' !in r.value
    ensures r.Some? ==> exists k :: QuotedAt(value, k, r.value)
  {
    var xStart0 := IndexOf(value, Opener(typeName), 0);
    if xStart0 < 0 then None
    else
      var xStart1 := IndexOf(value, "\"", xStart0 + 1);
      if xStart1 < 0 then None
      else
        var xEnd1 := IndexOf(value, "\"", xStart1 + 1);
        if xEnd1 < 0 then None
        else
          var q := value[xStart1 + 1..xEnd1];
          assert '"' !in q by {
            forall j | 0 <= j < |q| ensures q[j] != '"' {
              assert !OccursAt(value, "\"", xStart1 + 1 + j);
            }
          }
          assert value[xStart1] == '"' by { assert OccursAt(value, "\"", xStart1); }
          assert value[xEnd1] == '"' by { assert OccursAt(value, "\"", xEnd1); }
          assert QuotedAt(value, xStart1 + 1, q);
          Some(q)
  }

  /** The part of `extract` from the end of the first `start` marker up to the
      first `end` marker; an empty marker stands for the beginning, respectively
      the end. A missing marker gives None; an end marker found before the start
      marker's end makes the substring call throw. */
  function Between(extract: string, start: string, end: string): (r: Result<Option<string>>)
    ensures start != "" && (forall i :: 0 <= i ==> !OccursAt(extract, start, i)) ==> r == Ok(None)
    ensures end != "" && (forall i :: 0 <= i ==> !OccursAt(extract, end, i)) ==> r == Ok(None)
    ensures r.Ok? && r.value.Some? ==> |r.value.value| <= |extract|
  {
    var xStart2 := if start != "" then IndexOf(extract, start, 0) else 0;
    if xStart2 < 0 then Ok(None)
    else
      var xEnd2 := if end != "" then IndexOf(extract, end, 0) else |extract|;
      if xEnd2 < 0 then Ok(None)
      else if xEnd2 - xStart2 - |start| < 0 then Err(ArgumentOutOfRange)
      else Ok(Some(extract[xStart2 + |start|..xEnd2]))
  }

  /** GetSubsubstring: the marked part of the first quoted value of `type`. */
  function GetSubsubstring(value: string, typeName: string, start: string, end: string): (r: Result<Option<string>>)
    ensures QuotedValue(value, typeName).None? ==> r == Ok(None)
    ensures r.Ok? && r.value.Some? ==> '"' !in r.value.value
  {
    var extract := QuotedValue(value, typeName);
    if extract.None? then Ok(None)
    else
      var r := Between(extract.value, start, end);
      assert r.Ok? && r.value.Some? ==> '"' !in r.value.value by {
        if r.Ok? && r.value.Some? {
          var e := extract.value;
          var a := if start != "" then IndexOf(e, start, 0) else 0;
          var b := if end != "" then IndexOf(e, end, 0) else |e|;
          assert r.value.value == e[a + |start|..b];
          forall j | 0 <= j < |r.value.value| ensures r.value.value[j] != '"' {
            assert r.value.value[j] == e[a + |start| + j];
          }
        }
      }
      r
  }

  /** A position where the first character of `pat` is absent is no occurrence. */
  lemma NoOccurrenceWithoutFirst(s: string, pat: string, from: nat, k: nat)
    requires pat != [] && k <= |s|
    requires forall i :: from <= i < k ==> s[i] != pat[0]
    ensures forall i :: from <= i < k ==> !OccursAt(s, pat, i)
  {
    forall i | from <= i < k ensures !OccursAt(s, pat, i) {
      if i + |pat| <= |s| {
        assert s[i..i + |pat|][0] == s[i];
      }
    }
  }

  /** The first quote after an opener's colon is the opener's own last character. */
  lemma OpenerQuote(value: string, typeName: string, p: nat)
    requires OccursAt(value, Opener(typeName), p) && '"' !in typeName
    ensures IndexOf(value, "\"", p + 1) == p + |Opener(typeName)| - 1
  {
    var o := Opener(typeName);
    var k1 := p + |o| - 1;
    assert value[p..p + |o|] == o;
    forall i | p + 1 <= i <= k1 ensures value[i] == o[i - p] {
      assert value[p..p + |o|][i - p] == value[i];
    }
    forall i | p + 1 <= i < k1 ensures value[i] != '"' {
      if i - p <= |typeName| {
        assert o[i - p] == typeName[i - p - 1];
      }
    }
    NoOccurrenceWithoutFirst(value, "\"", p + 1, k1);
    assert value[k1..k1 + 1] == "\"";
    IndexOfIs(value, "\"", p + 1, k1);
  }

  /** QuotedValue by positions: the first opener at `p`, the closing quote at `k2`. */
  lemma QuotedValueAt(value: string, typeName: string, p: nat, k2: nat)
    requires OccursAt(value, Opener(typeName), p) && '"' !in typeName
    requires IndexOf(value, Opener(typeName), 0) == p
    requires p + |Opener(typeName)| <= |value| && IndexOf(value, "\"", p + |Opener(typeName)|) == k2
    ensures QuotedValue(value, typeName) == Some(value[p + |Opener(typeName)|..k2])
  {
    OpenerQuote(value, typeName, p);
  }

  /** A value laid out as `pre:type="q"post`, with no colon in `pre` and no quote
      in `type` or `q`, has `q` as its quoted value. */
  lemma QuotedValueOf(value: string, pre: string, typeName: string, q: string, post: string)
    requires value == pre + Opener(typeName) + q + "\"" + post
    requires ':' !in pre && '"' !in typeName && '"' !in q
    ensures QuotedValue(value, typeName) == Some(q)
  {
    var o := Opener(typeName);
    var p := |pre|;
    var k2 := p + |o| + |q|;
    assert value[p..p + |o|] == o;
    forall i | 0 <= i < p ensures value[i] != o[0] {
      assert value[i] == pre[i];
    }
    NoOccurrenceWithoutFirst(value, o, 0, p);
    IndexOfIs(value, o, 0, p);
    forall i | p + |o| <= i < k2 ensures value[i] != '"' {
      assert value[i] == q[i - p - |o|];
    }
    assert value[k2] == '"';
    assert value[k2..k2 + 1] == "\"";
    NoOccurrenceWithoutFirst(value, "\"", p + |o|, k2);
    IndexOfIs(value, "\"", p + |o|, k2);
    assert value[p + |o|..k2] == q;
    QuotedValueAt(value, typeName, p, k2);
  }

  /** With both markers empty the whole quoted value is returned. */
  lemma BetweenWhole(extract: string)
    ensures Between(extract, "", "") == Ok(Some(extract))
  {
    assert extract[0..|extract|] == extract;
  }

  /** Between by positions: the first start marker at `s`, the first end marker at `e`. */
  lemma BetweenAt(extract: string, start: string, end: string, s: nat, e: nat)
    requires start != "" && end != ""
    requires IndexOf(extract, start, 0) == s && IndexOf(extract, end, 0) == e && s + |start| <= e
    ensures Between(extract, start, end) == Ok(Some(extract[s + |start|..e]))
  {
  }

  /** With `extract` laid out as `a start m end z`, the first start marker at the
      end of `a` and the first end marker right after `m`, the result is `m`. */
  lemma BetweenMarkers(extract: string, a: string, start: string, m: string, end: string, z: string)
    requires extract == a + start + m + end + z
    requires start != "" && end != ""
    requires forall i :: 0 <= i < |a| ==> !OccursAt(extract, start, i)
    requires forall i :: 0 <= i < |a| + |start| + |m| ==> !OccursAt(extract, end, i)
    ensures Between(extract, start, end) == Ok(Some(m))
  {
    var s := |a|;
    var e := |a| + |start| + |m|;
    assert extract[s..s + |start|] == start;
    IndexOfIs(extract, start, 0, s);
    assert extract[e..e + |end|] == end;
    IndexOfIs(extract, end, 0, e);
    assert extract[s + |start|..e] == m;
    BetweenAt(extract, start, end, s, e);
  }

  /** An end marker anywhere before the end of the first start marker makes the
      substring call throw. */
  lemma BetweenEndBeforeStart(extract: string, start: string, end: string, k: nat)
    requires start != "" && end != ""
    requires IndexOf(extract, start, 0) >= 0
    requires OccursAt(extract, end, k) && k < IndexOf(extract, start, 0) + |start|
    ensures Between(extract, start, end) == Err(ArgumentOutOfRange)
  {
  }

  /** The object-path types of the two association ends and the disk-number marker. */
  const PartitionType: string := "Win32_DiskPartition.DeviceID"
  const LogicalDiskType: string := "Win32_LogicalDisk.DeviceID"
  const DiskMarker: string := "Disk #"

  /** The printed form of a number holds digits and a sign only. */
  lemma Int32TextChars(n: int32)
    ensures forall i :: 0 <= i < |Int32ToString(n)| ==> IsDigit(Int32ToString(n)[i]) || Int32ToString(n)[i] == '-'
  {
    var m: nat := if n < 0 then -(n as int) else n as int;
    var d := NatToString(m);
    if n < 0 {
      forall i | 1 <= i < |Int32ToString(n)| ensures IsDigit(Int32ToString(n)[i]) {
        assert Int32ToString(n)[i] == d[i - 1];
      }
    }
  }

  /** The partition end of an association as the service prints it:
      `server:Win32_DiskPartition.DeviceID="Disk #<disk>, Partition #<partition>"`. */
  function PartitionPath(server: string, disk: int32, partition: int32): string {
    server + Opener(PartitionType) + DiskMarker + Int32ToString(disk) + ", Partition #" +
    Int32ToString(partition) + "\""
  }

  /** The logical-disk end: `server:Win32_LogicalDisk.DeviceID="X:"`. */
  function LogicalDiskPath(server: string, letter: char): string {
    server + Opener(LogicalDiskType) + [letter, ':'] + "\""
  }

  /** The quoted value of a partition path: `Disk #<disk>, Partition #<partition>`. */
  function PartitionId(disk: int32, partition: int32): string {
    DiskMarker + Int32ToString(disk) + ", Partition #" + Int32ToString(partition)
  }

  /** A partition path's quoted value is its partition id. */
  lemma PartitionPathQuoted(server: string, disk: int32, partition: int32)
    requires ':' !in server
    ensures QuotedValue(PartitionPath(server, disk, partition), PartitionType) == Some(PartitionId(disk, partition))
  {
    var d := Int32ToString(disk);
    var q := PartitionId(disk, partition);
    Int32TextChars(disk);
    Int32TextChars(partition);
    forall i | 0 <= i < |q| ensures q[i] != '"' {
      if 6 <= i < 6 + |d| {
        assert q[i] == d[i - 6];
      } else if 6 + |d| + 13 <= i {
        assert q[i] == Int32ToString(partition)[i - 6 - |d| - 13];
      }
    }
    assert PartitionPath(server, disk, partition) == server + Opener(PartitionType) + q + "\"" + "";
    QuotedValueOf(PartitionPath(server, disk, partition), server, PartitionType, q, "");
  }

  /** Between the disk marker and the first comma of a partition id stands the disk number. */
  lemma PartitionIdDisk(disk: int32, partition: int32)
    ensures Between(PartitionId(disk, partition), DiskMarker, ",") == Ok(Some(Int32ToString(disk)))
  {
    var d := Int32ToString(disk);
    var z := " Partition #" + Int32ToString(partition);
    var q := PartitionId(disk, partition);
    NoCommaBeforeDisk(disk, partition);
    NoOccurrenceWithoutFirst(q, ",", 0, 6 + |d|);
    BetweenMarkers(q, "", DiskMarker, d, ",", z);
  }

  /** A partition id is the marker, the disk number, a comma and the rest, and
      holds no comma before that one. */
  lemma NoCommaBeforeDisk(disk: int32, partition: int32)
    ensures var d := Int32ToString(disk);
      var q := PartitionId(disk, partition);
      q == "" + DiskMarker + d + "," + (" Partition #" + Int32ToString(partition)) &&
      forall i :: 0 <= i < 6 + |d| ==> q[i] != ','
  {
    var d := Int32ToString(disk);
    var q := PartitionId(disk, partition);
    Int32TextChars(disk);
    assert q == "" + DiskMarker + d + "," + (" Partition #" + Int32ToString(partition));
    forall i | 0 <= i < 6 + |d| ensures q[i] != ',' {
      if 6 <= i {
        assert q[i] == d[i - 6];
      }
    }
  }

  /** The disk number text is read back from a partition path. */
  lemma DiskNumberOfPartitionPath(server: string, disk: int32, partition: int32)
    requires ':' !in server
    ensures GetSubsubstring(PartitionPath(server, disk, partition), PartitionType, DiskMarker, ",")
            == Ok(Some(Int32ToString(disk)))
  {
    PartitionPathQuoted(server, disk, partition);
    PartitionIdDisk(disk, partition);
  }

  /** The logical disk name is read back from a logical-disk path. */
  lemma LetterOfLogicalDiskPath(server: string, letter: char)
    requires ':' !in server && letter != '"'
    ensures GetSubsubstring(LogicalDiskPath(server, letter), LogicalDiskType, "", "") == Ok(Some([letter, ':']))
  {
    assert LogicalDiskPath(server, letter) == server + Opener(LogicalDiskType) + [letter, ':'] + "\"" + "";
    QuotedValueOf(LogicalDiskPath(server, letter), server, LogicalDiskType, [letter, ':'], "");
    BetweenWhole([letter, ':']);
  }

  // ------------------------------------------------------------ CD-ROM

  const CdRomDevicePrefix: string := "\\\\?\\CDROM"
  const PhysicalDriveDevicePrefix: string := "\\\\?\\PHYSICALDRIVE"

  /** The alias parse: `\Device\CdRom<n>` in any case, n an integer after the
      13-character prefix, becomes `\\?\CDROM<n>`; anything else gives None. */
  function CdRomFromAlias(dosPath: string): Option<string> {
    if StartsWithIgnoreCase(dosPath, Volumes.CdRomAliasPrefix) then
      var n := TryParseInt32(dosPath[13..]);
      if n.Some? then Some(CdRomDevicePrefix + Int32ToString(n.value)) else None
    else None
  }

  /** FindCdRom: the alias of the path's first character as a drive; null path and
      empty path throw. */
  function FindCdRom(dosDevices: map<string, string>, path: Option<string>): Result<Option<string>> {
    if path.None? then Err(NullReference)
    else if path.value == [] then Err(IndexOutOfRange)
    else
      var dosDevice := [path.value[0], ':'];
      if dosDevice in dosDevices then Ok(CdRomFromAlias(dosDevices[dosDevice])) else Ok(None)
  }

  /** Every CD-ROM alias spelling, followed by a printed number, maps to that CD-ROM. */
  lemma CdRomAliasRoundTrip(prefix: string, n: int32)
    requires ToUpper(prefix) == ToUpper(Volumes.CdRomAliasPrefix)
    ensures CdRomFromAlias(prefix + Int32ToString(n)) == Some(CdRomDevicePrefix + Int32ToString(n))
  {
    var s := prefix + Int32ToString(n);
    assert |prefix| == 13;
    forall i | 0 <= i < 13 ensures UpperChar(s[i]) == UpperChar(Volumes.CdRomAliasPrefix[i]) {
      assert s[i] == prefix[i];
      assert UpperChar(prefix[i]) == ToUpper(prefix)[i];
    }
    assert s[13..] == Int32ToString(n);
    Int32RoundTrip(n);
  }

  /** The printed number determines the number. */
  lemma Int32ToStringInjective(m: int32, n: int32, prefix: string)
    requires prefix + Int32ToString(m) == prefix + Int32ToString(n)
    ensures m == n
  {
    assert Int32ToString(m) == (prefix + Int32ToString(m))[|prefix|..];
    assert Int32ToString(n) == (prefix + Int32ToString(n))[|prefix|..];
    Int32RoundTrip(m);
    Int32RoundTrip(n);
  }

  /** FindCdRom names CD-ROM n exactly when the path's drive letter is an alias of
      that CD-ROM, by the same test the letter walk over A-Z uses. */
  lemma FindCdRomIff(dosDevices: map<string, string>, path: string, n: int32)
    requires path != []
    ensures FindCdRom(dosDevices, Some(path)) == Ok(Some(CdRomDevicePrefix + Int32ToString(n))) <==>
            Volumes.IsCdRomLetter(dosDevices, n, path[0])
  {
    var dosDevice := [path[0], ':'];
    if FindCdRom(dosDevices, Some(path)) == Ok(Some(CdRomDevicePrefix + Int32ToString(n))) {
      var m := TryParseInt32(dosDevices[dosDevice][13..]).value;
      Int32ToStringInjective(m, n, CdRomDevicePrefix);
    }
  }

  // ------------------------------------------------------------ physical drive

  /** The position just after the last backslash of `p[..j]` (0 if none). */
  function AfterLastSeparator(p: string, j: nat): (k: nat)
    requires j <= |p|
    ensures k <= j
    ensures forall i :: k <= i < j ==> p[i] != '\\'
    decreases j
  {
    if j == 0 then 0 else if p[j - 1] == '\\' then j else AfterLastSeparator(p, j - 1)
  }

  /** DirectoryInfo.Name of a full path: a drive root "X:\" is its own name;
      otherwise the last component, once one trailing backslash is dropped. */
  function LeafName(path: string): (r: string)
    ensures |path| == 3 && path[1] == ':' && path[2] == '\\' ==> r == path
    ensures !(|path| == 3 && path[1] == ':' && path[2] == '\\') ==> '\\' !in r
  {
    if |path| == 3 && path[1] == ':' && path[2] == '\\' then path
    else
      var p := Volumes.RemoveLastBackslash(path);
      var r := p[AfterLastSeparator(p, |p|)..];
      assert forall i :: 0 <= i < |r| ==> r[i] == p[AfterLastSeparator(p, |p|) + i];
      r
  }

  /** One association's verdict on directory name `name`: None when its logical
      disk is not a prefix of the name (ignoring case); otherwise the device of
      its disk number, or the exception thrown on the way. */
  function MatchOne(a: Association, name: string): (v: Option<Result<string>>)
    ensures v.Some? && v.value.Ok? ==>
      exists n: int32 :: v.value.value == PhysicalDriveDevicePrefix + Int32ToString(n)
  {
    var disk := GetSubsubstring(a.antecedent, PartitionType, DiskMarker, ",");
    if disk.Err? then Some(Err(disk.error))
    else
      var partition := GetSubsubstring(a.dependent, LogicalDiskType, "", "");
      if partition.Err? then Some(Err(partition.error))
      else if partition.value.None? then Some(Err(ArgumentNull))
      else if !StartsWithIgnoreCase(name, partition.value.value) then None
      else
        var n := if disk.value.Some? then TryParseInt32(disk.value.value) else None;
        if n.Some? then Some(Ok(PhysicalDriveDevicePrefix + Int32ToString(n.value)))
        else Some(Err(FormatError("Cannot retrieve physical disk number.")))
  }

  /** The verdicts of the whole table, in table order. */
  function Verdicts(assocs: seq<Association>, name: string): (vs: seq<Option<Result<string>>>)
    ensures |vs| == |assocs|
    ensures forall j :: 0 <= j < |vs| ==> vs[j] == MatchOne(assocs[j], name)
  {
    seq(|assocs|, j requires 0 <= j < |assocs| => MatchOne(assocs[j], name))
  }

  /** The walk from position `i`: the first verdict decides; none gives null. */
  function Decide(vs: seq<Option<Result<string>>>, i: nat): (r: Result<Option<string>>)
    requires i <= |vs|
    ensures r.Ok? && r.value.Some? ==> exists j :: i <= j < |vs| && vs[j] == Some(Ok(r.value.value))
    decreases |vs| - i
  {
    if i == |vs| then Ok(None)
    else if vs[i].None? then Decide(vs, i + 1)
    else if vs[i].value.Err? then Err(vs[i].value.error)
    else Ok(Some(vs[i].value.value))
  }

  /** The physical-drive answer of the association table for directory name `name`. */
  function DriveFrom(assocs: seq<Association>, name: string): (r: Result<Option<string>>)
    ensures r.Ok? && r.value.Some? ==>
      exists n: int32 :: r.value.value == PhysicalDriveDevicePrefix + Int32ToString(n)
  {
    var vs := Verdicts(assocs, name);
    var r := Decide(vs, 0);
    assert r.Ok? && r.value.Some? ==>
      exists n: int32 :: r.value.value == PhysicalDriveDevicePrefix + Int32ToString(n) by {
      if r.Ok? && r.value.Some? {
        var j :| 0 <= j < |vs| && vs[j] == Some(Ok(r.value.value));
        assert MatchOne(assocs[j], name) == Some(Ok(r.value.value));
      }
    }
    r
  }

  /** The first association with a verdict decides the walk. */
  lemma {:induction false} FirstVerdictDecides(vs: seq<Option<Result<string>>>, i: nat, k: nat)
    requires i <= k < |vs|
    requires forall j :: i <= j < k ==> vs[j].None?
    requires vs[k].Some?
    ensures Decide(vs, i) == if vs[k].value.Ok? then Ok(Some(vs[k].value.value)) else Err(vs[k].value.error)
    decreases k - i
  {
    if i < k {
      FirstVerdictDecides(vs, i + 1, k);
    }
  }

  /** Without any verdict the walk gives null. */
  lemma {:induction false} NoVerdictGivesNull(vs: seq<Option<Result<string>>>, i: nat)
    requires i <= |vs|
    requires forall j :: i <= j < |vs| ==> vs[j].None?
    ensures Decide(vs, i) == Ok(None)
    decreases |vs| - i
  {
    if i < |vs| {
      NoVerdictGivesNull(vs, i + 1);
    }
  }

  /** One step of the walk: the verdict of the association at `i`. */
  method MatchAt(assocs: seq<Association>, i: nat, name: string) returns (v: Option<Result<string>>)
    requires i < |assocs|
    ensures v == MatchOne(assocs[i], name)
  {
    var disk := GetSubsubstring(assocs[i].antecedent, PartitionType, DiskMarker, ",");
    if disk.Err? {
      return Some(Err(disk.error));
    }
    var partition := GetSubsubstring(assocs[i].dependent, LogicalDiskType, "", "");
    if partition.Err? {
      return Some(Err(partition.error));
    }
    if partition.value.None? {
      return Some(Err(ArgumentNull));
    }
    if !StartsWithIgnoreCase(name, partition.value.value) {
      return None;
    }
    var n := if disk.value.Some? then TryParseInt32(disk.value.value) else None;
    if n.Some? {
      return Some(Ok(PhysicalDriveDevicePrefix + Int32ToString(n.value)));
    }
    return Some(Err(FormatError("Cannot retrieve physical disk number.")));
  }

  /** The walk over the association table, with its early return. */
  method MatchAssociations(host: Host, name: string) returns (r: Result<Option<string>>)
    ensures r == DriveFrom(host.associations, name)
  {
    var assocs := host.associations;
    ghost var vs := Verdicts(assocs, name);
    var i := 0;
    while i < |assocs|
      invariant 0 <= i <= |assocs|
      invariant Decide(vs, 0) == Decide(vs, i)
    {
      var v := MatchAt(assocs, i, name);
      if v.Some? {
        return if v.value.Ok? then Ok(Some(v.value.value)) else Err(v.value.error);
      }
      i := i + 1;
    }
    return Ok(None);
  }

  /** The attribute check: a path whose attributes are read and lack the directory
      bit is refused; one whose attributes cannot be read counts as a directory. */
  predicate RefusedAsFile(isDirectory: map<string, bool>, path: string) {
    path in isDirectory && !isDirectory[path]
  }

  /** What the physical-drive lookup gives when directories are matched by their
      full path. */
  function PhysicalDriveFor(isDirectory: map<string, bool>, assocs: seq<Association>, path: string): Result<Option<string>> {
    if RefusedAsFile(isDirectory, path) then Err(FormatError("Argument is not a directory."))
    else DriveFrom(assocs, path)
  }

  /** FindPhysicalDrive as written: the directory's leaf name is matched against
      the logical disk names. */
  method FindPhysicalDriveByLeafName(host: Host, path: string) returns (r: Result<Option<string>>)
    ensures RefusedAsFile(host.isDirectory, path) ==> r == Err(FormatError("Argument is not a directory."))
    ensures !RefusedAsFile(host.isDirectory, path) ==> r == DriveFrom(host.associations, LeafName(path))
  {
    if path in host.isDirectory && !host.isDirectory[path] {
      return Err(FormatError("Argument is not a directory."));
    }
    r := MatchAssociations(host, LeafName(path));
  }

  /** FindPhysicalDrive, matching the directory's full path, so that any folder
      on a logical disk resolves to that disk's drive. */
  method FindPhysicalDrive(host: Host, path: string) returns (r: Result<Option<string>>)
    ensures r == PhysicalDriveFor(host.isDirectory, host.associations, path)
  {
    if path in host.isDirectory && !host.isDirectory[path] {
      return Err(FormatError("Argument is not a directory."));
    }
    r := MatchAssociations(host, path);
  }

  /** The association the service reports for partition `partition` of disk
      `disk` carrying the logical disk of drive letter `letter`. */
  function DiskAssociation(server: string, disk: int32, partition: int32, letter: char): Association {
    Association(PartitionPath(server, disk, partition), LogicalDiskPath(server, letter))
  }

  /** Such an association decides for every name starting with "X:" in any case,
      naming the disk, and gives no verdict for any other name. */
  lemma DiskAssociationVerdict(server: string, disk: int32, partition: int32, letter: char, name: string)
    requires ':' !in server && letter != '"'
    ensures StartsWithIgnoreCase(name, [letter, ':']) ==>
      MatchOne(DiskAssociation(server, disk, partition, letter), name) == Some(Ok(PhysicalDriveDevicePrefix + Int32ToString(disk)))
    ensures !StartsWithIgnoreCase(name, [letter, ':']) ==>
      MatchOne(DiskAssociation(server, disk, partition, letter), name) == None
  {
    DiskNumberOfPartitionPath(server, disk, partition);
    LetterOfLogicalDiskPath(server, letter);
    Int32RoundTrip(disk);
  }

  /** The separator search stops at the backslash that ends `prefix`. */
  lemma {:induction false} AfterLastSeparatorOfFolder(prefix: string, leaf: string, j: nat)
    requires prefix != [] && prefix[|prefix| - 1] == '\\' && '\\' !in leaf
    requires |prefix| <= j <= |prefix + leaf|
    ensures AfterLastSeparator(prefix + leaf, j) == |prefix|
    decreases j
  {
    var p := prefix + leaf;
    if j > |prefix| {
      assert p[j - 1] == leaf[j - 1 - |prefix|];
      AfterLastSeparatorOfFolder(prefix, leaf, j - 1);
    } else {
      assert p[j - 1] == prefix[j - 1];
    }
  }

  /** The leaf name of a folder directly below a drive root is the folder's name. */
  lemma LeafOfFolder(letter: char, folder: string)
    requires folder != [] && '\\' !in folder
    ensures LeafName([letter, ':', '\\'] + folder) == folder
  {
    var path := [letter, ':', '\\'] + folder;
    assert path[|path| - 1] == folder[|folder| - 1];
    assert Volumes.RemoveLastBackslash(path) == path by {
      assert path[|path| - 1..] != "\\" by {
        assert path[|path| - 1..][0] == path[|path| - 1];
      }
    }
    AfterLastSeparatorOfFolder([letter, ':', '\\'], folder, |path|);
    assert path[3..] == folder;
  }

  /** Matching by leaf name misses every folder directly below a drive root: with
      X: on disk n, the folder name has no colon, so it never starts with "X:",
      and the lookup answers null; matching the full path finds disk n. */
  lemma LeafNameMissesFolders(server: string, disk: int32, partition: int32, letter: char, folder: string)
    requires ':' !in server && letter != '"'
    requires folder != [] && '\\' !in folder && ':' !in folder
    ensures var assocs := [DiskAssociation(server, disk, partition, letter)];
      DriveFrom(assocs, LeafName([letter, ':', '\\'] + folder)) == Ok(None)
    ensures var assocs := [DiskAssociation(server, disk, partition, letter)];
      DriveFrom(assocs, [letter, ':', '\\'] + folder) == Ok(Some(PhysicalDriveDevicePrefix + Int32ToString(disk)))
  {
    var a := DiskAssociation(server, disk, partition, letter);
    var path := [letter, ':', '\\'] + folder;
    LeafOfFolder(letter, folder);
    assert !StartsWithIgnoreCase(folder, [letter, ':']) by {
      if |folder| >= 2 {
        assert UpperChar(folder[1]) != UpperChar(':');
      }
    }
    DiskAssociationVerdict(server, disk, partition, letter, folder);
    NoVerdictGivesNull(Verdicts([a], folder), 0);
    assert StartsWithIgnoreCase(path, [letter, ':']);
    DiskAssociationVerdict(server, disk, partition, letter, path);
    FirstVerdictDecides(Verdicts([a], path), 0, 0);
  }

  // ------------------------------------------------------------ the choice

  /** GetDevice: the CD-ROM answer when there is one, otherwise the physical drive
      as FindPhysicalDrive is written, by the directory's leaf name. */
  method GetDevice(host: Host, path: Option<string>) returns (r: Result<Option<string>>)
    ensures var cd := FindCdRom(host.dosDevices, path);
      (cd.Err? || cd.value.Some? ==> r == cd) &&
      (cd == Ok(None) && RefusedAsFile(host.isDirectory, path.value) ==>
        r == Err(FormatError("Argument is not a directory."))) &&
      (cd == Ok(None) && !RefusedAsFile(host.isDirectory, path.value) ==>
        r == DriveFrom(host.associations, LeafName(path.value)))
  {
    var cd := FindCdRom(host.dosDevices, path);
    if cd.Err? || cd.value.Some? {
      return cd;
    }
    r := FindPhysicalDriveByLeafName(host, path.value);
  }

  /** GetDevice over the corrected lookup, which matches the full path. */
  method GetDeviceByFullPath(host: Host, path: Option<string>) returns (r: Result<Option<string>>)
    ensures var cd := FindCdRom(host.dosDevices, path);
      r == if cd.Err? || cd.value.Some? then cd
           else PhysicalDriveFor(host.isDirectory, host.associations, path.value)
  {
    var cd := FindCdRom(host.dosDevices, path);
    if cd.Err? || cd.value.Some? {
      return cd;
    }
    r := FindPhysicalDrive(host, path.value);
  }

  /** A path on a CD-ROM letter resolves to that CD-ROM whatever the association
      table says. */
  lemma CdRomWins(host: Host, path: string, n: int32)
    requires path != [] && Volumes.IsCdRomLetter(host.dosDevices, n, path[0])
    ensures FindCdRom(host.dosDevices, Some(path)) == Ok(Some(CdRomDevicePrefix + Int32ToString(n)))
  {
    FindCdRomIff(host.dosDevices, path, n);
  }
}
