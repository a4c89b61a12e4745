/** The disk session: one object per backing VHD file or per existing drive
    letter, holding whether the disk is virtual and attached, its volumes, and the
    virtual-disk handle, with the attach, detach, initialise, format, letter and
    expand operations built on the volume layer and the raw disk requests. */
module DiskManagement {
  import opened Common
  import opened Collaborators
  import opened Platform
  import opened Volumes
  import opened DiskIO

  // ------------------------------------------------------------ formatter paths

  /** String.Replace("\\", "\\\\"): every backslash doubled, the form the
      formatter takes its volume path in: one character longer per backslash. */
  function Escape(s: string): (r: string)
    ensures |r| == |s| + CountChar(s, '\\')
    decreases |s|
  {
    if s == [] then [] else (if s[0] == '\\' then "\\\\" else [s[0]]) + Escape(s[1..])
  }

  /** Reading a doubled backslash back as one. */
  function Unescape(r: string): string
    decreases |r|
  {
    if r == [] then []
    else if |r| >= 2 && r[0] == '\\' && r[1] == '\\' then "\\" + Unescape(r[2..])
    else [r[0]] + Unescape(r[1..])
  }

  /** The escaped path reads back as the volume name. */
  lemma {:induction false} EscapeRoundTrip(s: string)
    ensures Unescape(Escape(s)) == s
    decreases |s|
  {
    if s != [] {
      EscapeRoundTrip(s[1..]);
      var e := Escape(s);
      if s[0] == '\\' {
        assert e == "\\\\" + Escape(s[1..]);
        assert e[2..] == Escape(s[1..]);
      } else {
        assert e == [s[0]] + Escape(s[1..]);
        assert e[1..] == Escape(s[1..]);
      }
      assert s == [s[0]] + s[1..];
    }
  }

  /** A name without backslashes is passed unchanged. */
  lemma {:induction false} EscapeKeepsPlain(s: string)
    requires '\\' !in s
    ensures Escape(s) == s
    decreases |s|
  {
    if s != [] {
      assert '\\' !in s[1..] by {
        forall i | 0 <= i < |s[1..]| ensures s[1..][i] != '\\' {
          assert s[1..][i] == s[i + 1];
        }
      }
      EscapeKeepsPlain(s[1..]);
      assert s == [s[0]] + s[1..];
    }
  }

  /** The position of the first null entry of `vs` at or after `i`, |vs| if none. */
  function FirstNullFrom(vs: seq<Volume?>, i: nat): (k: nat)
    requires i <= |vs|
    ensures i <= k <= |vs|
    ensures k < |vs| ==> vs[k] == null
    ensures forall j :: i <= j < k ==> vs[j] != null
    decreases |vs| - i
  {
    if i == |vs| then i else if vs[i] == null then i else FirstNullFrom(vs, i + 1)
  }

  /** The formatter calls a loop over `vs` makes: one per entry, in order, until a
      null entry throws. */
  function FormatCallsOf(vs: seq<Volume?>, volumeLabel: string, fileSystem: FileSystemType): (cs: seq<FormatCall>)
    ensures |cs| == FirstNullFrom(vs, 0)
  {
    var k := FirstNullFrom(vs, 0);
    seq(k, i requires 0 <= i < k => FormatCall(Escape(vs[i].VolumeName), volumeLabel, fileSystem))
  }

  /** Every call formats one volume of the list, under its own name, with the
      given label and file system; without nulls every volume is formatted. */
  lemma FormatCallsFormatVolumes(vs: seq<Volume?>, volumeLabel: string, fileSystem: FileSystemType)
    ensures forall i :: 0 <= i < |FormatCallsOf(vs, volumeLabel, fileSystem)| ==>
      var c := FormatCallsOf(vs, volumeLabel, fileSystem)[i];
      vs[i] != null && Unescape(c.volumePath) == vs[i].VolumeName &&
      c.volumeLabel == volumeLabel && c.fileSystem == fileSystem
    ensures null !in vs ==> |FormatCallsOf(vs, volumeLabel, fileSystem)| == |vs|
  {
    forall i | 0 <= i < |FormatCallsOf(vs, volumeLabel, fileSystem)|
      ensures Unescape(FormatCallsOf(vs, volumeLabel, fileSystem)[i].volumePath) == vs[i].VolumeName
    {
      EscapeRoundTrip(vs[i].VolumeName);
    }
    if null !in vs {
      assert forall j :: 0 <= j < |vs| ==> vs[j] != null;
    }
  }

  // ------------------------------------------------------------ letter scans

  /** What a scan over the session's volumes sees at one entry: a null entry, or
      a volume and its current letter. */
  datatype Slot = NullSlot | Lettered(letter: Option<string>)

  /** The slots of `vs` under the mount table `mounts`. */
  function SlotsOf(volumeNames: seq<string>, mounts: seq<MountPoint>, vs: seq<Volume?>): (slots: seq<Slot>)
    ensures |slots| == |vs|
    ensures forall i :: 0 <= i < |vs| ==>
      slots[i] == if vs[i] == null then NullSlot else Lettered(LetterIn(volumeNames, mounts, vs[i].VolumeName))
  {
    seq(|vs|, i requires 0 <= i < |vs| =>
      if vs[i] == null then NullSlot else Lettered(LetterIn(volumeNames, mounts, vs[i].VolumeName)))
  }

  /** DiskVolumes.Any(v => v.DriveLetter3 is not empty), from position `i`:
      true at the first volume with a letter; a null entry reached first throws. */
  function LetterScan(slots: seq<Slot>, i: nat): (r: Result<bool>)
    requires i <= |slots|
    ensures r.Err? ==> r.error == NullReference && NullSlot in slots[i..]
    decreases |slots| - i
  {
    if i == |slots| then Ok(false)
    else if slots[i].NullSlot? then Err(NullReference)
    else if slots[i].letter.Some? then Ok(true)
    else
      var r := LetterScan(slots, i + 1);
      assert r.Err? ==> NullSlot in slots[i..] by {
        if r.Err? {
          var j :| 0 <= j < |slots[i + 1..]| && slots[i + 1..][j] == NullSlot;
          assert slots[i..][j + 1] == NullSlot;
        }
      }
      r
  }

  /** Without null entries the scan answers whether some volume has a letter. */
  lemma {:induction false} LetterScanIff(slots: seq<Slot>, i: nat)
    requires i <= |slots| && forall j :: i <= j < |slots| ==> slots[j].Lettered?
    ensures LetterScan(slots, i) == Ok(exists j :: i <= j < |slots| && slots[j].letter.Some?)
    decreases |slots| - i
  {
    if i < |slots| {
      LetterScanIff(slots, i + 1);
    }
  }

  /** The slots a CD-ROM listing yields over the letters aliasing it, read from
      the mount table: null where no volume is bound at the letter's root. */
  function CdSlots(volumeNames: seq<string>, mounts: seq<MountPoint>, letters: seq<char>): (slots: seq<Slot>)
    ensures |slots| == |letters|
    ensures forall i :: 0 <= i < |letters| ==>
      (slots[i].NullSlot? <==> BoundVolume(mounts, [letters[i], ':', '\\']).None?)
  {
    seq(|letters|, i requires 0 <= i < |letters| =>
      var bound := BoundVolume(mounts, [letters[i], ':', '\\']);
      if bound.None? then NullSlot else Lettered(LetterIn(volumeNames, mounts, bound.value)))
  }

  /** What listing `device` and then scanning the list for a letter gives, from
      the host's tables alone: ArgumentNull for a path that names no device; for
      a physical drive, whether some volume on it has a letter (its list holds no
      null); for a CD-ROM, the scan over its letters, which throws when a letter
      with no volume bound comes before every lettered one. */
  function ListingScan(extents: map<string, ExtentAnswer>, volumeNames: seq<string>, mounts: seq<MountPoint>,
                       dosDevices: map<string, string>, device: string): (r: Result<bool>)
    ensures DriveRefOf(device).None? <==> r == Err(ArgumentNull)
    ensures r.Err? ==> DriveRefOf(device).None? || (DriveRefOf(device).value.CdRomDrive? && r.error == NullReference)
  {
    var target := DriveRefOf(device);
    if target.None? then Err(ArgumentNull)
    else if target.value.PhysicalDrive? then
      var names := VolumesOnDrive(extents, volumeNames, target.value.number);
      Ok(exists i :: 0 <= i < |names| && LetterIn(volumeNames, mounts, names[i]).Some?)
    else
      LetterScan(CdSlots(volumeNames, mounts, CdRomLetters(dosDevices, target.value.cdNumber, 26)), 0)
  }

  /** Scanning any list the string overload may return gives ListingScan. */
  lemma ScanOfListing(extents: map<string, ExtentAnswer>, volumeNames: seq<string>, mounts: seq<MountPoint>,
                      dosDevices: map<string, string>, device: string, vs: seq<Volume?>)
    requires ListsDevice(extents, volumeNames, mounts, dosDevices, device, vs)
    ensures LetterScan(SlotsOf(volumeNames, mounts, vs), 0) == ListingScan(extents, volumeNames, mounts, dosDevices, device)
  {
    var target := DriveRefOf(device).value;
    if target.PhysicalDrive? {
      ScanOfNames(volumeNames, mounts, VolumesOnDrive(extents, volumeNames, target.number), vs);
    } else {
      var letters := CdRomLetters(dosDevices, target.cdNumber, 26);
      assert SlotsOf(volumeNames, mounts, vs) == CdSlots(volumeNames, mounts, letters);
    }
  }

  /** A null-free list holding exactly the volumes `names` scans to whether one
      of those has a letter. */
  lemma ScanOfNames(volumeNames: seq<string>, mounts: seq<MountPoint>, names: seq<string>, vs: seq<Volume?>)
    requires forall i :: 0 <= i < |vs| ==> vs[i] != null && vs[i].VolumeName in names
    requires forall n :: n in names ==> exists i :: 0 <= i < |vs| && vs[i] != null && vs[i].VolumeName == n
    ensures LetterScan(SlotsOf(volumeNames, mounts, vs), 0) ==
      Ok(exists i :: 0 <= i < |names| && LetterIn(volumeNames, mounts, names[i]).Some?)
  {
    var slots := SlotsOf(volumeNames, mounts, vs);
    LetterScanIff(slots, 0);
    if exists j :: 0 <= j < |slots| && slots[j].letter.Some? {
      var j :| 0 <= j < |slots| && slots[j].letter.Some?;
      var i :| 0 <= i < |names| && names[i] == vs[j].VolumeName;
      assert LetterIn(volumeNames, mounts, names[i]).Some?;
    }
    if exists i :: 0 <= i < |names| && LetterIn(volumeNames, mounts, names[i]).Some? {
      var i :| 0 <= i < |names| && LetterIn(volumeNames, mounts, names[i]).Some?;
      assert names[i] in names;
      var j :| 0 <= j < |vs| && vs[j] != null && vs[j].VolumeName == names[i];
      assert slots[j].letter.Some?;
    }
  }

  /** The first volume from position `i` whose letter is `path`, as its position;
      a null entry reached first throws. */
  function FindByLetter(slots: seq<Slot>, path: string, i: nat): (r: Result<Option<nat>>)
    requires i <= |slots|
    ensures r.Ok? && r.value.Some? ==> i <= r.value.value < |slots| && slots[r.value.value] == Lettered(Some(path))
    ensures r.Err? ==> r.error == NullReference
    decreases |slots| - i
  {
    if i == |slots| then Ok(None)
    else if slots[i].NullSlot? then Err(NullReference)
    else if slots[i].letter == Some(path) then Ok(Some(i))
    else FindByLetter(slots, path, i + 1)
  }

  /** Without null entries the search finds the first volume with the letter, and
      finds none exactly when no volume has it. */
  lemma {:induction false} FindByLetterIff(slots: seq<Slot>, path: string, i: nat)
    requires i <= |slots| && forall j :: i <= j < |slots| ==> slots[j].Lettered?
    ensures FindByLetter(slots, path, i).Ok?
    ensures FindByLetter(slots, path, i) == Ok(None) <==>
      forall j :: i <= j < |slots| ==> slots[j].letter != Some(path)
    ensures FindByLetter(slots, path, i).value.Some? ==>
      forall j :: i <= j < FindByLetter(slots, path, i).value.value ==> slots[j].letter != Some(path)
    decreases |slots| - i
  {
    if i < |slots| {
      FindByLetterIff(slots, path, i + 1);
    }
  }

  /** The path a drive letter names: the letter upper-cased, then ":\". */
  function RootOf(letter: char): string {
    [UpperChar(letter), ':', '\\']
  }

  /** A letter A-Z, in either case. */
  predicate IsDriveLetter(letter: char) {
    'A' <= UpperChar(letter) <= 'Z'
  }

  /** The drive-letter parser accepts the root of a letter A-Z unchanged and
      rejects the root of any other character. */
  lemma RootOfParsed(letter: char)
    ensures IsDriveLetter(letter) ==> ParseDriveLetter(Some(RootOf(letter))) == Some(RootOf(letter))
    ensures !IsDriveLetter(letter) ==> ParseDriveLetter(Some(RootOf(letter))) == None
  {
    var r := RootOf(letter);
    if IsWhiteSpace(r[0]) {
      assert SkipWhiteSpace(r, 1) == 1;
      assert SkipWhiteSpace(r, 0) == 1;
      assert TrimStart(r) == [':', '\\'];
      assert SkipWhiteSpaceBack([':', '\\'], 2) == 2;
      assert Trim(r) == [':', '\\'];
    } else {
      TrimKeepsUnpadded(r);
      assert ToUpper(r)[0] == UpperChar(r[0]) == r[0];
      assert ToUpper(r) == r;
    }
  }

  // ------------------------------------------------------------ scan methods

  /** The Any scan, asking each volume for its letter. */
  method ScanForLetter(host: Host, vs: seq<Volume?>) returns (r: Result<bool>)
    ensures r == LetterScan(SlotsOf(host.volumeNames, host.mounts, vs), 0)
  {
    ghost var slots := SlotsOf(host.volumeNames, host.mounts, vs);
    var i := 0;
    while i < |vs|
      invariant 0 <= i <= |vs|
      invariant LetterScan(slots, 0) == LetterScan(slots, i)
    {
      if vs[i] == null {
        return Err(NullReference);
      }
      var letter := vs[i].DriveLetter3(host);
      if letter.Some? {
        return Ok(true);
      }
      i := i + 1;
    }
    return Ok(false);
  }

  /** The All/First pair over the volumes' letters. DriveLetter3 changes nothing,
      so the two passes of the source see the same answers; one pass is made. */
  method SearchLetter(host: Host, vs: seq<Volume?>, path: string) returns (r: Result<Option<nat>>)
    ensures r == FindByLetter(SlotsOf(host.volumeNames, host.mounts, vs), path, 0)
  {
    ghost var slots := SlotsOf(host.volumeNames, host.mounts, vs);
    var i := 0;
    while i < |vs|
      invariant 0 <= i <= |vs|
      invariant FindByLetter(slots, path, 0) == FindByLetter(slots, path, i)
    {
      if vs[i] == null {
        return Err(NullReference);
      }
      var letter := vs[i].DriveLetter3(host);
      if letter == Some(path) {
        return Ok(Some(i));
      }
      i := i + 1;
    }
    return Ok(None);
  }

  /** The format loop: each volume's escaped name with the label and file system. */
  method FormatEach(formatter: Formatter, vs: seq<Volume?>, volumeLabel: string, fileSystem: FileSystemType)
    returns (r: Outcome)
    modifies formatter
    ensures formatter.calls == old(formatter.calls) + FormatCallsOf(vs, volumeLabel, fileSystem)
    ensures r == if null in vs then Fail(NullReference) else Pass
  {
    ghost var k := FirstNullFrom(vs, 0);
    var i := 0;
    while i < |vs|
      invariant 0 <= i <= k
      invariant formatter.calls == old(formatter.calls) + FormatCallsOf(vs, volumeLabel, fileSystem)[..i]
    {
      if vs[i] == null {
        assert i == k;
        assert FormatCallsOf(vs, volumeLabel, fileSystem)[..i] == FormatCallsOf(vs, volumeLabel, fileSystem);
        return Fail(NullReference);
      }
      formatter.FormatDrive(Escape(vs[i].VolumeName), volumeLabel, fileSystem);
      assert FormatCallsOf(vs, volumeLabel, fileSystem)[..i + 1] ==
             FormatCallsOf(vs, volumeLabel, fileSystem)[..i] + [FormatCall(Escape(vs[i].VolumeName), volumeLabel, fileSystem)];
      i := i + 1;
    }
    assert FormatCallsOf(vs, volumeLabel, fileSystem)[..i] == FormatCallsOf(vs, volumeLabel, fileSystem);
    r := Pass;
  }

  /** What moving a volume to a letter promises: ChangeLetter's whole effect for
      the root of the letter, and then, for a letter A-Z, nothing happens when
      the volume already has that letter, and success leaves it with that letter
      (on a volume with at most one letter and NUL-free paths); for any other
      character, white space included, success means the volume had no letter
      and nothing changed. */
  ghost predicate Moved(refused: set<string>, volumeNames: seq<string>, mounts0: seq<MountPoint>, mounts1: seq<MountPoint>,
                        log0: seq<MountCall>, log1: seq<MountCall>, volume: string, newLetter: char, r: Outcome)
  {
    var current := LetterIn(volumeNames, mounts0, volume);
    LetterChanged(refused, volumeNames, mounts0, mounts1, log0, log1, volume, ParseDriveLetter(Some(RootOf(newLetter))), r) &&
    (IsDriveLetter(newLetter) && current == Some(RootOf(newLetter)) ==>
      r == Pass && mounts1 == mounts0 && log1 == log0) &&
    (IsDriveLetter(newLetter) && r.Pass? && volume in volumeNames && NoNulPaths(mounts0) &&
     AtMostOneLetter(mounts0, volume) ==>
      LetterIn(volumeNames, mounts1, volume) == Some(RootOf(newLetter))) &&
    (!IsDriveLetter(newLetter) && r.Pass? ==> current.None? && mounts1 == mounts0 && log1 == log0)
  }

  /** Volume.ChangeLetter to the root of `newLetter`. */
  method MoveToLetter(host: Host, volume: Volume, newLetter: char) returns (r: Outcome)
    modifies host`mounts, host`mountLog
    ensures Moved(host.refused, host.volumeNames, old(host.mounts), host.mounts, old(host.mountLog), host.mountLog,
                  volume.VolumeName, newLetter, r)
  {
    RootOfParsed(newLetter);
    ghost var before := host.mounts;
    r := volume.ChangeLetter(host, Some(RootOf(newLetter)));
    if r.Pass? && IsDriveLetter(newLetter) && volume.VolumeName in host.volumeNames && NoNulPaths(before) &&
       AtMostOneLetter(before, volume.VolumeName) {
      LetterAfterChange(host.volumeNames, before, volume.VolumeName, RootOf(newLetter));
    }
  }

  // ------------------------------------------------------------ the session

  const FileNotFound: string := "File not found!"
  const DriveNotFound: string := "Drive not found. Please, create the drive first using the static method CreateVirtualDisk"
  const AttachNeedsVirtual: string := "AttachVirtualDisk works only with Virtual Disks!"
  const InitializeNeedsVirtual: string := "InitializeVirtualDiskPartition works only with Virtual Disks"
  const MustBeAttached: string := "The Virtual Disk must be attached first!"
  const VolumeNotFound: string :=
    "The specified volume is not found on the loaded drive. Make sure you call FormatVolume for the drive you loaded."

  class DiskManager {
    var IsVirtualDisk: bool
    var IsAttached: bool
    var HasDriveLetter: bool
    /** The session's volume list; None where the source leaves it null. */
    var DiskVolumes: Option<seq<Volume?>>
    var VirtualDisk: VirtualDisk?
    var DiskPath: string

    /** A virtual-disk session holds a handle; a drive-letter session holds none,
        counts as attached and has its volume list. */
    predicate Valid()
      reads this
    {
      (IsVirtualDisk <==> VirtualDisk != null) &&
      (!IsVirtualDisk ==> IsAttached && DiskVolumes.Some?)
    }

    constructor Blank(path: string)
      ensures DiskPath == path && !IsVirtualDisk && !IsAttached && !HasDriveLetter
      ensures DiskVolumes.None? && VirtualDisk == null
    {
      IsVirtualDisk := false;
      IsAttached := false;
      HasDriveLetter := false;
      DiskVolumes := None;
      VirtualDisk := null;
      DiskPath := path;
    }

    /** The constructor over a backing file: the file must exist and open; an
        attached disk has its volumes listed and its letter flag computed. */
    static method FromPath(host: Host, path: string) returns (r: Result<DiskManager>)
      modifies host`extentLog
      ensures path !in host.files ==> r == Err(GeneralError(FileNotFound)) && host.extentLog == old(host.extentLog)
      ensures path in host.files && !host.VhdAnswersFor(path).opens ==>
        r == Err(GeneralError(DriveNotFound)) && host.extentLog == old(host.extentLog)
      ensures var a := host.VhdAnswersFor(path);
        path in host.files && a.opens && a.attachedPath != "" && DriveRefOf(a.attachedPath).None? ==>
        r == Err(ArgumentNull)
      ensures var a := host.VhdAnswersFor(path);
        path in host.files && a.opens && a.attachedPath == "" ==> r.Ok?
      ensures var a := host.VhdAnswersFor(path);
        path in host.files && a.opens && a.attachedPath != "" ==>
        var scan := ListingScan(host.extents, host.volumeNames, host.mounts, host.dosDevices, a.attachedPath);
        (r.Ok? <==> scan.Ok?) && (r.Err? ==> r.error == scan.error) && (r.Ok? ==> r.value.HasDriveLetter == scan.value)
      ensures r.Err? ==> r.error in {GeneralError(FileNotFound), GeneralError(DriveNotFound), ArgumentNull, NullReference}
      ensures r.Ok? ==>
        var m := r.value;
        var a := host.VhdAnswersFor(path);
        fresh(m) && fresh(m.VirtualDisk) && m.Valid() && path in host.files && a.opens &&
        m.IsVirtualDisk && m.DiskPath == path && m.VirtualDisk.Path == path && m.VirtualDisk.answers == a &&
        m.VirtualDisk.calls == [OpenCall] && m.VirtualDisk.attachedPath == a.attachedPath &&
        (m.IsAttached <==> a.attachedPath != "")
      ensures r.Ok? && !r.value.IsAttached ==>
        r.value.DiskVolumes.None? && !r.value.HasDriveLetter && host.extentLog == old(host.extentLog)
      ensures r.Ok? && r.value.IsAttached ==>
        var m := r.value;
        var a := host.VhdAnswersFor(path);
        m.DiskVolumes.Some? &&
        ListsDevice(host.extents, host.volumeNames, host.mounts, host.dosDevices, a.attachedPath, m.DiskVolumes.value) &&
        LetterScan(SlotsOf(host.volumeNames, host.mounts, m.DiskVolumes.value), 0) == Ok(m.HasDriveLetter) &&
        host.extentLog == old(host.extentLog) + EnumerationLog(host.volumeNames, a.attachedPath)
    {
      if path !in host.files {
        return Err(GeneralError(FileNotFound));
      }
      var vd := new VirtualDisk(path, host.VhdAnswersFor(path));
      var open := vd.Open();
      if open.Fail? {
        return Err(GeneralError(DriveNotFound));
      }
      var m := new DiskManager.Blank(path);
      m.VirtualDisk := vd;
      var attached := vd.GetAttachedPath();
      m.IsAttached := attached != "";
      m.IsVirtualDisk := true;
      if m.IsAttached {
        var listed := m.RefreshVolumes(host, attached);
        if listed.Fail? {
          return Err(listed.error);
        }
      }
      return Ok(m);
    }

    /** The constructor over a drive letter: the drive must be listed; the session
        holds the one volume bound at its root and counts as attached. */
    static method FromLetter(host: Host, letter: char) returns (r: Result<DiskManager>)
      ensures RootOf(letter) !in host.drives ==>
        r == Err(GeneralError("DiskManager cannot find disk with name " + RootOf(letter)))
      ensures RootOf(letter) in host.drives && ParseDriveLetter(Some(RootOf(letter))).None? ==>
        r == Err(ArgumentOutOfRange)
      ensures RootOf(letter) in host.drives && ParseDriveLetter(Some(RootOf(letter))).Some? ==> r.Ok?
      ensures r.Ok? ==>
        var m := r.value;
        fresh(m) && m.Valid() && RootOf(letter) in host.drives &&
        !m.IsVirtualDisk && m.IsAttached && !m.HasDriveLetter && m.VirtualDisk == null &&
        m.DiskPath == RootOf(letter) && m.DiskVolumes.Some? && |m.DiskVolumes.value| == 1 &&
        SlotHolds(m.DiskVolumes.value[0], BoundVolume(host.mounts, RootOf(letter))) &&
        (m.DiskVolumes.value[0] != null ==> fresh(m.DiskVolumes.value[0]))
    {
      var driveName := RootOf(letter);
      if driveName !in host.drives {
        return Err(GeneralError("DiskManager cannot find disk with name " + driveName));
      }
      var m := new DiskManager.Blank(driveName);
      var found := Volume.GetFromLetter(host, Some(driveName));
      if found.Err? {
        return Err(found.error);
      }
      assert ParseDriveLetter(Some(driveName)) == Some(driveName) by {
        var x := ParseDriveLetter(Some(driveName)).value;
        ParseDriveLetterAccepts(driveName);
      }
      m.DiskVolumes := Some([found.value]);
      m.IsAttached := true;
      return Ok(m);
    }

    /** AttachVirtualDisk: refused for a drive-letter session; a no-op when already
        attached; otherwise attaches with the options, plus read-only on request. */
    method AttachVirtualDisk(options: set<AttachOption>, readOnly: bool) returns (r: Outcome)
      requires Valid()
      modifies this`IsAttached, VirtualDisk
      ensures Valid()
      ensures !IsVirtualDisk ==> r == Fail(GeneralError(AttachNeedsVirtual)) && !IsAttached == !old(IsAttached)
      ensures IsVirtualDisk && old(IsAttached) ==>
        r == Pass && IsAttached && VirtualDisk.calls == old(VirtualDisk.calls) &&
        VirtualDisk.attachedPath == old(VirtualDisk.attachedPath)
      ensures IsVirtualDisk && !old(IsAttached) ==>
        var wanted := if readOnly then options + {ReadOnly} else options;
        VirtualDisk.calls == old(VirtualDisk.calls) + [AttachCall(wanted)] &&
        (r.Pass? <==> !old(VirtualDisk.NextFails())) &&
        (IsAttached <==> r.Pass?) &&
        (r.Pass? ==> VirtualDisk.attachedPath == VirtualDisk.answers.attachTarget) &&
        (r.Fail? ==> r.error == Win32Error && VirtualDisk.attachedPath == old(VirtualDisk.attachedPath))
    {
      if !IsVirtualDisk {
        return Fail(GeneralError(AttachNeedsVirtual));
      }
      if IsAttached {
        return Pass;
      }
      var wanted := options;
      if readOnly {
        wanted := wanted + {ReadOnly};
      }
      r := VirtualDisk.Attach(wanted);
      if r.Fail? {
        return r;
      }
      IsAttached := true;
    }

    /** DetachVirtualDisk: detaches an attached disk; a drive-letter session has no
        handle, so the call on it throws. */
    method DetachVirtualDisk() returns (r: Outcome)
      requires Valid()
      modifies this`IsAttached, VirtualDisk
      ensures Valid()
      ensures !old(IsAttached) ==>
        r == Pass && !IsAttached && (VirtualDisk != null ==> VirtualDisk.calls == old(VirtualDisk.calls))
      ensures old(IsAttached) && VirtualDisk == null ==> r == Fail(NullReference) && IsAttached
      ensures old(IsAttached) && VirtualDisk != null ==>
        VirtualDisk.calls == old(VirtualDisk.calls) + [DetachCall] &&
        (r.Pass? <==> !old(VirtualDisk.NextFails())) &&
        (IsAttached <==> r.Fail?) &&
        (r.Pass? ==> VirtualDisk.attachedPath == "") &&
        (r.Fail? ==> r.error == Win32Error && VirtualDisk.attachedPath == old(VirtualDisk.attachedPath))
    {
      if IsAttached {
        if VirtualDisk == null {
          return Fail(NullReference);
        }
        r := VirtualDisk.Detach();
        if r.Fail? {
          return r;
        }
        IsAttached := false;
      }
      r := Pass;
    }

    /** Lists the volumes of the attached device and recomputes the letter flag. */
    method RefreshVolumes(host: Host, attached: string) returns (r: Outcome)
      modifies this`DiskVolumes, this`HasDriveLetter, host`extentLog
      ensures DriveRefOf(attached).None? ==>
        r == Fail(ArgumentNull) && DiskVolumes == old(DiskVolumes) && HasDriveLetter == old(HasDriveLetter)
      ensures DriveRefOf(attached).Some? ==>
        DiskVolumes.Some? &&
        ListsDevice(host.extents, host.volumeNames, host.mounts, host.dosDevices, attached, DiskVolumes.value) &&
        var scan := LetterScan(SlotsOf(host.volumeNames, host.mounts, DiskVolumes.value), 0);
        (r.Pass? <==> scan.Ok?) && (r.Fail? ==> r.error == scan.error) &&
        HasDriveLetter == if scan.Ok? then scan.value else old(HasDriveLetter)
      ensures var scan := ListingScan(host.extents, host.volumeNames, host.mounts, host.dosDevices, attached);
        (r.Pass? <==> scan.Ok?) && (r.Fail? ==> r.error == scan.error) &&
        HasDriveLetter == if scan.Ok? then scan.value else old(HasDriveLetter)
      ensures host.extentLog == old(host.extentLog) + EnumerationLog(host.volumeNames, attached)
    {
      var listed := Volume.GetVolumesOnDevicePath(host, attached);
      if listed.None? {
        return Fail(ArgumentNull);
      }
      DiskVolumes := listed;
      ScanOfListing(host.extents, host.volumeNames, host.mounts, host.dosDevices, attached, listed.value);
      var any := ScanForLetter(host, listed.value);
      if any.Err? {
        return Fail(any.error);
      }
      HasDriveLetter := any.value;
      r := Pass;
    }

    /** InitializeVirtualDiskPartition: for an attached virtual disk, writes a fresh
        single-partition MBR with the given signature to the attached device, then
        lists its volumes again. */
    method InitializeVirtualDiskPartition(host: Host, raw: RawDevices, signature: seq<byte>) returns (r: Outcome)
      requires Valid() && |signature| == 4
      modifies this`DiskVolumes, this`HasDriveLetter, host`extentLog, raw`trace
      ensures Valid()
      ensures !IsVirtualDisk ==> r == Fail(GeneralError(InitializeNeedsVirtual)) && raw.trace == old(raw.trace)
      ensures IsVirtualDisk && !IsAttached ==> r == Fail(GeneralError(MustBeAttached)) && raw.trace == old(raw.trace)
      ensures !IsVirtualDisk || !IsAttached ==>
        DiskVolumes == old(DiskVolumes) && HasDriveLetter == old(HasDriveLetter) && host.extentLog == old(host.extentLog)
      ensures IsVirtualDisk && IsAttached ==>
        var attached := VirtualDisk.attachedPath;
        var p := attached in raw.disks;
        (!p ==> raw.trace == old(raw.trace) + [OpenFailed(attached)]) &&
        (p ==>
          var plan := InitPlan(SignatureValue(signature), raw.disks[attached].partitionLength);
          var base := |old(raw.trace)| + 1;
          raw.trace == old(raw.trace) + [Opened(attached)] + Issued(plan, base, raw.failing) + [Closed(attached)] &&
          (!AllPass(|plan|, base, raw.failing) ==> r == Fail(Win32Error))) &&
        (!p ==> r == Fail(Win32Error)) &&
        (r.Fail? && r.error == Win32Error ==>
          DiskVolumes == old(DiskVolumes) && HasDriveLetter == old(HasDriveLetter) && host.extentLog == old(host.extentLog))
      ensures IsVirtualDisk && IsAttached && VirtualDisk.attachedPath in raw.disks &&
              AllPass(|InitPlan(SignatureValue(signature), raw.disks[VirtualDisk.attachedPath].partitionLength)|,
                      |old(raw.trace)| + 1, raw.failing) ==>
        var attached := VirtualDisk.attachedPath;
        var scan := ListingScan(host.extents, host.volumeNames, host.mounts, host.dosDevices, attached);
        (r.Pass? <==> scan.Ok?) && (r.Fail? ==> r.error == scan.error) &&
        HasDriveLetter == (if scan.Ok? then scan.value else old(HasDriveLetter)) &&
        (DriveRefOf(attached).None? ==> DiskVolumes == old(DiskVolumes)) &&
        (DriveRefOf(attached).Some? ==>
           DiskVolumes.Some? &&
           ListsDevice(host.extents, host.volumeNames, host.mounts, host.dosDevices, attached, DiskVolumes.value)) &&
        host.extentLog == old(host.extentLog) + EnumerationLog(host.volumeNames, attached)
      ensures IsVirtualDisk && IsAttached && r.Pass? ==>
        DiskVolumes.Some? &&
        ListsDevice(host.extents, host.volumeNames, host.mounts, host.dosDevices, VirtualDisk.attachedPath, DiskVolumes.value) &&
        LetterScan(SlotsOf(host.volumeNames, host.mounts, DiskVolumes.value), 0) == Ok(HasDriveLetter)
    {
      if !IsVirtualDisk {
        return Fail(GeneralError(InitializeNeedsVirtual));
      }
      if !IsAttached {
        return Fail(GeneralError(MustBeAttached));
      }
      var attached := VirtualDisk.GetAttachedPath();
      ghost var written := attached in raw.disks &&
        AllPass(|InitPlan(SignatureValue(signature), raw.disks[attached].partitionLength)|, |raw.trace| + 1, raw.failing);
      r := raw.InitializeDisk(attached, signature);
      assert r.Pass? <==> written;
      if r.Fail? {
        return r;
      }
      var again := VirtualDisk.GetAttachedPath();
      r := RefreshVolumes(host, again);
    }

    /** FortmatAllVolumesOfDrive: a virtual disk must be attached and has its volume
        list rebuilt first; then every volume is formatted with an empty label. */
    method FortmatAllVolumesOfDrive(host: Host, formatter: Formatter, fileSystem: FileSystemType) returns (r: Outcome)
      requires Valid()
      modifies this`DiskVolumes, host`extentLog, formatter
      ensures Valid()
      ensures IsVirtualDisk && !IsAttached ==>
        r == Fail(GeneralError(MustBeAttached)) && formatter.calls == old(formatter.calls) &&
        DiskVolumes == old(DiskVolumes) && host.extentLog == old(host.extentLog)
      ensures IsVirtualDisk && IsAttached ==>
        var attached := VirtualDisk.attachedPath;
        host.extentLog == old(host.extentLog) + EnumerationLog(host.volumeNames, attached) &&
        (DriveRefOf(attached).None? ==>
          r == Fail(ArgumentNull) && DiskVolumes == old(DiskVolumes) && formatter.calls == old(formatter.calls)) &&
        (DriveRefOf(attached).Some? ==>
          DiskVolumes.Some? &&
          ListsDevice(host.extents, host.volumeNames, host.mounts, host.dosDevices, attached, DiskVolumes.value))
      ensures !IsVirtualDisk ==> DiskVolumes == old(DiskVolumes) && host.extentLog == old(host.extentLog)
      ensures DiskVolumes.Some? && (!IsVirtualDisk || (IsAttached && DriveRefOf(VirtualDisk.attachedPath).Some?)) ==>
        formatter.calls == old(formatter.calls) + FormatCallsOf(DiskVolumes.value, "", fileSystem) &&
        r == if null in DiskVolumes.value then Fail(NullReference) else Pass
    {
      if IsVirtualDisk {
        if !IsAttached {
          return Fail(GeneralError(MustBeAttached));
        }
        var attached := VirtualDisk.GetAttachedPath();
        var listed := Volume.GetVolumesOnDevicePath(host, attached);
        if listed.None? {
          return Fail(ArgumentNull);
        }
        DiskVolumes := listed;
        r := FormatEach(formatter, listed.value, "", fileSystem);
      } else {
        r := FormatEach(formatter, DiskVolumes.value, "", fileSystem);
      }
    }

    /** FormatSpecificVolume: the volume must be one of the session's own objects
        (by reference); it is formatted with the given volumeLabel. */
    method FormatSpecificVolume(formatter: Formatter, volume: Volume?, fileSystem: FileSystemType, customLabel: string)
      returns (r: Outcome)
      modifies formatter
      ensures DiskVolumes.None? ==> r == Fail(ArgumentNull) && formatter.calls == old(formatter.calls)
      ensures DiskVolumes.Some? && volume !in DiskVolumes.value ==>
        r == Fail(GeneralError(VolumeNotFound)) && formatter.calls == old(formatter.calls)
      ensures DiskVolumes.Some? && volume in DiskVolumes.value && volume == null ==>
        r == Fail(NullReference) && formatter.calls == old(formatter.calls)
      ensures DiskVolumes.Some? && volume in DiskVolumes.value && volume != null ==>
        r == Pass && formatter.calls == old(formatter.calls) + [FormatCall(Escape(volume.VolumeName), customLabel, fileSystem)]
    {
      if DiskVolumes.None? {
        return Fail(ArgumentNull);
      }
      if volume !in DiskVolumes.value {
        return Fail(GeneralError(VolumeNotFound));
      }
      if volume == null {
        return Fail(NullReference);
      }
      formatter.FormatDrive(Escape(volume.VolumeName), customLabel, fileSystem);
      r := Pass;
    }

    /** SetDriveLetter: moves `volume` to the upper-cased letter, whatever session
        it belongs to. */
    method SetDriveLetter(host: Host, volume: Volume?, newLetter: char) returns (r: Outcome)
      modifies host`mounts, host`mountLog
      ensures volume == null ==>
        r == Fail(NullReference) && host.mounts == old(host.mounts) && host.mountLog == old(host.mountLog)
      ensures volume != null ==> Moved(host.refused, host.volumeNames, old(host.mounts), host.mounts, old(host.mountLog), host.mountLog,
                                       volume.VolumeName, newLetter, r)
    {
      if volume == null {
        return Fail(NullReference);
      }
      r := MoveToLetter(host, volume, newLetter);
    }

    /** ChangeDriveLetter: the first of the session's volumes whose letter is the
        old one moves to the new one; no such volume is an error. */
    method ChangeDriveLetter(host: Host, oldLetter: char, newLetter: char) returns (r: Outcome)
      modifies host`mounts, host`mountLog
      ensures DiskVolumes.None? ==>
        r == Fail(ArgumentNull) && host.mounts == old(host.mounts) && host.mountLog == old(host.mountLog)
      ensures DiskVolumes.Some? ==>
        var found := old(FindByLetter(SlotsOf(host.volumeNames, host.mounts, DiskVolumes.value), RootOf(oldLetter), 0));
        (found.Err? ==> r == Fail(found.error)) &&
        (found == Ok(None) ==> r == Fail(GeneralError(VolumeNotFound))) &&
        (found.Err? || found == Ok(None) ==> host.mounts == old(host.mounts) && host.mountLog == old(host.mountLog)) &&
        (found.Ok? && found.value.Some? ==>
          Moved(host.refused, host.volumeNames, old(host.mounts), host.mounts, old(host.mountLog), host.mountLog,
                DiskVolumes.value[found.value.value].VolumeName, newLetter, r))
    {
      var oldPath := RootOf(oldLetter);
      if DiskVolumes.None? {
        return Fail(ArgumentNull);
      }
      var found := SearchLetter(host, DiskVolumes.value, oldPath);
      if found.Err? {
        return Fail(found.error);
      }
      if found.value.None? {
        return Fail(GeneralError(VolumeNotFound));
      }
      r := MoveToLetter(host, DiskVolumes.value[found.value.value], newLetter);
    }

    /** ExpandVirtualDisk: asks the handle to grow the disk; a drive-letter session
        has no handle. */
    method ExpandVirtualDisk(newSize: uint64) returns (r: Outcome)
      modifies VirtualDisk
      ensures VirtualDisk == null ==> r == Fail(NullReference)
      ensures VirtualDisk != null ==>
        VirtualDisk.calls == old(VirtualDisk.calls) + [ExpandCall(newSize)] &&
        VirtualDisk.attachedPath == old(VirtualDisk.attachedPath) &&
        r == if old(VirtualDisk.NextFails()) then Fail(Win32Error) else Pass
    {
      if VirtualDisk == null {
        return Fail(NullReference);
      }
      r := VirtualDisk.Expand(newSize);
    }

    /** Dispose: closes and disposes the handle, when there is one. */
    method Dispose()
      modifies VirtualDisk
      ensures VirtualDisk != null ==>
        VirtualDisk.calls == old(VirtualDisk.calls) + [CloseCall, DisposeCall] &&
        VirtualDisk.attachedPath == old(VirtualDisk.attachedPath)
    {
      if VirtualDisk != null {
        VirtualDisk.Close();
        VirtualDisk.Dispose();
      }
    }
  }
}
