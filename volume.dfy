/** A volume of the system, known by its GUID name ("\\?\Volume{...}\"): its drive
    letter as read from the mount table, letter changes, a once-only cached lookup
    of the disk extent it lives on, and the three ways volumes are found (by drive
    letter, by physical drive number, by CD-ROM number). */
module Volumes {
  import opened Common
  import opened Platform

  // ------------------------------------------------------------ drive-letter text

  /** Normalises user input to the "X:\" form: trims, upper-cases, appends a
      trailing backslash when there is none, and accepts only a letter A-Z, a colon
      and that backslash. Null stays null. */
  function ParseDriveLetter(driveLetter: Option<string>): Option<string> {
    if driveLetter.None? then None
    else CheckDriveLetter(ToUpper(Trim(driveLetter.value)))
  }

  /** The check after trimming and upper-casing: append the backslash when it is
      missing, then accept "X:\" with X in A-Z. */
  function CheckDriveLetter(t: string): Option<string> {
    var u := if EndsWith(t, "\\") then t else t + "\\";
    if |u| != 3 || u[0] < 'A' || u[0] > 'Z' || u[1] != ':' || u[2] != '\\' then None
    else Some(u)
  }

  /** The accepted forms, as a reference: "X:" or "X:\" with X in A-Z. */
  predicate IsDriveLetterForm(t: string) {
    (|t| == 2 || (|t| == 3 && t[2] == '\\')) && 'A' <= t[0] <= 'Z' && t[1] == ':'
  }

  /** The check accepts exactly the drive-letter forms and then yields "X:\". */
  lemma CheckDriveLetterAccepts(t: string)
    ensures CheckDriveLetter(t) == if IsDriveLetterForm(t) then Some([t[0], ':', '\\']) else None
  {
    if EndsWith(t, "\\") {
      assert |t| >= 1 && t[|t| - 1] == '\\';
      if |t| == 3 {
        assert t == [t[0], t[1], t[2]];
      }
    } else {
      assert |t| >= 1 ==> t[|t| - 1] != '\\';
      var u := t + "\\";
      assert |u| == |t| + 1 && u[|t|] == '\\';
      if |t| == 2 {
        assert u == [t[0], t[1], '\\'];
      }
    }
  }

  /** ParseDriveLetter accepts exactly the drive-letter forms (after trimming and
      upper-casing) and then yields "X:\". */
  lemma ParseDriveLetterAccepts(s: string)
    ensures var t := ToUpper(Trim(s));
      ParseDriveLetter(Some(s)) == if IsDriveLetterForm(t) then Some([t[0], ':', '\\']) else None
  {
    CheckDriveLetterAccepts(ToUpper(Trim(s)));
  }

  /** Every non-null result has length 3 and is a fixed point. */
  lemma ParseDriveLetterIdempotent(s: Option<string>)
    requires ParseDriveLetter(s).Some?
    ensures |ParseDriveLetter(s).value| == 3
    ensures ParseDriveLetter(ParseDriveLetter(s)) == ParseDriveLetter(s)
  {
    var x := ParseDriveLetter(s).value;
    TrimKeepsUnpadded(x);
    assert ToUpper(x) == x;
    assert EndsWith(x, "\\");
  }

  /** A bare letter is rejected: "c" becomes "C\", which is not a drive letter. */
  lemma BareLetterRejected()
    ensures ParseDriveLetter(Some("c")) == None
    ensures ParseDriveLetter(Some("d:")) == Some("D:\\")
    ensures ParseDriveLetter(None) == None
  {
    ParseDriveLetterAccepts("c");
    TrimKeepsUnpadded("c");
    assert |ToUpper(Trim("c"))| == 1;
    ParseDriveLetterAccepts("d:");
    TrimKeepsUnpadded("d:");
    var t := ToUpper("d:");
    assert t[0] == 'D' && t[1] == ':';
  }

  /** Removes exactly one trailing backslash, if there is one. */
  function RemoveLastBackslash(text: string): string {
    if EndsWith(text, "\\") then text[..|text| - 1] else text
  }

  /** Putting the backslash back gives the input; without one the input is kept. */
  lemma RemoveLastBackslashInverse(text: string)
    ensures EndsWith(text, "\\") ==> RemoveLastBackslash(text) + "\\" == text
    ensures !EndsWith(text, "\\") ==> RemoveLastBackslash(text) == text
    ensures RemoveLastBackslash(text + "\\") == text
  {
    if EndsWith(text, "\\") {
      assert text == text[..|text| - 1] + [text[|text| - 1]];
    }
    assert (text + "\\")[..|text|] == text;
  }

  /** Removing is not idempotent: a second call strips a second backslash. */
  lemma RemoveLastBackslashTwice()
    ensures RemoveLastBackslash("a\\\\") == "a\\"
    ensures RemoveLastBackslash(RemoveLastBackslash("a\\\\")) == "a"
  {
    assert EndsWith("a\\\\", "\\");
    assert "a\\\\"[..2] == "a\\";
    assert EndsWith("a\\", "\\");
    assert "a\\"[..1] == "a";
  }

  // ------------------------------------------------------------ letters from the mount table

  /** The first entry of length 3 in a list of mount paths. */
  function FirstOfLength3(pieces: seq<string>): (r: Option<string>)
    ensures r.Some? ==> |r.value| == 3 && r.value in pieces
    ensures r.None? <==> forall i :: 0 <= i < |pieces| ==> |pieces[i]| != 3
    ensures r.Some? ==> exists i :: 0 <= i < |pieces| && pieces[i] == r.value && ShorterOrLongerBefore(pieces, i)
  {
    if pieces == [] then None
    else if |pieces[0]| == 3 then
      assert ShorterOrLongerBefore(pieces, 0);
      Some(pieces[0])
    else
      var r := FirstOfLength3(pieces[1..]);
      assert forall i :: 1 <= i < |pieces| ==> pieces[i] == pieces[1..][i - 1];
      assert r.Some? ==> exists i :: 0 <= i < |pieces| && pieces[i] == r.value && ShorterOrLongerBefore(pieces, i) by {
        if r.Some? {
          var j :| 0 <= j < |pieces[1..]| && pieces[1..][j] == r.value && ShorterOrLongerBefore(pieces[1..], j);
          assert pieces[j + 1] == r.value && ShorterOrLongerBefore(pieces, j + 1);
        }
      }
      r
  }

  /** No entry before position `i` has length 3. */
  predicate ShorterOrLongerBefore(pieces: seq<string>, i: nat)
    requires i <= |pieces|
  {
    forall j :: 0 <= j < i ==> |pieces[j]| != 3
  }

  /** The drive letter DriveLetter3 reads for a volume: the first length-3 path in
      the NUL-separated list, or None when the query fails or there is none. */
  function LetterIn(volumeNames: seq<string>, mounts: seq<MountPoint>, volume: string): Option<string> {
    var names := PathNames(volumeNames, mounts, volume);
    if names.None? then None else FirstOfLength3(Split(names.value, '\0'))
  }

  /** No mount path holds a NUL, so the NUL-separated list splits back into paths. */
  predicate NoNulPaths(mounts: seq<MountPoint>) {
    forall i :: 0 <= i < |mounts| ==> '\0' !in mounts[i].path
  }

  /** A volume has at most one path of length 3 (one drive letter). */
  ghost predicate AtMostOneLetter(mounts: seq<MountPoint>, volume: string) {
    forall p, q :: (MountPoint(p, volume) in mounts && MountPoint(q, volume) in mounts &&
                    |p| == 3 && |q| == 3) ==> p == q
  }

  /** The mount paths of a volume hold no NUL when no path does. */
  lemma PathsHaveNoNul(mounts: seq<MountPoint>, volume: string)
    requires NoNulPaths(mounts)
    ensures forall i :: 0 <= i < |PathsOf(mounts, volume)| ==> '\0' !in PathsOf(mounts, volume)[i]
  {
    var ps := PathsOf(mounts, volume);
    forall i | 0 <= i < |ps| ensures '\0' !in ps[i] {
      assert ps[i] in ps;
      assert MountPoint(ps[i], volume) in mounts;
    }
  }

  /** The pieces DriveLetter3 scans are the volume's mount paths. */
  lemma SplitPathNames(mounts: seq<MountPoint>, volume: string)
    requires NoNulPaths(mounts)
    ensures var ps := PathsOf(mounts, volume);
      ps == [] || Split(Join(ps, '\0'), '\0') == ps
  {
    var ps := PathsOf(mounts, volume);
    if ps != [] {
      PathsHaveNoNul(mounts, volume);
      SplitJoin(ps, '\0');
    }
  }

  /** With NUL-free paths, a known volume has a letter exactly when one of its
      mount paths has length 3, and the letter is such a path. */
  lemma LetterInIff(volumeNames: seq<string>, mounts: seq<MountPoint>, volume: string)
    requires NoNulPaths(mounts) && volume in volumeNames
    ensures var r := LetterIn(volumeNames, mounts, volume);
      (r.Some? <==> exists p :: MountPoint(p, volume) in mounts && |p| == 3) &&
      (r.Some? ==> |r.value| == 3 && MountPoint(r.value, volume) in mounts)
  {
    var ps := PathsOf(mounts, volume);
    SplitPathNames(mounts, volume);
    if ps == [] {
      assert Split("", '\0') == [""];
      assert forall p :: MountPoint(p, volume) !in mounts by {
        forall p ensures MountPoint(p, volume) !in mounts {
          assert p !in ps;
        }
      }
    } else {
      var r := LetterIn(volumeNames, mounts, volume);
      assert r == FirstOfLength3(ps);
      if r.None? {
        forall p | MountPoint(p, volume) in mounts ensures |p| != 3 {
          assert p in ps;
          var i :| 0 <= i < |ps| && ps[i] == p;
        }
      } else {
        assert r.value in ps;
      }
    }
  }

  /** The first length-3 entry after a list that has none is the appended one. */
  lemma {:induction false} FirstOfLength3Appended(pieces: seq<string>, t: string)
    requires forall i :: 0 <= i < |pieces| ==> |pieces[i]| != 3
    requires |t| == 3
    ensures FirstOfLength3(pieces + [t]) == Some(t)
    decreases |pieces|
  {
    if pieces == [] {
      assert [] + [t] == [t];
    } else {
      assert (pieces + [t])[1..] == pieces[1..] + [t];
      FirstOfLength3Appended(pieces[1..], t);
    }
  }

  /** The mount paths of a volume after appending a binding. */
  lemma {:induction false} PathsOfAppend(mounts: seq<MountPoint>, m: MountPoint, volume: string)
    ensures PathsOf(mounts + [m], volume) == PathsOf(mounts, volume) + (if m.volume == volume then [m.path] else [])
    decreases |mounts|
  {
    if mounts == [] {
      assert [] + [m] == [m];
      assert [m][1..] == [];
    } else {
      assert (mounts + [m])[1..] == mounts[1..] + [m];
      PathsOfAppend(mounts[1..], m, volume);
    }
  }

  /** After the current letter is removed from a volume with at most one letter,
      none of its remaining paths has length 3. */
  lemma NoLetterLeft(volumeNames: seq<string>, mounts: seq<MountPoint>, volume: string)
    requires NoNulPaths(mounts) && volume in volumeNames && AtMostOneLetter(mounts, volume)
    ensures var current := LetterIn(volumeNames, mounts, volume);
      var cleared := if current.Some? then Unbind(mounts, current.value) else mounts;
      forall p :: MountPoint(p, volume) in cleared ==> |p| != 3
  {
    var current := LetterIn(volumeNames, mounts, volume);
    LetterInIff(volumeNames, mounts, volume);
    if current.Some? {
      var cleared := Unbind(mounts, current.value);
      forall p | MountPoint(p, volume) in cleared ensures |p| != 3 {
        assert MountPoint(p, volume) in mounts && p != current.value;
      }
    }
  }

  /** What ChangeLetter promises the caller: on a volume with at most one letter
      and NUL-free paths, once the current letter is deleted and the new one set,
      the volume's letter is the new one. */
  lemma LetterAfterChange(volumeNames: seq<string>, mounts: seq<MountPoint>, volume: string, target: string)
    requires NoNulPaths(mounts) && volume in volumeNames && AtMostOneLetter(mounts, volume)
    requires |target| == 3 && '\0' !in target
    ensures var current := LetterIn(volumeNames, mounts, volume);
      var cleared := if current.Some? then Unbind(mounts, current.value) else mounts;
      LetterIn(volumeNames, cleared + [MountPoint(target, volume)], volume) == Some(target)
  {
    var current := LetterIn(volumeNames, mounts, volume);
    var cleared := if current.Some? then Unbind(mounts, current.value) else mounts;
    NoLetterLeft(volumeNames, mounts, volume);
    var after := cleared + [MountPoint(target, volume)];
    assert NoNulPaths(after) by {
      forall i | 0 <= i < |after| ensures '\0' !in after[i].path {
        if i < |cleared| {
          assert after[i] in cleared;
          var j :| 0 <= j < |mounts| && mounts[j] == after[i];
        }
      }
    }
    PathsOfAppend(cleared, MountPoint(target, volume), volume);
    var ps := PathsOf(cleared, volume);
    SplitPathNames(after, volume);
    forall i | 0 <= i < |ps| ensures |ps[i]| != 3 {
      assert ps[i] in ps;
    }
    FirstOfLength3Appended(ps, target);
  }

  /** And after RemoveLetter the volume has no letter. */
  lemma LetterAfterRemove(volumeNames: seq<string>, mounts: seq<MountPoint>, volume: string)
    requires NoNulPaths(mounts) && volume in volumeNames && AtMostOneLetter(mounts, volume)
    ensures var current := LetterIn(volumeNames, mounts, volume);
      var cleared := if current.Some? then Unbind(mounts, current.value) else mounts;
      LetterIn(volumeNames, cleared, volume) == None
  {
    var current := LetterIn(volumeNames, mounts, volume);
    var cleared := if current.Some? then Unbind(mounts, current.value) else mounts;
    NoLetterLeft(volumeNames, mounts, volume);
    assert NoNulPaths(cleared) by {
      forall i | 0 <= i < |cleared| ensures '\0' !in cleared[i].path {
        assert cleared[i] in cleared;
        var j :| 0 <= j < |mounts| && mounts[j] == cleared[i];
      }
    }
    LetterInIff(volumeNames, cleared, volume);
  }

  // ------------------------------------------------------------ extents and ordering

  /** The offset the sort compares: the extent's starting offset, -1 without one. */
  function OffsetKey(extents: map<string, ExtentAnswer>, volumeName: string): int {
    var e := ExtentIn(extents, RemoveLastBackslash(volumeName));
    if e.Some? then e.value.startingOffset as int else -1
  }

  /** The three cached extent fields a lookup answer leads to. */
  function CachedFields(e: Option<DiskExtent>): (Option<int32>, Option<int64>, Option<int64>) {
    if e.Some? then (Some(e.value.diskNumber), Some(e.value.startingOffset), Some(e.value.extentLength))
    else (None, None, None)
  }

  /** The volume names, in order, whose extent lies on disk `driveNumber`. */
  function VolumesOnDrive(extents: map<string, ExtentAnswer>, names: seq<string>, driveNumber: int32): (r: seq<string>)
    ensures forall n :: n in r ==> n in names
    decreases |names|
  {
    if names == [] then []
    else
      var last := names[|names| - 1];
      VolumesOnDrive(extents, names[..|names| - 1], driveNumber) +
        (if OnDrive(extents, last, driveNumber) then [last] else [])
  }

  /** The whole effect of moving `volume` to the parsed letter `target`: nothing
      when the volume already has it; otherwise its current letter is deleted (a
      refused delete ends the move) and `target` is set on the cleared table,
      which succeeds exactly when SetVolumeMountPoint accepts it there. Every
      other mount point is kept. */
  ghost predicate LetterChanged(refused: set<string>, volumeNames: seq<string>,
                                mounts0: seq<MountPoint>, mounts1: seq<MountPoint>,
                                log0: seq<MountCall>, log1: seq<MountCall>,
                                volume: string, target: Option<string>, r: Outcome)
  {
    var current := LetterIn(volumeNames, mounts0, volume);
    if target == current then
      r == Pass && mounts1 == mounts0 && log1 == log0
    else if current.Some? && !CanDeleteMountPoint(refused, mounts0, current.value) then
      r == Fail(Win32Error) && mounts1 == mounts0 && log1 == log0 + [DeleteMountPoint(current.value)]
    else
      var cleared := if current.Some? then Unbind(mounts0, current.value) else mounts0;
      var deletes := if current.Some? then [DeleteMountPoint(current.value)] else [];
      log1 == log0 + deletes + [SetMountPoint(target, volume)] &&
      (r == if CanSetMountPoint(refused, volumeNames, cleared, target, volume) then Pass else Fail(Win32Error)) &&
      mounts1 == if r.Pass? then cleared + [MountPoint(target.value, volume)] else cleared
  }

  /** A name is kept exactly when it is enumerated and lies on the drive. */
  lemma {:induction false} VolumesOnDriveMembers(extents: map<string, ExtentAnswer>, names: seq<string>, driveNumber: int32)
    ensures forall n :: n in VolumesOnDrive(extents, names, driveNumber) <==> n in names && OnDrive(extents, n, driveNumber)
    decreases |names|
  {
    if names != [] {
      var front := names[..|names| - 1];
      VolumesOnDriveMembers(extents, front, driveNumber);
      assert names == front + [names[|names| - 1]];
    }
  }

  /** VolumesOnDrive keeps each on-drive name as often as it is enumerated and
      drops the others. */
  lemma {:induction false} VolumesOnDriveCounts(extents: map<string, ExtentAnswer>, names: seq<string>, driveNumber: int32)
    ensures forall n :: multiset(VolumesOnDrive(extents, names, driveNumber))[n] ==
                       if OnDrive(extents, n, driveNumber) then multiset(names)[n] else 0
    decreases |names|
  {
    if names != [] {
      var last := names[|names| - 1];
      var front := names[..|names| - 1];
      VolumesOnDriveCounts(extents, front, driveNumber);
      assert names == front + [last];
      assert multiset(names) == multiset(front) + multiset{last};
      var tail := if OnDrive(extents, last, driveNumber) then [last] else [];
      assert VolumesOnDrive(extents, names, driveNumber) == VolumesOnDrive(extents, front, driveNumber) + tail;
      assert multiset(VolumesOnDrive(extents, names, driveNumber)) ==
        multiset(VolumesOnDrive(extents, front, driveNumber)) + multiset(tail);
    }
  }

  /** VolumesOnDrive keeps the enumeration order. */
  lemma {:induction false} VolumesOnDriveInOrder(extents: map<string, ExtentAnswer>, names: seq<string>, driveNumber: int32)
    ensures Subsequence(VolumesOnDrive(extents, names, driveNumber), names)
    decreases |names|
  {
    if names != [] {
      var last := names[|names| - 1];
      var front := names[..|names| - 1];
      VolumesOnDriveInOrder(extents, front, driveNumber);
      assert names == front + [last];
      var tail := if OnDrive(extents, last, driveNumber) then [last] else [];
      SubsequenceExtends(VolumesOnDrive(extents, front, driveNumber), front, tail, [last]);
    }
  }

  /** Whether `xs` is `ys` with some entries taken out, the rest kept in order. */
  predicate Subsequence(xs: seq<string>, ys: seq<string>)
    decreases |ys|
  {
    if xs == [] then true
    else if ys == [] then false
    else if xs[|xs| - 1] == ys[|ys| - 1] then Subsequence(xs[..|xs| - 1], ys[..|ys| - 1])
    else Subsequence(xs, ys[..|ys| - 1])
  }

  /** Appending a subsequence of `v` to a subsequence of `u` gives one of `u + v`,
      for `v` of at most one entry. */
  lemma {:induction false} SubsequenceExtends(xs: seq<string>, u: seq<string>, tail: seq<string>, v: seq<string>)
    requires Subsequence(xs, u) && |v| == 1 && (tail == [] || tail == v)
    ensures Subsequence(xs + tail, u + v)
  {
    assert (u + v)[..|u|] == u;
    if tail == [] {
      assert xs + tail == xs;
      if xs != [] && xs[|xs| - 1] == v[0] {
        SubsequenceDropsLast(xs, u);
      }
    } else {
      assert (xs + tail)[..|xs|] == xs;
    }
  }

  /** A subsequence of `u` without its last entry is still one of `u` with any
      entry added at the end. */
  lemma {:induction false} SubsequenceDropsLast(xs: seq<string>, u: seq<string>)
    requires xs != [] && Subsequence(xs, u)
    ensures Subsequence(xs[..|xs| - 1], u)
    decreases |u|, 1
  {
    assert u != [];
    if xs[|xs| - 1] == u[|u| - 1] {
      SubsequenceGrows(xs[..|xs| - 1], u[..|u| - 1], u);
    } else {
      SubsequenceDropsLast(xs, u[..|u| - 1]);
      SubsequenceGrows(xs[..|xs| - 1], u[..|u| - 1], u);
    }
  }

  /** A subsequence of a prefix is a subsequence of the whole. */
  lemma {:induction false} SubsequenceGrows(xs: seq<string>, p: seq<string>, u: seq<string>)
    requires Subsequence(xs, p) && |p| < |u| && p == u[..|p|]
    ensures Subsequence(xs, u)
    decreases |u|, 0
  {
    if xs != [] {
      if xs[|xs| - 1] == u[|u| - 1] {
        assert u[..|u| - 1][..|p|] == p;
        if |p| < |u| - 1 {
          SubsequenceGrows(xs, p, u[..|u| - 1]);
        }
        SubsequenceDropsLast(xs, u[..|u| - 1]);
      } else if |p| < |u| - 1 {
        assert u[..|u| - 1][..|p|] == p;
        SubsequenceGrows(xs, p, u[..|u| - 1]);
      }
    }
  }

  /** Whether the extent lookup of a volume succeeds and names disk `driveNumber`. */
  predicate OnDrive(extents: map<string, ExtentAnswer>, volumeName: string, driveNumber: int32) {
    var e := ExtentIn(extents, RemoveLastBackslash(volumeName));
    e.Some? && e.value.diskNumber == driveNumber
  }

  /** One more enumerated name extends both the on-drive list and the lookup log. */
  lemma EnumerationStep(extents: map<string, ExtentAnswer>, names: seq<string>, i: nat, driveNumber: int32)
    requires i < |names|
    ensures VolumesOnDrive(extents, names[..i + 1], driveNumber) ==
      VolumesOnDrive(extents, names[..i], driveNumber) +
      (if OnDrive(extents, names[i], driveNumber) then [names[i]] else [])
    ensures DevicesOf(names[..i + 1]) == DevicesOf(names[..i]) + [RemoveLastBackslash(names[i])]
  {
    assert names[..i + 1][..i] == names[..i];
  }

  /** The device names the extent lookups open, one per enumerated volume. */
  function DevicesOf(names: seq<string>): (r: seq<string>)
    ensures |r| == |names|
    decreases |names|
  {
    if names == [] then [] else DevicesOf(names[..|names| - 1]) + [RemoveLastBackslash(names[|names| - 1])]
  }

  /** The i-th lookup opens the i-th name without its trailing backslash. */
  lemma {:induction false} DevicesOfEach(names: seq<string>)
    ensures forall i :: 0 <= i < |names| ==> DevicesOf(names)[i] == RemoveLastBackslash(names[i])
    decreases |names|
  {
    if names != [] {
      var front := names[..|names| - 1];
      DevicesOfEach(front);
      assert forall i :: 0 <= i < |front| ==> names[i] == front[i];
    }
  }

  /** The volume name of each element. */
  function NamesOf(vs: seq<Volume>): (r: seq<string>)
    ensures |r| == |vs|
    ensures forall i :: 0 <= i < |vs| ==> r[i] == vs[i].VolumeName
    decreases |vs|
  {
    if vs == [] then [] else NamesOf(vs[..|vs| - 1]) + [vs[|vs| - 1].VolumeName]
  }

  predicate SortedByKey(extents: map<string, ExtentAnswer>, vs: seq<Volume>) {
    forall i, j :: 0 <= i < j < |vs| ==> OffsetKey(extents, vs[i].VolumeName) <= OffsetKey(extents, vs[j].VolumeName)
  }

  predicate SortedBy<T>(key: T -> int, xs: seq<T>) {
    forall i, j :: 0 <= i < j < |xs| ==> key(xs[i]) <= key(xs[j])
  }

  /** Inserts before the first element with a greater or equal key. */
  function InsertBy<T>(key: T -> int, x: T, xs: seq<T>): (r: seq<T>)
    requires SortedBy(key, xs)
    ensures SortedBy(key, r)
    ensures multiset(r) == multiset(xs) + multiset{x}
    decreases |xs|
  {
    if xs == [] then [x]
    else if key(x) <= key(xs[0]) then [x] + xs
    else
      var rest := InsertBy(key, x, xs[1..]);
      InsertBehindHead(key, x, xs, rest);
      [xs[0]] + rest
  }

  /** Putting the head of a sorted list back in front of the insertion into its
      tail keeps the list sorted, when the head's key is below the new one. */
  lemma InsertBehindHead<T>(key: T -> int, x: T, xs: seq<T>, rest: seq<T>)
    requires SortedBy(key, xs) && xs != [] && key(xs[0]) < key(x)
    requires SortedBy(key, rest) && multiset(rest) == multiset(xs[1..]) + multiset{x}
    ensures SortedBy(key, [xs[0]] + rest)
    ensures multiset([xs[0]] + rest) == multiset(xs) + multiset{x}
  {
    assert xs == [xs[0]] + xs[1..];
    assert forall y :: y in rest ==> key(xs[0]) <= key(y) by {
      forall y | y in rest ensures key(xs[0]) <= key(y) {
        assert y in multiset(rest);
        if y != x {
          assert y in multiset(xs[1..]);
          var j :| 0 <= j < |xs[1..]| && xs[1..][j] == y;
          assert xs[j + 1] == y;
        }
      }
    }
    var r := [xs[0]] + rest;
    assert forall j :: 1 <= j < |r| ==> r[j] == rest[j - 1];
  }

  /** List.Sort with a key comparison: a permutation sorted by key. The order of
      equal keys is not promised (the library sort is not stable). */
  function SortBy<T>(key: T -> int, xs: seq<T>): (r: seq<T>)
    ensures SortedBy(key, r)
    ensures multiset(r) == multiset(xs)
    decreases |xs|
  {
    if xs == [] then []
    else
      assert xs == xs[..|xs| - 1] + [xs[|xs| - 1]];
      InsertBy(key, xs[|xs| - 1], SortBy(key, xs[..|xs| - 1]))
  }

  /** The volumes sorted by the offset comparison of GetVolumesOnPhysicalDrive. */
  function SortByKey(extents: map<string, ExtentAnswer>, vs: seq<Volume>): (r: seq<Volume>)
    ensures SortedByKey(extents, r)
    ensures multiset(r) == multiset(vs)
  {
    var key := (v: Volume) => OffsetKey(extents, v.VolumeName);
    var r := SortBy(key, vs);
    assert forall i :: 0 <= i < |r| ==> key(r[i]) == OffsetKey(extents, r[i].VolumeName);
    r
  }

  /** Permuting volumes permutes their names. */
  lemma {:induction false} NamesPermuted(a: seq<Volume>, b: seq<Volume>)
    requires multiset(a) == multiset(b)
    ensures multiset(NamesOf(a)) == multiset(NamesOf(b))
    decreases |a|
  {
    if a == [] {
      assert |b| == |multiset(b)| == 0;
    } else {
      var x := a[|a| - 1];
      var a' := a[..|a| - 1];
      assert a == a' + [x];
      assert x in multiset(b);
      var j :| 0 <= j < |b| && b[j] == x;
      var b' := b[..j] + b[j + 1..];
      assert b == b[..j] + [x] + b[j + 1..];
      assert multiset(b) == multiset(b[..j]) + multiset{x} + multiset(b[j + 1..]);
      assert multiset(a) == multiset(a') + multiset{x};
      assert multiset(b') == multiset(b[..j]) + multiset(b[j + 1..]);
      assert multiset(a') == multiset(a) - multiset{x};
      assert multiset(b') == multiset(b) - multiset{x};
      NamesPermuted(a', b');
      NamesMultiset(b[..j], b[j + 1..], x);
    }
  }

  lemma NamesMultiset(l: seq<Volume>, r: seq<Volume>, x: Volume)
    ensures multiset(NamesOf(l + [x] + r)) == multiset(NamesOf(l + r)) + multiset{x.VolumeName}
  {
    var whole := NamesOf(l + [x] + r);
    var rest := NamesOf(l + r);
    assert whole == NamesOf(l) + [x.VolumeName] + NamesOf(r);
    assert rest == NamesOf(l) + NamesOf(r);
  }

  /** The CD-ROM alias prefix and the value parsed after it. */
  const CdRomAliasPrefix: string := "\\Device\\CdRom"

  /** Whether drive letter `letter` is an alias of CD-ROM number `driveNumber`. */
  predicate IsCdRomLetter(dosDevices: map<string, string>, driveNumber: int32, letter: char) {
    var name := [letter, ':'];
    name in dosDevices && StartsWithIgnoreCase(dosDevices[name], CdRomAliasPrefix) &&
    TryParseInt32(dosDevices[name][|CdRomAliasPrefix|..]) == Some(driveNumber)
  }

  function LetterAt(i: nat): char
    requires i < 26
  {
    ('A' as int + i) as char
  }

  /** The letters among the first `n` of A-Z that are aliases of the CD-ROM, in
      ascending order. */
  function CdRomLetters(dosDevices: map<string, string>, driveNumber: int32, n: nat): seq<char>
    requires n <= 26
    decreases n
  {
    if n == 0 then []
    else
      CdRomLetters(dosDevices, driveNumber, n - 1) +
        (if IsCdRomLetter(dosDevices, driveNumber, LetterAt(n - 1)) then [LetterAt(n - 1)] else [])
  }

  /** A letter is listed exactly when it is among the first `n` and an alias of
      the CD-ROM, and the list ascends strictly. */
  lemma {:induction false} CdRomLettersAre(dosDevices: map<string, string>, driveNumber: int32, n: nat)
    requires n <= 26
    ensures var r := CdRomLetters(dosDevices, driveNumber, n);
      (forall c :: c in r <==>
        'A' as int <= c as int < 'A' as int + n && IsCdRomLetter(dosDevices, driveNumber, c)) &&
      (forall i, j :: 0 <= i < j < |r| ==> r[i] < r[j]) &&
      (forall i :: 0 <= i < |r| ==> r[i] as int < 'A' as int + n)
    decreases n
  {
    if n > 0 {
      CdRomLettersAre(dosDevices, driveNumber, n - 1);
      var r := CdRomLetters(dosDevices, driveNumber, n);
      var r' := CdRomLetters(dosDevices, driveNumber, n - 1);
      assert forall i :: 0 <= i < |r'| ==> r[i] == r'[i];
      forall c ensures c in r <==>
        'A' as int <= c as int < 'A' as int + n && IsCdRomLetter(dosDevices, driveNumber, c) {
        if c as int == 'A' as int + n - 1 {
          assert c == LetterAt(n - 1);
        }
      }
    }
  }

  /** The DOS device name of a letter parses as that letter's root. */
  lemma DeviceLetter(i: nat)
    requires i < 26
    ensures ParseDriveLetter(Some([LetterAt(i), ':'])) == Some([LetterAt(i), ':', '\\'])
  {
    var d := [LetterAt(i), ':'];
    TrimKeepsUnpadded(d);
    UpperFixed(d);
    ParseDriveLetterAccepts(d);
  }

  /** A volume slot of a result list agrees with the volume bound at a letter:
      null when none is bound, otherwise a volume of that name. */
  predicate SlotHolds(v: Volume?, bound: Option<string>) {
    (v == null <==> bound.None?) && (v != null ==> v.VolumeName == bound.value)
  }

  /** The two device-path forms the string overload accepts, with their number. */
  datatype DriveRef = PhysicalDrive(number: int32) | CdRomDrive(cdNumber: int32)

  const PhysicalDrivePrefix: string := "\\\\.\\PHYSICALDRIVE"
  const CdRomDrivePrefix: string := "\\\\.\\CDROM"

  /** The dispatch of the string overload: a case-insensitive prefix followed by
      an integer (at index 17, respectively 9). */
  function DriveRefOf(path: string): (r: Option<DriveRef>) {
    if StartsWithIgnoreCase(path, PhysicalDrivePrefix) && TryParseInt32(path[|PhysicalDrivePrefix|..]).Some?
    then Some(PhysicalDrive(TryParseInt32(path[|PhysicalDrivePrefix|..]).value))
    else if StartsWithIgnoreCase(path, CdRomDrivePrefix) && TryParseInt32(path[|CdRomDrivePrefix|..]).Some?
    then Some(CdRomDrive(TryParseInt32(path[|CdRomDrivePrefix|..]).value))
    else None
  }

  /** Upper-casing leaves a string with no lower-case letter as it is. */
  lemma UpperFixed(p: string)
    requires forall i :: 0 <= i < |p| ==> !('a' <= p[i] <= 'z')
    ensures ToUpper(p) == p
  {
  }

  /** A string whose upper-cased form is `p`, followed by anything, starts with
      `p` ignoring case, when `p` has no lower-case letter. */
  lemma UpperPrefixMatches(prefix: string, rest: string, p: string)
    requires ToUpper(prefix) == p
    requires forall i :: 0 <= i < |p| ==> !('a' <= p[i] <= 'z')
    ensures StartsWithIgnoreCase(prefix + rest, p)
  {
    var s := prefix + rest;
    forall i | 0 <= i < |p| ensures UpperChar(s[i]) == UpperChar(p[i]) {
      assert s[i] == prefix[i];
      assert UpperChar(prefix[i]) == ToUpper(prefix)[i];
    }
  }

  /** Printing a physical-drive path and dispatching on it gives the drive back,
      whatever the case of the prefix. */
  lemma PhysicalDriveRoundTrip(n: int32, prefix: string)
    requires ToUpper(prefix) == PhysicalDrivePrefix
    ensures DriveRefOf(prefix + Int32ToString(n)) == Some(PhysicalDrive(n))
  {
    var s := prefix + Int32ToString(n);
    Int32RoundTrip(n);
    assert |prefix| == |PhysicalDrivePrefix|;
    assert s[|prefix|..] == Int32ToString(n);
    UpperPrefixMatches(prefix, Int32ToString(n), PhysicalDrivePrefix);
  }

  /** A path whose fifth character is a C (in either case) is no physical-drive path. */
  lemma NotPhysicalDrive(s: string)
    requires |s| >= 5 && UpperChar(s[4]) == 'C'
    ensures !StartsWithIgnoreCase(s, PhysicalDrivePrefix)
  {
    assert UpperChar(PhysicalDrivePrefix[4]) == 'P';
  }

  /** The same for a CD-ROM path. */
  lemma CdRomDriveRoundTrip(n: int32, prefix: string)
    requires ToUpper(prefix) == CdRomDrivePrefix
    ensures DriveRefOf(prefix + Int32ToString(n)) == Some(CdRomDrive(n))
  {
    var s := prefix + Int32ToString(n);
    Int32RoundTrip(n);
    assert |prefix| == |CdRomDrivePrefix|;
    assert s[|prefix|..] == Int32ToString(n);
    UpperPrefixMatches(prefix, Int32ToString(n), CdRomDrivePrefix);
    assert UpperChar(s[4]) == ToUpper(prefix)[4];
    NotPhysicalDrive(s);
  }

  /** Anything that is neither form gives null. */
  lemma DriveRefRejects()
    ensures DriveRefOf("C:\\") == None
    ensures DriveRefOf("\\\\?\\PHYSICALDRIVE2") == None
  {
    var s := "\\\\?\\PHYSICALDRIVE2";
    assert UpperChar(s[2]) != UpperChar(PhysicalDrivePrefix[2]);
    assert UpperChar(s[2]) != UpperChar(CdRomDrivePrefix[2]);
  }

  /** The extent lookups the string overload issues for `device`: one per volume
      for a physical drive, none for a CD-ROM or an unknown path. */
  function EnumerationLog(volumeNames: seq<string>, device: string): seq<string> {
    var target := DriveRefOf(device);
    if target.Some? && target.value.PhysicalDrive? then DevicesOf(volumeNames) else []
  }

  /** What the string overload promises of its list for a recognised device path:
      for a physical drive, one looked-up volume per volume on the drive, each
      of them listed; for a
      CD-ROM, one slot per letter aliasing it, holding the volume bound there. */
  predicate ListsDevice(extents: map<string, ExtentAnswer>, volumeNames: seq<string>, mounts: seq<MountPoint>,
                        dosDevices: map<string, string>, device: string, vs: seq<Volume?>)
    reads vs
  {
    var target := DriveRefOf(device);
    target.Some? &&
    (target.value.PhysicalDrive? ==>
      var names := VolumesOnDrive(extents, volumeNames, target.value.number);
      |vs| == |names| &&
      (forall i :: 0 <= i < |vs| ==> vs[i] != null && vs[i].CachedFrom(extents) && vs[i].VolumeName in names) &&
      (forall n :: n in names ==> exists i :: 0 <= i < |vs| && vs[i] != null && vs[i].VolumeName == n)) &&
    (target.value.CdRomDrive? ==>
      var letters := CdRomLetters(dosDevices, target.value.cdNumber, 26);
      |vs| == |letters| &&
      forall i :: 0 <= i < |vs| ==> SlotHolds(vs[i], BoundVolume(mounts, [letters[i], ':', '\\'])))
  }

  // ------------------------------------------------------------ the volume object

  class Volume {
    const VolumeName: string
    var hasExtentInfo: bool
    var physicalDriveNumber: Option<int32>
    var physicalDriveExtentOffset: Option<int64>
    var physicalDriveExtentLength: Option<int64>

    constructor (volumeName: string)
      ensures VolumeName == volumeName && Valid()
      ensures !hasExtentInfo
    {
      VolumeName := volumeName;
      hasExtentInfo := false;
      physicalDriveNumber := None;
      physicalDriveExtentOffset := None;
      physicalDriveExtentLength := None;
    }

    /** Until the extent lookup has run, no extent field is set. */
    predicate Valid()
      reads this
    {
      !hasExtentInfo ==>
        physicalDriveNumber.None? && physicalDriveExtentOffset.None? && physicalDriveExtentLength.None?
    }

    /** The device name the extent lookup opens. */
    function DeviceName(): string {
      RemoveLastBackslash(VolumeName)
    }

    /** The cached fields hold what the lookup over `extents` answers: the extent's
        disk number, offset and length on success, nothing on failure. */
    predicate CachedFrom(extents: map<string, ExtentAnswer>)
      reads this
    {
      hasExtentInfo &&
      (physicalDriveNumber, physicalDriveExtentOffset, physicalDriveExtentLength) ==
        CachedFields(ExtentIn(extents, DeviceName()))
    }

    /** DriveLetter3: scans the NUL-separated mount paths for the first of length 3. */
    method DriveLetter3(host: Host) returns (r: Option<string>)
      ensures r == LetterIn(host.volumeNames, host.mounts, VolumeName)
    {
      var names := host.PathNamesFor(VolumeName);
      if names.Some? {
        var pieces := Split(names.value, '\0');
        var i := 0;
        while i < |pieces|
          invariant 0 <= i <= |pieces|
          invariant FirstOfLength3(pieces) == FirstOfLength3(pieces[i..])
        {
          assert pieces[i..][1..] == pieces[i + 1..];
          if |pieces[i]| == 3 {
            return Some(pieces[i]);
          }
          i := i + 1;
        }
      }
      return None;
    }

    /** DriveLetter2: the letter without its trailing backslash. */
    method DriveLetter2(host: Host) returns (r: Option<string>)
      ensures var l := LetterIn(host.volumeNames, host.mounts, VolumeName);
        r == if l.Some? then Some(l.value[..2]) else None
      ensures r.Some? ==> |r.value| == 2
    {
      var letter := DriveLetter3(host);
      r := if letter.Some? then Some(letter.value[..2]) else None;
    }

    /** RemoveLetter: deletes the current letter's mount point, if there is one. */
    method RemoveLetter(host: Host) returns (r: Outcome)
      modifies host`mounts, host`mountLog
      ensures var current := old(LetterIn(host.volumeNames, host.mounts, VolumeName));
        if current.None? then
          r == Pass && host.mounts == old(host.mounts) && host.mountLog == old(host.mountLog)
        else
          host.mountLog == old(host.mountLog) + [DeleteMountPoint(current.value)] &&
          (r == if CanDeleteMountPoint(host.refused, old(host.mounts), current.value) then Pass else Fail(Win32Error)) &&
          host.mounts == if r.Pass? then Unbind(old(host.mounts), current.value) else old(host.mounts)
    {
      var letter := DriveLetter3(host);
      if letter.Some? {
        var again := DriveLetter3(host);
        var ok := host.DeleteVolumeMountPoint(again.value);
        if !ok {
          return Fail(Win32Error);
        }
      }
      return Pass;
    }

    /** ChangeLetter: normalises the new letter; does nothing when it equals the
        current one (also when both are null); otherwise removes the current letter
        and binds the new one, failing when either mount-table call fails. */
    method ChangeLetter(host: Host, newLetter: Option<string>) returns (r: Outcome)
      modifies host`mounts, host`mountLog
      ensures LetterChanged(host.refused, host.volumeNames, old(host.mounts), host.mounts,
                            old(host.mountLog), host.mountLog, VolumeName, ParseDriveLetter(newLetter), r)
    {
      var target := ParseDriveLetter(newLetter);
      var current := DriveLetter3(host);
      if target == current {
        return Pass;
      }
      r := Rebind(host, current, target);
    }

    /** The mount-table half of ChangeLetter, for the volume's current letter:
        removes it, then binds the target. */
    method Rebind(host: Host, current: Option<string>, target: Option<string>) returns (r: Outcome)
      requires current == LetterIn(host.volumeNames, host.mounts, VolumeName)
      modifies host`mounts, host`mountLog
      ensures if current.Some? && !CanDeleteMountPoint(host.refused, old(host.mounts), current.value) then
          r == Fail(Win32Error) && host.mounts == old(host.mounts) &&
          host.mountLog == old(host.mountLog) + [DeleteMountPoint(current.value)]
        else
          var cleared := if current.Some? then Unbind(old(host.mounts), current.value) else old(host.mounts);
          var deletes := if current.Some? then [DeleteMountPoint(current.value)] else [];
          host.mountLog == old(host.mountLog) + deletes + [SetMountPoint(target, VolumeName)] &&
          (r == if CanSetMountPoint(host.refused, host.volumeNames, cleared, target, VolumeName)
                then Pass else Fail(Win32Error)) &&
          host.mounts == if r.Pass? then cleared + [MountPoint(target.value, VolumeName)] else cleared
    {
      r := RemoveLetter(host);
      if r.Fail? {
        return r;
      }
      var ok := host.SetVolumeMountPoint(target, VolumeName);
      if !ok {
        return Fail(Win32Error);
      }
      r := Pass;
    }

    /** GetExtentInfo: opens the device and asks for its first disk extent. */
    static method GetExtentInfo(host: Host, device: string)
      returns (ok: bool, diskNumber: int32, startingOffset: int64, extentLength: int64)
      modifies host`extentLog
      ensures host.extentLog == old(host.extentLog) + [device]
      ensures var e := ExtentIn(host.extents, device);
        ok == e.Some? &&
        (ok ==> diskNumber == e.value.diskNumber && startingOffset == e.value.startingOffset &&
                extentLength == e.value.extentLength) &&
        (!ok ==> diskNumber == 0 && startingOffset == 0 && extentLength == 0)
    {
      var a := host.QueryExtents(device);
      if a.Replied? && a.succeeded && a.bytesReturned > 0 {
        return true, a.extent.diskNumber, a.extent.startingOffset, a.extent.extentLength;
      }
      return false, 0, 0, 0;
    }

    /** FillExtentInfo: runs the lookup once per instance; the flag is set even
        when the lookup fails, and the fields are set only on success. */
    method FillExtentInfo(host: Host)
      requires Valid()
      modifies this`hasExtentInfo, this`physicalDriveNumber, this`physicalDriveExtentOffset,
               this`physicalDriveExtentLength, host`extentLog
      ensures Valid() && hasExtentInfo
      ensures old(hasExtentInfo) ==>
        unchanged(this) && host.extentLog == old(host.extentLog)
      ensures !old(hasExtentInfo) ==>
        CachedFrom(host.extents) && host.extentLog == old(host.extentLog) + [DeviceName()]
    {
      if hasExtentInfo {
        return;
      }
      var ok, diskNumber, startingOffset, extentLength := GetExtentInfo(host, DeviceName());
      if ok {
        physicalDriveNumber := Some(diskNumber);
        physicalDriveExtentOffset := Some(startingOffset);
        physicalDriveExtentLength := Some(extentLength);
      }
      hasExtentInfo := true;
    }

    method PhysicalDriveNumber(host: Host) returns (n: Option<int32>)
      requires Valid()
      modifies this`hasExtentInfo, this`physicalDriveNumber, this`physicalDriveExtentOffset,
               this`physicalDriveExtentLength, host`extentLog
      ensures Valid() && hasExtentInfo && n == physicalDriveNumber
      ensures old(hasExtentInfo) ==> unchanged(this) && host.extentLog == old(host.extentLog)
      ensures !old(hasExtentInfo) ==>
        CachedFrom(host.extents) && host.extentLog == old(host.extentLog) + [DeviceName()]
    {
      FillExtentInfo(host);
      n := physicalDriveNumber;
    }

    method PhysicalDriveExtentOffset(host: Host) returns (n: Option<int64>)
      requires Valid()
      modifies this`hasExtentInfo, this`physicalDriveNumber, this`physicalDriveExtentOffset,
               this`physicalDriveExtentLength, host`extentLog
      ensures Valid() && hasExtentInfo && n == physicalDriveExtentOffset
      ensures old(hasExtentInfo) ==> unchanged(this) && host.extentLog == old(host.extentLog)
      ensures !old(hasExtentInfo) ==>
        CachedFrom(host.extents) && host.extentLog == old(host.extentLog) + [DeviceName()]
    {
      FillExtentInfo(host);
      n := physicalDriveExtentOffset;
    }

    method PhysicalDriveExtentLength(host: Host) returns (n: Option<int64>)
      requires Valid()
      modifies this`hasExtentInfo, this`physicalDriveNumber, this`physicalDriveExtentOffset,
               this`physicalDriveExtentLength, host`extentLog
      ensures Valid() && hasExtentInfo && n == physicalDriveExtentLength
      ensures old(hasExtentInfo) ==> unchanged(this) && host.extentLog == old(host.extentLog)
      ensures !old(hasExtentInfo) ==>
        CachedFrom(host.extents) && host.extentLog == old(host.extentLog) + [DeviceName()]
    {
      FillExtentInfo(host);
      n := physicalDriveExtentLength;
    }

    /** GetFromLetter: null input and an invalid letter are errors; otherwise the
        volume bound at the letter, or null when none is. */
    static method GetFromLetter(host: Host, driveLetter: Option<string>) returns (r: Result<Volume?>)
      ensures driveLetter.None? ==> r == Err(ArgumentNull)
      ensures driveLetter.Some? && ParseDriveLetter(driveLetter).None? ==> r == Err(ArgumentOutOfRange)
      ensures ParseDriveLetter(driveLetter).Some? ==>
        r.Ok? && SlotHolds(r.value, BoundVolume(host.mounts, ParseDriveLetter(driveLetter).value))
      ensures r.Ok? && r.value != null ==> fresh(r.value) && r.value.Valid() && !r.value.hasExtentInfo
    {
      if driveLetter.None? {
        return Err(ArgumentNull);
      }
      var letter := ParseDriveLetter(driveLetter);
      if letter.None? {
        return Err(ArgumentOutOfRange);
      }
      var name := host.VolumeAt(letter.value);
      if name.Some? {
        var v := new Volume(name.value);
        return Ok(v);
      }
      return Ok(null);
    }

    /** One step of the enumeration: a fresh volume object for `name`, its extent
        looked up, and whether it lies on the drive. */
    static method LookUpOnDrive(host: Host, name: string, driveNumber: int32) returns (v: Volume, onDrive: bool)
      modifies host`extentLog
      ensures fresh(v) && v.VolumeName == name && v.Valid() && v.CachedFrom(host.extents)
      ensures onDrive <==> v.physicalDriveNumber == Some(driveNumber)
      ensures onDrive == OnDrive(host.extents, name, driveNumber)
      ensures host.extentLog == old(host.extentLog) + [RemoveLastBackslash(name)]
    {
      v := new Volume(name);
      var n := v.PhysicalDriveNumber(host);
      onDrive := n == Some(driveNumber);
    }

    /** The enumeration loop: every name is looked up once, in order, and the
        volumes on the drive are kept in that order. */
    static method CollectOnDrive(host: Host, names: seq<string>, driveNumber: int32) returns (volumes: seq<Volume>)
      modifies host`extentLog
      ensures NamesOf(volumes) == VolumesOnDrive(host.extents, names, driveNumber)
      ensures forall k :: 0 <= k < |volumes| ==>
        fresh(volumes[k]) && volumes[k].Valid() && volumes[k].CachedFrom(host.extents) &&
        volumes[k].physicalDriveNumber == Some(driveNumber)
      ensures host.extentLog == old(host.extentLog) + DevicesOf(names)
    {
      volumes := [];
      var i := 0;
      while i < |names|
        invariant 0 <= i <= |names|
        invariant host.extentLog == old(host.extentLog) + DevicesOf(names[..i])
        invariant NamesOf(volumes) == VolumesOnDrive(host.extents, names[..i], driveNumber)
        invariant forall k :: 0 <= k < |volumes| ==>
          fresh(volumes[k]) && volumes[k].CachedFrom(host.extents) &&
          volumes[k].physicalDriveNumber == Some(driveNumber)
      {
        EnumerationStep(host.extents, names, i, driveNumber);
        var volume, onDrive := LookUpOnDrive(host, names[i], driveNumber);
        if onDrive {
          assert NamesOf(volumes + [volume]) == NamesOf(volumes) + [volume.VolumeName] by {
            assert (volumes + [volume])[..|volumes|] == volumes;
          }
          volumes := volumes + [volume];
        }
        i := i + 1;
      }
      assert names[..i] == names;
    }

    /** GetVolumesOnPhysicalDrive(int): every enumerated volume is looked up once;
        those on the drive are returned sorted by extent offset. */
    static method GetVolumesOnPhysicalDrive(host: Host, driveNumber: int32) returns (r: seq<Volume>)
      modifies host`extentLog
      ensures multiset(NamesOf(r)) == multiset(VolumesOnDrive(host.extents, host.volumeNames, driveNumber))
      ensures SortedByKey(host.extents, r)
      ensures forall i :: 0 <= i < |r| ==>
        fresh(r[i]) && r[i].Valid() && r[i].CachedFrom(host.extents) &&
        r[i].physicalDriveNumber == Some(driveNumber)
      ensures host.extentLog == old(host.extentLog) + DevicesOf(host.volumeNames)
    {
      var volumes := CollectOnDrive(host, host.volumeNames, driveNumber);
      r := SortByKey(host.extents, volumes);
      NamesPermuted(r, volumes);
      forall k | 0 <= k < |r|
        ensures fresh(r[k]) && r[k].Valid() && r[k].CachedFrom(host.extents) &&
                r[k].physicalDriveNumber == Some(driveNumber)
      {
        assert r[k] in multiset(volumes);
      }
    }

    /** The volume at the i-th letter when that letter is an alias of the CD-ROM. */
    static method CdVolumeAt(host: Host, driveNumber: int32, i: nat) returns (matches: bool, v: Volume?)
      requires i < 26
      ensures matches <==> IsCdRomLetter(host.dosDevices, driveNumber, LetterAt(i))
      ensures matches ==> SlotHolds(v, BoundVolume(host.mounts, [LetterAt(i), ':', '\\']))
      ensures v != null ==> fresh(v) && v.Valid() && !v.hasExtentInfo
    {
      var dosDevice := [LetterAt(i), ':'];
      var dosPath := host.DosDevice(dosDevice);
      matches := false;
      v := null;
      if dosPath.Some? && StartsWithIgnoreCase(dosPath.value, CdRomAliasPrefix) {
        var cdromNumber := TryParseInt32(dosPath.value[|CdRomAliasPrefix|..]);
        if cdromNumber.Some? && cdromNumber.value == driveNumber {
          DeviceLetter(i);
          var found := GetFromLetter(host, Some(dosDevice));
          matches := true;
          v := found.value;
        }
      }
    }

    /** GetVolumesOnCdDrive: walks the letters A to Z and keeps, in that order, the
        volume at each letter whose device alias names CD-ROM `driveNumber` (a
        null entry when no volume is bound there). */
    static method GetVolumesOnCdDrive(host: Host, driveNumber: int32) returns (r: seq<Volume?>)
      ensures var letters := CdRomLetters(host.dosDevices, driveNumber, 26);
        |r| == |letters| &&
        forall i :: 0 <= i < |r| ==> SlotHolds(r[i], BoundVolume(host.mounts, [letters[i], ':', '\\']))
      ensures forall i :: 0 <= i < |r| && r[i] != null ==> fresh(r[i]) && r[i].Valid() && !r[i].hasExtentInfo
    {
      var volumes: seq<Volume?> := [];
      ghost var letters: seq<char> := [];
      for i := 0 to 26
        invariant letters == CdRomLetters(host.dosDevices, driveNumber, i)
        invariant |volumes| == |letters|
        invariant forall k :: 0 <= k < |volumes| ==> SlotHolds(volumes[k], BoundVolume(host.mounts, [letters[k], ':', '\\']))
        invariant forall k :: 0 <= k < |volumes| && volumes[k] != null ==>
          fresh(volumes[k]) && volumes[k].Valid() && !volumes[k].hasExtentInfo
      {
        var matches, found := CdVolumeAt(host, driveNumber, i);
        if matches {
          volumes := volumes + [found];
          letters := letters + [LetterAt(i)];
        }
      }
      r := volumes;
    }

    /** GetVolumesOnPhysicalDrive(string): dispatches on the device-path form;
        anything else gives null. */
    static method GetVolumesOnDevicePath(host: Host, physicalDrive: string) returns (r: Option<seq<Volume?>>)
      modifies host`extentLog
      ensures r.None? <==> DriveRefOf(physicalDrive).None?
      ensures r.Some? ==> ListsDevice(host.extents, host.volumeNames, host.mounts, host.dosDevices, physicalDrive, r.value)
      ensures host.extentLog == old(host.extentLog) + EnumerationLog(host.volumeNames, physicalDrive)
    {
      var target := DriveRefOf(physicalDrive);
      if target.Some? && target.value.PhysicalDrive? {
        var vs := GetVolumesOnPhysicalDrive(host, target.value.number);
        ghost var names := VolumesOnDrive(host.extents, host.volumeNames, target.value.number);
        assert |multiset(NamesOf(vs))| == |multiset(names)|;
        forall i | 0 <= i < |vs| ensures vs[i].VolumeName in names {
          assert NamesOf(vs)[i] in multiset(NamesOf(vs));
        }
        forall n | n in names ensures exists i :: 0 <= i < |vs| && vs[i].VolumeName == n {
          assert n in multiset(NamesOf(vs));
          var i :| 0 <= i < |vs| && NamesOf(vs)[i] == n;
        }
        r := Some(vs);
      } else if target.Some? {
        var vs := GetVolumesOnCdDrive(host, target.value.cdNumber);
        r := Some(vs);
      } else {
        r := None;
      }
    }
  }
}
