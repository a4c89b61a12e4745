# VHDTools core in Dafny

This project models the library layer of VHDTools. VHDTools is a Windows toolkit that
creates, attaches, partitions, formats and re-letters virtual hard disks. The model
covers four pieces:

- **DiskIO** (`diskio.dfy`): the raw-device routines. `InitializeDisk` writes an MBR
  signature and a single IFS partition that starts at 64 KiB. `UpdateDiskPartition`
  grows the partition and extends its volume. Both issue a fixed sequence of
  device-control requests, and any failed request ends the routine with a Win32 error.
- **Volume** (`volume.dfy`): a volume known by its GUID name. It covers the volume's
  drive letter, moving that letter, its first disk extent (looked up once and cached),
  drive-letter parsing, and listing the volumes of a physical drive or a CD-ROM drive.
- **DeviceFromPath** (`devicefrompath.dfy`): resolves a path to the device that holds
  it. It tries the CD-ROM alias of the path's drive first, then the partition-to-logical-disk
  association table.
- **DiskManager** (`diskmanager.dfy`): a session over a virtual-disk file or a drive
  letter. Its operations are attach, detach, initialize, format, set and change a
  letter, expand and dispose.

The operating system is an object whose answers are inputs. `Platform.Host` holds:

- the volume list and the mount table;
- the extent answers, the DOS-device aliases and the drive list;
- the files and their attributes;
- the association table;
- the virtual-disk service's answers.

The two mount-table calls and the extent lookup are methods that log what they issue.
Three more collaborators keep a log of the requests made to them:

- `DiskIO.RawDevices`: device-control requests, with an index set of the requests that fail;
- `Collaborators.VirtualDisk`: the virtual-disk handle's calls;
- `Collaborators.Formatter`: format calls.

Most operations are stated as "the log grows by exactly these requests, and the result
is this function of the answers." The properties of those functions are proved as lemmas.

C# semantics are written out where they matter:

- exceptions are `Err`/`Fail` values of `Common.Error`;
- `null` is `None`, or a `null` reference for `Volume?` entries;
- `int`/`long` wrap-around is `WrapInt32`/`WrapInt64`;
- `long` division truncates toward zero and throws on a zero divisor or on
  `MinInt64 / -1`;
- `int.TryParse` trims white space, takes an optional sign and checks the 32-bit range.

In a few places the library's design notes describe other behaviour than the code. The
model follows the code in each case:

- `ParseDriveLetter("c")` is null: a bare letter gains only a backslash, giving "C\",
  which fails the shape test.
- `RemoveLastBackslash` is not idempotent: it strips one backslash, so "X\\" becomes
  "X\" and then "X".
- The volume sort uses an unstable comparison sort, so no order is promised among
  volumes with equal offsets.

## Model

| member | source | states |
|---|---|---|
| Common.WrapInt32 | VHDTools/DiskIO.cs:85 | the wrapped value is congruent to the input modulo 2^32 and equals the input when the input already fits an int |
| Common.WrapInt64 | VHDTools/DiskIO.cs:84 | the wrapped value is congruent to the input modulo 2^64 and equals the input when the input already fits a long |
| Common.TruncDiv | VHDTools/DiskIO.cs:99 | C# division for a non-zero divisor: the remainder is smaller than the divisor in magnitude and has the sign of the dividend |
| Common.ToUpper | VHDTools/Volume.cs:275 | same length; every character is upper-cased on its own (only a-z change) |
| Common.Trim | VHDTools/Volume.cs:275 | the result begins and ends with a character that is not white space |
| Common.TrimDropsPadding | VHDTools/Volume.cs:275 | the input is white space, then the result, then white space: Trim removes exactly the padding at the two ends |
| Common.TrimKeepsUnpadded | VHDTools/Volume.cs:275 | trimming text that has no padding leaves it unchanged |
| Common.IndexOf | VHDTools/DeviceFromPath.cs:73-77 | the index of the first occurrence at or after `from`, or -1 exactly when there is none |
| Common.IndexOfIs | VHDTools/DeviceFromPath.cs:73-77 | an occurrence at k with none between `from` and k means IndexOf answers k |
| Common.NatToStringRoundTrip | VHDTools/DeviceFromPath.cs:60 | the decimal text of a natural number reads back as that number |
| Common.Int32RoundTrip | VHDTools/DeviceFromPath.cs:58-60 | int.TryParse of an int's invariant-culture text gives that int back, negative numbers included |
| Common.ParsedHasNoLetter | VHDTools/DeviceFromPath.cs:58 | every character of the trimmed text of a parsed int is a digit or a sign |
| Common.Split | VHDTools/Volume.cs:45 | there is at least one part and no part contains the separator |
| Common.SplitJoin | VHDTools/Volume.cs:45 | splitting parts joined by a separator none of them contains gives the parts back (as for the NUL-joined mount paths) |
| Common.JoinSplit | VHDTools/Volume.cs:45 | joining the parts of a split gives the original text back |
| Platform.PathsOf | VHDTools/Volume.cs:43 | a path is listed exactly when the mount table binds it to the volume |
| Platform.BoundVolume | VHDTools/Volume.cs:175 | a found volume is bound at the path, and None means no binding for the path |
| Platform.Unbind | VHDTools/Volume.cs:82 | exactly the bindings of other paths remain |
| Platform.PathNames | VHDTools/Volume.cs:43 | the query succeeds exactly for a known volume |
| Platform.ExtentIn | VHDTools/Volume.cs:141-155 | an extent is read exactly when the handle opens, the request succeeds and it returns a positive byte count |
| Platform.Host.SetVolumeMountPoint | VHDTools/Volume.cs:72 | succeeds exactly for a given, free, accepted path of a known volume; the binding is then appended; the call is logged |
| Platform.Host.DeleteVolumeMountPoint | VHDTools/Volume.cs:82 | succeeds exactly for a bound, accepted path; the path is then unbound; the call is logged |
| Platform.Host.QueryExtents | VHDTools/Volume.cs:141-147 | answers the host's extent answer for the device and logs the lookup |
| DiskIO.CtlCodeFields | VHDTools/DiskIO.cs:391 | device, access, function and transfer method read back from a composed control code |
| DiskIO.IoctlConstantsAreCtlCodes | VHDTools/DiskIO.cs:137-142 | each hexadecimal IOCTL constant equals the CTL_CODE composition of its enum counterpart; UPDATE_PROPERTIES is function 0x50 of the disk device |
| DiskIO.SignatureValueOfBytes | VHDTools/DiskIO.cs:30 | BitConverter.ToInt32 of the bytes of a value gives the value back |
| DiskIO.SignatureBytesOfValue | VHDTools/DiskIO.cs:22-30 | the little-endian bytes of the value read from four bytes are those bytes |
| DiskIO.LayoutHasOnePartition | VHDTools/DiskIO.cs:40-59 | the layout is MBR with the signature and one partition: number 1, at 65536, rewritten, IFS type, bootable, recognised, no hidden sectors; for a reported length of at least 65536 it spans exactly the rest of the disk |
| DiskIO.RawDevices.BuildLayout | VHDTools/DiskIO.cs:40-59 | the field-by-field initialisation yields exactly that single-partition layout |
| DiskIO.GrowCarriesCurrentPartition | VHDTools/DiskIO.cs:81-85 | the grow request names the current partition number and asks for the current length plus the increment, whenever those fit their fields |
| DiskIO.SectorCount | VHDTools/DiskIO.cs:99 | with the sector size cast to long, fails exactly on a zero divisor or on MinInt64 / -1; the first is DivideByZero, the second Overflow |
| DiskIO.SectorCountIsQuotient | VHDTools/DiskIO.cs:99 | for a non-negative length and a positive sector size the division succeeds with the whole number of sectors n: n * size <= length < (n + 1) * size |
| DiskIO.TruncDivInRange | VHDTools/DiskIO.cs:99 | the truncated quotient of two longs stays in the long range except for MinInt64 / -1 |
| DiskIO.PassingPrefix | VHDTools/DiskIO.cs:33-63 | the number of consecutive passing requests from the first position: all of them pass, and the next one fails when not all passed |
| DiskIO.PassingPrefixIs | VHDTools/DiskIO.cs:33-63 | a count whose requests all pass and whose next request fails (or is the end) is the passing prefix |
| DiskIO.StopsAt | VHDTools/DiskIO.cs:33-63 | when request j is the first to fail, the issued requests are the plan up to and including j, and the routine fails |
| DiskIO.RunsThrough | VHDTools/DiskIO.cs:33-63 | when no request fails, the whole plan is issued and the routine passes |
| DiskIO.Issued | VHDTools/DiskIO.cs:33-63 | the issued requests are a prefix of the plan; when shorter than the plan, the last one issued is the failing one |
| DiskIO.IssuedStopsAtFirstFailure | VHDTools/DiskIO.cs:33-63 | a request is issued exactly when every earlier one passed; nothing after the first failure is issued |
| DiskIO.InitPlanOrder | VHDTools/DiskIO.cs:33-63 | the requests are create-disk with the MBR signature, update-properties, get-partition-info, set-layout with the single-partition layout, update-properties, in that order |
| DiskIO.RawDevices.Issue | VHDTools/DiskIO.cs:33 | logs one request and answers whether it succeeds |
| DiskIO.RawDevices.Step | VHDTools/DiskIO.cs:33-38 | one checked request: on success the trace grows by it; on failure the handle is closed and the routine reports the first failure |
| DiskIO.RawDevices.InitializeDisk | VHDTools/DiskIO.cs:16-65 | an invalid handle gives Win32Error with no request; otherwise the trace is the open, the issued prefix of the five-request plan and the close; Pass exactly when all five pass |
| DiskIO.RawDevices.UpdateDiskPartition | VHDTools/DiskIO.cs:67-104 | an invalid handle issues nothing; the five requests stop at the first failure with a Win32 error; a zero sector size then fails with DivideByZero and MinInt64 / -1 with Overflow before the extend request; otherwise the extend request carries the sector count and its failure is a Win32 error |
| Volumes.CheckDriveLetterAccepts | VHDTools/Volume.cs:277 | the check accepts exactly "X:" and "X:\" with X in A-Z, and yields "X:\" |
| Volumes.ParseDriveLetterAccepts | VHDTools/Volume.cs:272-279 | after trimming and upper-casing, exactly the forms "X:" and "X:\" are accepted, yielding "X:\" |
| Volumes.ParseDriveLetterIdempotent | VHDTools/Volume.cs:272-279 | a parse result has length 3 and parses to itself |
| Volumes.BareLetterRejected | VHDTools/Volume.cs:276-277 | "c" is rejected because only a backslash is appended, "d:" gives "D:\", and null gives null |
| Volumes.RemoveLastBackslashInverse | VHDTools/Volume.cs:281-291 | exactly one trailing backslash is removed: adding it back restores the text, text without one is unchanged, and appending then removing one is the identity |
| Volumes.RemoveLastBackslashTwice | VHDTools/Volume.cs:281-291 | the function is not idempotent: "a\\" becomes "a\" and then "a" |
| Volumes.FirstOfLength3 | VHDTools/Volume.cs:45-48 | a result is a listed path of length 3 with no path of length 3 listed before it, and the result is None exactly when no listed path has length 3 |
| Volumes.PathsHaveNoNul | VHDTools/Volume.cs:43-45 | a volume's mount paths hold no NUL when no path in the table does |
| Volumes.SplitPathNames | VHDTools/Volume.cs:43-45 | splitting the query's answer gives the volume's mount paths |
| Volumes.LetterInIff | VHDTools/Volume.cs:37-52 | for a known volume, there is a letter exactly when the volume has a mount path of length 3, and the letter is such a path |
| Volumes.FirstOfLength3Appended | VHDTools/Volume.cs:72 | paths without one of length 3, followed by one of length 3, yield that one |
| Volumes.PathsOfAppend | VHDTools/Volume.cs:72 | appending a binding adds its path to exactly that volume's paths |
| Volumes.NoLetterLeft | VHDTools/Volume.cs:78-87 | once the current letter is unbound, a volume with at most one letter has no mount path of length 3 |
| Volumes.LetterAfterChange | VHDTools/Volume.cs:66-76 | after the delete and the set both succeed, the volume's letter is the new one |
| Volumes.LetterAfterRemove | VHDTools/Volume.cs:78-87 | after a successful delete the volume has no letter |
| Volumes.VolumesOnDrive | VHDTools/Volume.cs:211-218 | the volumes on the drive are among the enumerated names |
| Volumes.VolumesOnDriveMembers | VHDTools/Volume.cs:211-218 | a name is kept exactly when it is enumerated and its extent lookup names the drive |
| Volumes.VolumesOnDriveCounts | VHDTools/Volume.cs:211-218 | a name on the drive is kept as many times as it is enumerated, any other name never |
| Volumes.VolumesOnDriveInOrder | VHDTools/Volume.cs:211-218 | the kept names are a subsequence of the enumeration, in its order |
| Volumes.DevicesOf | VHDTools/Volume.cs:129 | one device name per enumerated volume name |
| Volumes.DevicesOfEach | VHDTools/Volume.cs:129 | the i-th lookup opens the i-th enumerated name without its trailing backslash |
| Volumes.NamesOf | VHDTools/Volume.cs:213 | one name per volume object, in order |
| Volumes.InsertBy | VHDTools/Volume.cs:222-237 | inserting into a sorted list keeps it sorted and adds exactly the element |
| Volumes.SortBy | VHDTools/Volume.cs:222-237 | the result is sorted by the key and is a permutation of the input |
| Volumes.SortByKey | VHDTools/Volume.cs:222-237 | volumes sorted by starting offset, an unknown offset counting as -1; the result is a permutation |
| Volumes.NamesPermuted | VHDTools/Volume.cs:222-237 | a permutation of volume objects permutes their names |
| Volumes.CdRomLettersAre | VHDTools/Volume.cs:246-266 | a letter among the first n is listed exactly when its alias names the CD-ROM drive; the list is strictly increasing |
| Volumes.DeviceLetter | VHDTools/Volume.cs:248 | the DOS device name is the letter and a colon, and it parses to "X:\" |
| Volumes.UpperPrefixMatches | VHDTools/Volume.cs:189 | a case-insensitive prefix test against an upper-case prefix is a test on the upper-cased text |
| Volumes.PhysicalDriveRoundTrip | VHDTools/Volume.cs:189-191 | "\\.\PHYSICALDRIVE" followed by an int dispatches to that physical drive, whatever the prefix's case |
| Volumes.NotPhysicalDrive | VHDTools/Volume.cs:189 | a text whose fifth character is C, in either case, does not start with the physical-drive prefix |
| Volumes.CdRomDriveRoundTrip | VHDTools/Volume.cs:193-195 | "\\.\CDROM" followed by an int dispatches to that CD-ROM drive |
| Volumes.DriveRefRejects | VHDTools/Volume.cs:197-200 | "C:\" and a `\\?\PHYSICALDRIVE` path are neither form, so they give null |
| Volumes.Volume.constructor | VHDTools/Volume.cs:19-22 | the volume has the given name and no extent information yet |
| Volumes.Volume.DriveLetter3 | VHDTools/Volume.cs:37-52 | the first mount path of length 3, or None when the query fails or there is none |
| Volumes.Volume.DriveLetter2 | VHDTools/Volume.cs:57-64 | the first two characters of DriveLetter3, or None |
| Volumes.Volume.RemoveLetter | VHDTools/Volume.cs:78-87 | no letter: nothing is issued; otherwise one delete of the letter, failing with a Win32 error when it is refused |
| Volumes.Volume.ChangeLetter | VHDTools/Volume.cs:66-76 | a normalised letter equal to the current one changes nothing; otherwise the current letter is deleted and the new one set; a null or invalid letter makes the set fail; each failure is a Win32 error |
| Volumes.Volume.Rebind | VHDTools/Volume.cs:71-75 | the delete (if there is a letter) then the set, with the exact mount-table and log changes of each branch |
| Volumes.Volume.GetExtentInfo | VHDTools/Volume.cs:139-165 | one lookup is logged; the result is the first extent when the lookup succeeds and zeros otherwise |
| Volumes.Volume.FillExtentInfo | VHDTools/Volume.cs:122-137 | runs the lookup only the first time; afterwards the cached fields hold the lookup's extent, or stay null when it fails |
| Volumes.Volume.PhysicalDriveNumber | VHDTools/Volume.cs:91-98 | the cached disk number, with a lookup issued only on first use |
| Volumes.Volume.PhysicalDriveExtentOffset | VHDTools/Volume.cs:101-108 | the cached starting offset, with a lookup issued only on first use |
| Volumes.Volume.PhysicalDriveExtentLength | VHDTools/Volume.cs:111-118 | the cached extent length, with a lookup issued only on first use |
| Volumes.Volume.GetFromLetter | VHDTools/Volume.cs:168-183 | null input gives ArgumentNull; an invalid letter gives ArgumentOutOfRange; otherwise the volume bound at the letter, or null |
| Volumes.Volume.LookUpOnDrive | VHDTools/Volume.cs:213-217 | a fresh volume, its extent looked up once, kept exactly when its disk number is the drive |
| Volumes.Volume.CollectOnDrive | VHDTools/Volume.cs:205-220 | every name is looked up once, in order, and exactly the names on the drive are kept, in order |
| Volumes.Volume.GetVolumesOnPhysicalDrive | VHDTools/Volume.cs:203-240 | the result is a permutation of the names on the drive, sorted by starting offset; each volume caches its own extent answer |
| Volumes.Volume.CdVolumeAt | VHDTools/Volume.cs:248-264 | matches exactly when the letter's alias names the CD-ROM drive, and then holds the volume bound at that letter or null |
| Volumes.Volume.GetVolumesOnCdDrive | VHDTools/Volume.cs:242-269 | one entry per matching letter, in A-Z order, each the volume at that letter or null |
| Volumes.Volume.GetVolumesOnDevicePath | VHDTools/Volume.cs:186-201 | null exactly when the path is neither form; otherwise the listing of that drive (for a physical drive, every on-drive name is listed and nothing else), with the lookups logged |
| DeviceFromPath.QuotedValue | VHDTools/DeviceFromPath.cs:73-79 | no opener gives None; a value holds no quote and stands between two quotes of the text |
| DeviceFromPath.OpenerQuote | VHDTools/DeviceFromPath.cs:75 | the quote search after the opener finds the opener's own closing quote |
| DeviceFromPath.QuotedValueAt | VHDTools/DeviceFromPath.cs:73-79 | a quoted value placed after the first opener is extracted exactly |
| DeviceFromPath.QuotedValueOf | VHDTools/DeviceFromPath.cs:73-79 | text of the form `prefix:Type="v"rest`, with no opener in the prefix and no quote in v, yields v |
| DeviceFromPath.Between | VHDTools/DeviceFromPath.cs:81-89 | a non-empty marker that is absent gives null; a result is no longer than the extract |
| DeviceFromPath.BetweenWhole | VHDTools/DeviceFromPath.cs:81-89 | empty markers give the whole extract |
| DeviceFromPath.BetweenAt | VHDTools/DeviceFromPath.cs:81-89 | with markers at their first occurrences, the text between them is returned |
| DeviceFromPath.BetweenMarkers | VHDTools/DeviceFromPath.cs:81-89 | `start + v + end` text, with v free of both markers, gives v |
| DeviceFromPath.BetweenEndBeforeStart | VHDTools/DeviceFromPath.cs:89 | an end marker before the start marker raises ArgumentOutOfRange |
| DeviceFromPath.GetSubsubstring | VHDTools/DeviceFromPath.cs:71-90 | a missing opener or quote gives null; a result never holds a quote |
| DeviceFromPath.PartitionPathQuoted | VHDTools/DeviceFromPath.cs:53 | the partition object path's quoted id is "Disk #d, Partition #p" |
| DeviceFromPath.PartitionIdDisk | VHDTools/DeviceFromPath.cs:53 | between "Disk #" and "," of that id lies the disk number's text |
| DeviceFromPath.DiskNumberOfPartitionPath | VHDTools/DeviceFromPath.cs:53 | the disk part of a partition object path is the disk number's text |
| DeviceFromPath.LetterOfLogicalDiskPath | VHDTools/DeviceFromPath.cs:54 | the logical-disk part of `Win32_LogicalDisk.DeviceID="X:"` is "X:" |
| DeviceFromPath.CdRomAliasRoundTrip | VHDTools/DeviceFromPath.cs:105-111 | an alias "\Device\CdRom" + n gives "\\?\CDROM" + n |
| DeviceFromPath.Int32ToStringInjective | VHDTools/DeviceFromPath.cs:110 | distinct ints have distinct texts |
| DeviceFromPath.FindCdRomIff | VHDTools/DeviceFromPath.cs:97-115 | the path resolves to "\\?\CDROM" + n exactly when its drive's alias is the CD-ROM alias of n |
| DeviceFromPath.AfterLastSeparator | VHDTools/DeviceFromPath.cs:55 | the position after the last backslash: no backslash follows it |
| DeviceFromPath.LeafName | VHDTools/DeviceFromPath.cs:55 | DirectoryInfo.Name: a drive root names itself, and any other path gives a name without a backslash |
| DeviceFromPath.MatchOne | VHDTools/DeviceFromPath.cs:53-65 | a successful verdict is "\\?\PHYSICALDRIVE" followed by the text of an int |
| DeviceFromPath.Verdicts | VHDTools/DeviceFromPath.cs:51-67 | one verdict per association, each being that association's match |
| DeviceFromPath.Decide | VHDTools/DeviceFromPath.cs:51-68 | a drive answered is one of the verdicts from position i on |
| DeviceFromPath.DriveFrom | VHDTools/DeviceFromPath.cs:51-68 | a drive answered is "\\?\PHYSICALDRIVE" followed by the text of an int |
| DeviceFromPath.FirstVerdictDecides | VHDTools/DeviceFromPath.cs:51-66 | when the first match is at i, the answer is that match's verdict |
| DeviceFromPath.NoVerdictGivesNull | VHDTools/DeviceFromPath.cs:68 | with no match, the answer is null |
| DeviceFromPath.MatchAt | VHDTools/DeviceFromPath.cs:53-65 | one loop body: the verdict of one association |
| DeviceFromPath.MatchAssociations | VHDTools/DeviceFromPath.cs:51-68 | the loop answers the first verdict over the association table |
| DeviceFromPath.FindPhysicalDriveByLeafName | VHDTools/DeviceFromPath.cs:26-69 | as written: the name matched is the leaf name of the path; a path that is a file gives FormatError |
| DeviceFromPath.FindPhysicalDrive | VHDTools/DeviceFromPath.cs:26-69 | as intended: a path that is a file gives FormatError; otherwise the full path is matched against each association's logical disk |
| DeviceFromPath.DiskAssociationVerdict | VHDTools/DeviceFromPath.cs:53-61 | the association of disk d with logical disk "X:" gives "\\?\PHYSICALDRIVE" + d for a name starting with "X:" in either case, and no verdict for any other name |
| DeviceFromPath.LeafOfFolder | VHDTools/DeviceFromPath.cs:55 | the leaf name of `X:\folder` is "folder" |
| DeviceFromPath.LeafNameMissesFolders | VHDTools/DeviceFromPath.cs:55 | as written, a folder below a root of disk d does not resolve to disk d, while the corrected search does |
| DeviceFromPath.GetDevice | VHDTools/DeviceFromPath.cs:17-21 | as written: the CD-ROM device when there is one; otherwise a file gives FormatError and a directory is matched by its leaf name; a null or empty path is the CD-ROM search's error |
| DeviceFromPath.GetDeviceByFullPath | VHDTools/DeviceFromPath.cs:17-21 | as intended: the CD-ROM device when there is one, otherwise the physical-drive lookup on the full path |
| DeviceFromPath.CdRomWins | VHDTools/DeviceFromPath.cs:19 | a path on a CD-ROM resolves to the CD-ROM whatever the association table says |
| DiskManagement.Escape | VHDTools/DiskManager.cs:138 | the result is one character longer per backslash |
| DiskManagement.EscapeRoundTrip | VHDTools/DiskManager.cs:138 | un-doubling the backslashes gives the volume name back |
| DiskManagement.EscapeKeepsPlain | VHDTools/DiskManager.cs:138 | a name without backslashes is unchanged |
| DiskManagement.FormatCallsOf | VHDTools/DiskManager.cs:136-139 | one format call per volume before the first null one |
| DiskManagement.FormatCallsFormatVolumes | VHDTools/DiskManager.cs:136-146 | the i-th call formats the escaped name of the i-th volume with the label and file system |
| DiskManagement.LetterScan | VHDTools/DiskManager.cs:49 | an error is NullReference and arises only when a null volume is scanned |
| DiskManagement.LetterScanIff | VHDTools/DiskManager.cs:49 | with no null volume, the scan answers whether some volume has a letter |
| DiskManagement.FindByLetter | VHDTools/DiskManager.cs:172-177 | a found index holds a volume whose letter is the path; an error is NullReference |
| DiskManagement.FindByLetterIff | VHDTools/DiskManager.cs:172-177 | with no null volume there is no error; nothing is found exactly when no volume has the letter; no volume before the found one has it |
| DiskManagement.RootOfParsed | VHDTools/DiskManager.cs:162 | a letter A-Z (either case) gives a root that parses to itself; any other character gives one that does not parse |
| DiskManagement.ScanForLetter | VHDTools/DiskManager.cs:49 | the loop answers the letter scan of the volumes |
| DiskManagement.SearchLetter | VHDTools/DiskManager.cs:172-177 | the loop answers the search for the first volume with the letter |
| DiskManagement.FormatEach | VHDTools/DiskManager.cs:143-146 | the formatter receives exactly the format calls of the volumes, stopping with NullReference at a null one |
| DiskManagement.MoveToLetter | VHDTools/DiskManager.cs:160-165 | ChangeLetter's whole effect for the root of the letter: the mount table (every other mount point kept), the call log and the outcome, which is success exactly when the set is accepted on the cleared table; for a letter A-Z, a volume already there changes nothing and success leaves it on that letter; for any other character, success means the volume had no letter and nothing changed |
| DiskManagement.DiskManager.FromPath | VHDTools/DiskManager.cs:24-51 | a missing file and a file the service cannot open give the source's two errors; an attached path of neither device form gives ArgumentNull; otherwise a virtual-disk session after one open, attached exactly when the attached path is non-empty, whose volumes and letter flag are those of the attached device when attached; a session always results when nothing is attached, and otherwise exactly when the scan of the attached device's listing (ListingScan) succeeds, the flag being its answer and its error (ArgumentNull or a CD-ROM's NullReference) being the constructor's |
| DiskManagement.DiskManager.FromLetter | VHDTools/DiskManager.cs:53-69 | an unlisted drive gives the not-found error; otherwise an attached drive-letter session over the root, with no handle, the letter flag unset and one volume: the one at that letter, or null; a listed drive whose root parses always gives a session |
| DiskManagement.DiskManager.AttachVirtualDisk | VHDTools/DiskManager.cs:80-96 | refused for a drive-letter session; a no-op when attached; otherwise one attach with the options plus ReadOnly when asked, after which the session is attached exactly when the attach succeeded |
| DiskManagement.DiskManager.DetachVirtualDisk | VHDTools/DiskManager.cs:98-105 | a no-op when not attached; otherwise one detach, after which the session is detached exactly when it succeeded |
| DiskManagement.CdSlots | VHDTools/Volume.cs:242-269 | one slot per CD-ROM letter, null exactly where no volume is bound at the letter's root |
| DiskManagement.ListingScan | VHDTools/DiskManager.cs:48-49 | ArgumentNull exactly for a path of neither device form; any other error is a CD-ROM's NullReference |
| DiskManagement.ScanOfListing | VHDTools/DiskManager.cs:48-49 | scanning any list the string overload can return gives ListingScan of the path |
| DiskManagement.ScanOfNames | VHDTools/DiskManager.cs:49 | a null-free list of exactly the drive's volumes answers whether one of them has a letter |
| DiskManagement.DiskManager.RefreshVolumes | VHDTools/DiskManager.cs:121-122 | an attached path of neither device form gives ArgumentNull and changes nothing; otherwise the volumes are the listing of the device and the letter flag is the scan over them; outcome and flag are ListingScan of the path |
| DiskManagement.DiskManager.InitializeVirtualDiskPartition | VHDTools/DiskManager.cs:107-123 | a drive-letter or detached session fails and issues nothing; otherwise InitializeDisk on the attached path; when every request passes, the outcome, the letter flag, the volume list and the lookup log are those of refreshing the attached path |
| DiskManagement.DiskManager.FortmatAllVolumesOfDrive | VHDTools/DiskManager.cs:125-148 | a detached virtual disk fails and formats nothing; an attached one re-lists its volumes first; then every volume is formatted with an empty label, stopping with NullReference at a null one |
| DiskManagement.DiskManager.FormatSpecificVolume | VHDTools/DiskManager.cs:150-158 | a volume not among the session's own fails and formats nothing; otherwise one format call with the custom label |
| DiskManagement.DiskManager.SetDriveLetter | VHDTools/DiskManager.cs:160-165 | a null volume is NullReference; otherwise the volume moves to the upper-cased root with MoveToLetter's whole effect |
| DiskManagement.DiskManager.ChangeDriveLetter | VHDTools/DiskManager.cs:167-180 | no volume with the old letter is an error; otherwise the first such volume moves to the new root with MoveToLetter's whole effect |
| DiskManagement.DiskManager.ExpandVirtualDisk | VHDTools/DiskManager.cs:182-185 | a drive-letter session is NullReference; otherwise one expand call with the new size |
| DiskManagement.DiskManager.Dispose | VHDTools/DiskManager.cs:187-191 | the handle, when present, is closed and then disposed, and its attached path is unchanged |

## Left out

- `CreateVirtualDisk` (VHDTools/DiskManager.cs:71-78) is not modelled. It only forwards to the virtual-disk service's create call, which is not part of this model.
- The management query (`Win32_LogicalDiskToPartition`) is not run. Its rows are the input `Host.associations`, and each row's two strings are taken as non-null.
- `RandomNumberGenerator`: the four signature bytes are a parameter of `InitializeDisk`.
- `FormatDisk.ResolveFileSystemType` and `FormatDrive_Win32Api` are not part of this model. The formatter records the file-system value it is given, and its boolean result is ignored, as in the source.
- P/Invoke marshalling, structure layouts, `Marshal.SizeOf` and the `bytesOut` counters are not modelled. Requests are values, and each reply is success or failure plus the fields that are read.
- The catalogue of `EIOControlCode` members: only the codes the two routines use are modelled.
- StringBuilder capacities (4096, 50, 64): answers are assumed to fit, so no truncated text is modelled.
- The `[Out] LPWStr StringBuilder` marshalling of `GetVolumePathNamesForVolumeName` (VHDTools/Volume.cs:329) is modelled as handing back the whole NUL-separated list. The marshaller may copy back only up to the first NUL, in which case `DriveLetter3` would see only the first mount path; that reading is not modelled.
- Culture: upper-casing and case-insensitive comparison cover ASCII letters only. White space is the space and the control characters tab to carriage return; Unicode spaces are not modelled.
- `FileInfo`/`DirectoryInfo` path normalisation: the path is taken as already full. Relative paths, "." and "..", forward slashes and invalid-character exceptions are not modelled.
- A failed `FindFirstVolume` is modelled as an empty volume list. An answer that is either empty or invalid gives the same result.
- `Debug.WriteLine` output and the unused Win32 error-message string in `GetExtentInfo` are not modelled.
- The virtual-disk handle that the file constructor leaves open when it throws after opening is not modelled (there is no finaliser in the model).
- The letter queries that a `DriveLetter3` call makes are not logged. `DriveLetter3` changes nothing, so the source's `All` and `First` passes are modelled as one scan (`SearchLetter`), and the constructor's two `GetAttachedPath` calls as one.
- The CD-ROM identifiers differ by prefix: DeviceFromPath produces `\\?\CDROM`, while the volume listing accepts only `\\.\CDROM`. Each is modelled as written, and the two are not connected in the model.
- `UpdateDiskPartition` has no caller in the session class. It is modelled on its own.
- Volumes.Volume.GetVolumesOnDevicePath: for a physical drive, `ListsDevice` states the count and the membership of the names in both directions, not the order and multiplicities that `GetVolumesOnPhysicalDrive` states.
- DiskManagement.DiskManager.FortmatAllVolumesOfDrive: exact formatter calls are stated only when the volume list is present and, for a virtual disk, when the attached path is a device path. Otherwise the contract states only the error.

## Findings

| source | as written | input that shows it | evidently intended | confidence | as-written member | corrected member |
|---|---|---|---|---|---|---|
| VHDTools/DeviceFromPath.cs:55 | tests whether `iDirectory.Name` (the last path component) starts with the logical disk "X:" | the folder `D:\data`, with logical disk "D:" on disk #2: the name "data" matches no association, so the result is null | the path itself starts with "D:", so the result is `\\?\PHYSICALDRIVE2` | not executed | DeviceFromPath.FindPhysicalDriveByLeafName | DeviceFromPath.FindPhysicalDrive |

`LeafNameMissesFolders` proves the input in the table: the as-written search misses the
folder, and the corrected one finds the disk. `DeviceFromPath.GetDevice` composes the
CD-ROM search with the lookup as written, as the source does. `GetDeviceByFullPath`
composes it with the corrected lookup.
