/** The operating-system surface the volume layer, the device resolver and the
    disk session use, as one object: the volume namespace and its mount table, the
    answers to extent, device-alias, drive-list, file and attribute queries, the
    partition-to-logical-disk association table, and the virtual-disk service.
    Queries are functions of the state; the two mount-table mutations and the
    extent lookup are methods that keep a log of the calls issued. */
module Platform {
  import opened Common
  import opened Collaborators

  /** One binding of a mount path ("X:\" or a folder) to a volume GUID name. */
  datatype MountPoint = MountPoint(path: string, volume: string)

  /** One mount-table mutation request. A null mount path is `None`. */
  datatype MountCall =
    | SetMountPoint(target: Option<string>, volume: string)
    | DeleteMountPoint(mountPath: string)

  /** The first (and only inspected) extent of a volume. */
  datatype DiskExtent = DiskExtent(diskNumber: int32, startingOffset: int64, extentLength: int64)

  /** How a "get volume disk extents" lookup on a volume ends: the handle cannot be
      opened, or the control request answers with its success flag, the number of
      bytes it returned and the first extent slot. */
  datatype ExtentAnswer =
    | InvalidHandle
    | Replied(succeeded: bool, bytesReturned: int32, extent: DiskExtent)

  /** One row of the partition-to-logical-disk association table, as the two
      object-path strings the management query returns. */
  datatype Association = Association(antecedent: string, dependent: string)

  /** The mount paths bound to `volume`, in table order. */
  function PathsOf(mounts: seq<MountPoint>, volume: string): (ps: seq<string>)
    ensures forall p :: p in ps <==> MountPoint(p, volume) in mounts
  {
    if mounts == [] then []
    else (if mounts[0].volume == volume then [mounts[0].path] else []) + PathsOf(mounts[1..], volume)
  }

  /** The volume bound at `path`, the first binding in table order. */
  function BoundVolume(mounts: seq<MountPoint>, path: string): (v: Option<string>)
    ensures v.Some? ==> MountPoint(path, v.value) in mounts
    ensures v.None? ==> forall w :: MountPoint(path, w) !in mounts
  {
    if mounts == [] then None
    else if mounts[0].path == path then Some(mounts[0].volume)
    else BoundVolume(mounts[1..], path)
  }

  /** The table without the bindings of `path`. */
  function Unbind(mounts: seq<MountPoint>, path: string): (r: seq<MountPoint>)
    ensures forall m :: m in r <==> m in mounts && m.path != path
  {
    if mounts == [] then []
    else (if mounts[0].path == path then [] else [mounts[0]]) + Unbind(mounts[1..], path)
  }

  /** When SetVolumeMountPoint succeeds: the path is given, not refused, free, and
      the volume exists. */
  predicate CanSetMountPoint(refused: set<string>, volumeNames: seq<string>, mounts: seq<MountPoint>,
                             path: Option<string>, volume: string) {
    path.Some? && path.value !in refused && BoundVolume(mounts, path.value).None? && volume in volumeNames
  }

  /** When DeleteVolumeMountPoint succeeds: the path is bound and not refused. */
  predicate CanDeleteMountPoint(refused: set<string>, mounts: seq<MountPoint>, path: string) {
    path !in refused && BoundVolume(mounts, path).Some?
  }

  /** The NUL-separated mount paths of a known volume; None for an unknown one. */
  function PathNames(volumeNames: seq<string>, mounts: seq<MountPoint>, volume: string): (r: Option<string>)
    ensures r.Some? <==> volume in volumeNames
  {
    if volume in volumeNames then Some(Join(PathsOf(mounts, volume), '\0')) else None
  }

  /** The first extent of a volume device, when the lookup succeeds: the handle
      opens, the control request succeeds and it returns a positive byte count. */
  function ExtentIn(extents: map<string, ExtentAnswer>, device: string): (r: Option<DiskExtent>)
    ensures r.Some? <==> device in extents && extents[device].Replied? &&
                         extents[device].succeeded && extents[device].bytesReturned > 0
  {
    if device in extents && extents[device].Replied? && extents[device].succeeded &&
       extents[device].bytesReturned > 0
    then Some(extents[device].extent)
    else None
  }

  class Host {
    /** The volume GUID names in the order the volume search returns them. */
    var volumeNames: seq<string>
    /** The mount table. */
    var mounts: seq<MountPoint>
    /** Mount paths whose creation or deletion the system refuses. */
    var refused: set<string>
    /** Extent lookups, by the device name the volume is opened with. */
    var extents: map<string, ExtentAnswer>
    /** Raw device aliases of DOS device names ("X:" -> "\Device\CdRom0"). */
    var dosDevices: map<string, string>
    /** The names of the logical drives ("C:\"), in the order the system lists them. */
    var drives: seq<string>
    /** The files that exist. */
    var files: set<string>
    /** Whether a path's attributes carry the directory bit; absent when reading the
        attributes raises an I/O error. */
    var isDirectory: map<string, bool>
    /** The partition-to-logical-disk association table. */
    var associations: seq<Association>
    /** The virtual-disk service's answers, by backing file. */
    var vhds: map<string, VhdAnswers>

    /** Mount-table mutations issued, in order. */
    var mountLog: seq<MountCall>
    /** Extent lookups issued, in order, by device name. */
    var extentLog: seq<string>

    /** GetVolumePathNamesForVolumeName: the NUL-separated mount paths of a known
        volume, or None when the query fails. */
    function PathNamesFor(volume: string): Option<string>
      reads this
    {
      PathNames(volumeNames, mounts, volume)
    }

    /** GetVolumeNameForVolumeMountPoint. */
    function VolumeAt(path: string): Option<string>
      reads this
    {
      BoundVolume(mounts, path)
    }

    /** QueryDosDevice: the alias text, or None when the call returns 0. */
    function DosDevice(name: string): Option<string>
      reads this
    {
      if name in dosDevices then Some(dosDevices[name]) else None
    }

    function ExtentAnswerFor(device: string): ExtentAnswer
      reads this
    {
      if device in extents then extents[device] else InvalidHandle
    }

    function VhdAnswersFor(path: string): VhdAnswers
      reads this
    {
      if path in vhds then vhds[path] else UnknownVhd
    }

    /** SetVolumeMountPoint: succeeds when the path is given, free, not refused,
        and the volume exists; on success the binding is appended to the table. */
    method SetVolumeMountPoint(path: Option<string>, volume: string) returns (ok: bool)
      modifies this`mounts, this`mountLog
      ensures ok <==> CanSetMountPoint(refused, volumeNames, old(mounts), path, volume)
      ensures mounts == if ok then old(mounts) + [MountPoint(path.value, volume)] else old(mounts)
      ensures mountLog == old(mountLog) + [SetMountPoint(path, volume)]
    {
      mountLog := mountLog + [SetMountPoint(path, volume)];
      ok := CanSetMountPoint(refused, volumeNames, mounts, path, volume);
      if ok {
        mounts := mounts + [MountPoint(path.value, volume)];
      }
    }

    /** DeleteVolumeMountPoint: succeeds when the path is bound and not refused. */
    method DeleteVolumeMountPoint(path: string) returns (ok: bool)
      modifies this`mounts, this`mountLog
      ensures ok <==> CanDeleteMountPoint(refused, old(mounts), path)
      ensures mounts == if ok then Unbind(old(mounts), path) else old(mounts)
      ensures mountLog == old(mountLog) + [DeleteMountPoint(path)]
    {
      mountLog := mountLog + [DeleteMountPoint(path)];
      ok := CanDeleteMountPoint(refused, mounts, path);
      if ok {
        mounts := Unbind(mounts, path);
      }
    }

    /** Opens `device` with no access rights and asks for its disk extents. */
    method QueryExtents(device: string) returns (a: ExtentAnswer)
      modifies this`extentLog
      ensures a == ExtentAnswerFor(device)
      ensures extentLog == old(extentLog) + [device]
    {
      extentLog := extentLog + [device];
      a := ExtentAnswerFor(device);
    }
  }
}
