/** The two external collaborators a disk session drives: the virtual-disk handle
    (an external VHD/VHDX wrapper) and the volume formatter. Neither is implemented
    here; each is an object that records the calls made on it, in order, and
    answers from a fixed set of oracle values. */
module Collaborators {
  import opened Common

  /** Bits of the attach option set the session passes on. */
  datatype AttachOption = ReadOnly | NoDriveLetter | PermanentLifetime | NoLocalHost

  /** The option set AttachVirtualDisk uses when the caller gives none. */
  const DefaultAttachOptions: set<AttachOption> := {PermanentLifetime, NoDriveLetter}

  /** One call made on a virtual-disk handle. `OpenCall` is the open with full access. */
  datatype VdCall =
    | OpenCall
    | AttachCall(options: set<AttachOption>)
    | DetachCall
    | ExpandCall(newSize: uint64)
    | CloseCall
    | DisposeCall

  /** What the virtual-disk service answers for one backing file: whether it can be
      opened, the device path it reports as attached when opened, the device path
      it reports after a successful attach, and which calls fail (by their
      position in the handle's call log). */
  datatype VhdAnswers = VhdAnswers(
    opens: bool,
    attachedPath: string,
    attachTarget: string,
    failing: set<nat>)

  /** The answers for a file the service does not know: it cannot be opened. */
  const UnknownVhd: VhdAnswers := VhdAnswers(false, "", "", {})

  class VirtualDisk {
    const Path: string
    const answers: VhdAnswers
    var attachedPath: string
    var calls: seq<VdCall>

    constructor (path: string, answers: VhdAnswers)
      ensures Path == path && this.answers == answers
      ensures attachedPath == answers.attachedPath && calls == []
    {
      Path := path;
      this.answers := answers;
      attachedPath := answers.attachedPath;
      calls := [];
    }

    /** Whether the next call recorded in the log fails. */
    predicate NextFails()
      reads this
    {
      |calls| in answers.failing
    }

    method Open() returns (r: Outcome)
      modifies this`calls
      ensures calls == old(calls) + [OpenCall]
      ensures r == if answers.opens then Pass else Fail(GeneralError("open failed"))
    {
      calls := calls + [OpenCall];
      r := if answers.opens then Pass else Fail(GeneralError("open failed"));
    }

    /** The attached device path, "" when the disk is not attached. */
    method GetAttachedPath() returns (p: string)
      ensures p == attachedPath
    {
      p := attachedPath;
    }

    method Attach(options: set<AttachOption>) returns (r: Outcome)
      modifies this`calls, this`attachedPath
      ensures calls == old(calls) + [AttachCall(options)]
      ensures r.Pass? <==> !old(NextFails())
      ensures r.Fail? ==> r.error == Win32Error && attachedPath == old(attachedPath)
      ensures r.Pass? ==> attachedPath == answers.attachTarget
    {
      var fails := NextFails();
      calls := calls + [AttachCall(options)];
      if fails {
        r := Fail(Win32Error);
      } else {
        attachedPath := answers.attachTarget;
        r := Pass;
      }
    }

    method Detach() returns (r: Outcome)
      modifies this`calls, this`attachedPath
      ensures calls == old(calls) + [DetachCall]
      ensures r.Pass? <==> !old(NextFails())
      ensures r.Fail? ==> r.error == Win32Error && attachedPath == old(attachedPath)
      ensures r.Pass? ==> attachedPath == ""
    {
      var fails := NextFails();
      calls := calls + [DetachCall];
      if fails {
        r := Fail(Win32Error);
      } else {
        attachedPath := "";
        r := Pass;
      }
    }

    method Expand(newSize: uint64) returns (r: Outcome)
      modifies this`calls
      ensures calls == old(calls) + [ExpandCall(newSize)]
      ensures r == if old(NextFails()) then Fail(Win32Error) else Pass
    {
      r := if NextFails() then Fail(Win32Error) else Pass;
      calls := calls + [ExpandCall(newSize)];
    }

    method Close()
      modifies this`calls
      ensures calls == old(calls) + [CloseCall]
    {
      calls := calls + [CloseCall];
    }

    method Dispose()
      modifies this`calls
      ensures calls == old(calls) + [DisposeCall]
    {
      calls := calls + [DisposeCall];
    }
  }

  /** The file system a volume is formatted with; the formatter resolves it to its
      own type code. */
  datatype FileSystemType = FileSystemType(name: string)

  const NTFS: FileSystemType := FileSystemType("NTFS")

  /** One call of the formatter: native volume path, label, file system. */
  datatype FormatCall = FormatCall(volumePath: string, volumeLabel: string, fileSystem: FileSystemType)

  class Formatter {
    var calls: seq<FormatCall>

    /** Formats one volume. Its boolean result is ignored by every caller in the
        library, so only the call is recorded. */
    method FormatDrive(volumePath: string, volumeLabel: string, fileSystem: FileSystemType)
      modifies this
      ensures calls == old(calls) + [FormatCall(volumePath, volumeLabel, fileSystem)]
    {
      calls := calls + [FormatCall(volumePath, volumeLabel, fileSystem)];
    }
  }
}
