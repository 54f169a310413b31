/** Inline and file-reference payloads, memrpc/src/core/file_payload.cpp:117-345.

    The payload directory is a map from paths to contents.  System calls that can fail carry
    their outcome as a parameter; a path of `PATH_MAX` bytes or more cannot be opened, and
    unlinking a file in the directory succeeds.
 */
module FilePayload {
  import opened Runs
  import opened Words
  import opened ByteCodec
  import opened Envelope

  type Path = seq<Byte>
  type Files = map<Path, seq<Byte>>

  const SLASH: Byte := 47
  const DOT: Byte := 46
  const MAX_FILE_PAYLOAD_BYTES: nat := 128 * 1024 * 1024
  const PATH_MAX: nat := 4096
  const INLINE_KIND: Byte := 0
  const FILE_KIND: Byte := 1

  predicate HasDotDot(p: Path) {
    exists i | 0 <= i < |p| - 1 :: p[i] == DOT && p[i + 1] == DOT
  }

  /** `IsPathInsideFilePayloadRoot`. */
  predicate InsideRoot(dir: Path, path: Path) {
    dir + [SLASH] <= path && !HasDotDot(path)
  }

  /** The name that `MakeFilePayloadPath` appends is made of the decimal process id, time stamp and
      counter, which may carry a minus sign, joined by underscores. */
  predicate GeneratedName(name: Path) {
    name != [] && forall i | 0 <= i < |name| :: 48 <= name[i] <= 57 || name[i] == 95 || name[i] == 45
  }

  function PathFor(dir: Path, name: Path): (p: Path) {
    dir + [SLASH] + name
  }

  /** Outcomes of creating a payload file: the generated name, and whether making the directory,
      opening the file and writing it succeed. */
  datatype WriteIo = WriteIo(name: Path, dirOk: bool, openOk: bool, writeOk: bool)

  /** A generated path lies inside the root exactly when the root has no "..". */
  lemma GeneratedPathInside(dir: Path, name: Path)
    requires GeneratedName(name)
    ensures InsideRoot(dir, PathFor(dir, name)) <==> !HasDotDot(dir)
  {
    var p := PathFor(dir, name);
    assert p[..|dir| + 1] == dir + [SLASH];
    if HasDotDot(dir) {
      var i :| 0 <= i < |dir| - 1 && dir[i] == DOT && dir[i + 1] == DOT;
      assert p[i] == DOT && p[i + 1] == DOT;
    }
    if HasDotDot(p) {
      var i :| 0 <= i < |p| - 1 && p[i] == DOT && p[i + 1] == DOT;
      assert i + 1 < |dir|;
      assert dir[i] == DOT && dir[i + 1] == DOT;
    }
  }

  // --- Specification functions ------------------------------------------------------------------

  datatype Written = Written(files: Files, ref: Option<FileRef>)

  /** `WriteFilePayload`.  A file that could not be written completely is unlinked again. */
  function Write(files: Files, dir: Path, payload: seq<Byte>, io: WriteIo): (r: Written)
    ensures r.ref.None? ==> r.files == files
    ensures r.ref.Some? ==>
      && r.ref.value.path == PathFor(dir, io.name) && r.ref.value.path !in files
      && r.ref.value.size == |payload| <= MAX_FILE_PAYLOAD_BYTES
      && |r.ref.value.path| < PATH_MAX
      && r.files == files[r.ref.value.path := payload]
  {
    var path := PathFor(dir, io.name);
    if |payload| > MAX_FILE_PAYLOAD_BYTES || !io.dirOk || !io.openOk || path in files
       || |path| >= PATH_MAX || !io.writeOk
    then Written(files, None)
    else Written(files[path := payload], Some(FileRef(path, |payload|)))
  }

  predicate Acceptable(dir: Path, ref: FileRef) {
    ref.path != [] && ref.size <= MAX_FILE_PAYLOAD_BYTES && InsideRoot(dir, ref.path)
  }

  /** `RemoveFilePayload`: the directory afterwards. */
  function Unlinked(files: Files, dir: Path, ref: FileRef): (r: Files) {
    if Acceptable(dir, ref) then files - {ref.path} else files
  }

  datatype Fetched = Fetched(files: Files, payload: Option<seq<Byte>>)

  /** `ReadAndRemoveFilePayload`. */
  function ReadAndRemove(files: Files, dir: Path, ref: FileRef, readOk: bool): (r: Fetched) {
    if !Acceptable(dir, ref) then Fetched(files, None)
    else if ref.path !in files || !readOk || |files[ref.path]| > MAX_FILE_PAYLOAD_BYTES || |files[ref.path]| != ref.size
    then Fetched(Unlinked(files, dir, ref), None)
    else Fetched(Unlinked(files, dir, ref), Some(files[ref.path]))
  }

  datatype Prepared = Prepared(files: Files, ok: bool, bytes: seq<Byte>, kind: Byte)

  /** `PrepareFilePayloadForTransport`. */
  function Prepare(files: Files, dir: Path, payload: seq<Byte>, limit: nat, io: WriteIo): (r: Prepared)
    ensures r.ok ==> |r.bytes| <= limit && (r.kind == INLINE_KIND || r.kind == FILE_KIND)
    ensures r.ok && r.kind == INLINE_KIND ==> r.bytes == payload && r.files == files
    ensures |payload| <= limit ==> r.ok && r.kind == INLINE_KIND
  {
    if |payload| <= limit then Prepared(files, true, payload, INLINE_KIND) else
    var w := Write(files, dir, payload, io);
    if w.ref.None? then Prepared(w.files, false, [], INLINE_KIND)
    else
      var envelope := Encode(w.ref.value);
      if |envelope| > limit then Prepared(Unlinked(w.files, dir, w.ref.value), false, [], INLINE_KIND)
      else Prepared(w.files, true, envelope, FILE_KIND)
  }

  /** `RemoveFilePayloadFromTransport`: the directory afterwards. */
  function RemovedFromTransport(files: Files, dir: Path, bytes: seq<Byte>, kind: Byte): (r: Files) {
    if kind != FILE_KIND || Decode(bytes).None? then files else Unlinked(files, dir, Decode(bytes).value)
  }

  /** `ResolveFilePayloadFromTransport`. */
  function Resolve(files: Files, dir: Path, bytes: seq<Byte>, kind: Byte, readOk: bool): (r: Fetched) {
    if kind == INLINE_KIND then Fetched(files, Some(bytes))
    else if kind != FILE_KIND || Decode(bytes).None? then Fetched(files, None)
    else ReadAndRemove(files, dir, Decode(bytes).value, readOk)
  }

  // --- Conservation -------------------------------------------------------------------------------

  /** What a prepared file reference stands for. */
  lemma PreparedReference(files: Files, dir: Path, payload: seq<Byte>, limit: nat, io: WriteIo)
    requires Prepare(files, dir, payload, limit, io).ok && Prepare(files, dir, payload, limit, io).kind == FILE_KIND
    ensures var p := Prepare(files, dir, payload, limit, io); var path := PathFor(dir, io.name);
      && path !in files && p.files == files[path := payload]
      && |payload| <= MAX_FILE_PAYLOAD_BYTES
      && Decode(p.bytes) == Some(FileRef(path, |payload|))
  {
    var p := Prepare(files, dir, payload, limit, io);
    var w := Write(files, dir, payload, io);
    DecodeEncode(w.ref.value, []);
    assert p.bytes + [] == p.bytes;
  }

  /** Prepare then resolve gives back the payload and the original file set, exactly when the
      payload went inline or the directory has no "..". */
  lemma PrepareThenResolve(files: Files, dir: Path, payload: seq<Byte>, limit: nat, io: WriteIo)
    requires GeneratedName(io.name) && Prepare(files, dir, payload, limit, io).ok
    ensures var p := Prepare(files, dir, payload, limit, io);
      Resolve(p.files, dir, p.bytes, p.kind, true) == Fetched(files, Some(payload))
      <==> |payload| <= limit || !HasDotDot(dir)
  {
    var p := Prepare(files, dir, payload, limit, io);
    if p.kind == FILE_KIND {
      PreparedReference(files, dir, payload, limit, io);
      GeneratedPathInside(dir, io.name);
      var path := PathFor(dir, io.name);
      assert files[path := payload] - {path} == files;
    }
  }

  /** Prepare then remove restores the file set, under the same condition. */
  lemma PrepareThenRemove(files: Files, dir: Path, payload: seq<Byte>, limit: nat, io: WriteIo)
    requires GeneratedName(io.name) && Prepare(files, dir, payload, limit, io).ok
    ensures var p := Prepare(files, dir, payload, limit, io);
      RemovedFromTransport(p.files, dir, p.bytes, p.kind) == files
      <==> |payload| <= limit || !HasDotDot(dir)
  {
    var p := Prepare(files, dir, payload, limit, io);
    if p.kind == FILE_KIND {
      PreparedReference(files, dir, payload, limit, io);
      GeneratedPathInside(dir, io.name);
      var path := PathFor(dir, io.name);
      assert files[path := payload] - {path} == files;
    }
  }

  /** A failed prepare leaves a file behind only if it had written it and the directory has a
      ".." that keeps it from being unlinked. */
  lemma FailedPrepareFiles(files: Files, dir: Path, payload: seq<Byte>, limit: nat, io: WriteIo)
    requires GeneratedName(io.name) && !Prepare(files, dir, payload, limit, io).ok
    ensures Prepare(files, dir, payload, limit, io).files == files
            <==> Write(files, dir, payload, io).ref.None? || !HasDotDot(dir)
  {
    GeneratedPathInside(dir, io.name);
    var w := Write(files, dir, payload, io);
    if w.ref.Some? {
      var path := PathFor(dir, io.name);
      assert files[path := payload] - {path} == files;
    }
  }

  /** Names range over all of `GeneratedName` up to a length of `longest` bytes, which is more than
      `MakeFilePayloadPath` produces, and exactness is relative to that.

      Whatever is in the directory, whichever name of at most `longest` bytes is generated and
      whichever system call fails: a prepare that fails adds no file. */
  ghost predicate FailureAddsNothing(dir: Path, payload: seq<Byte>, limit: nat, longest: nat) {
    forall files: Files, io: WriteIo ::
      GeneratedName(io.name) && |io.name| <= longest && !Prepare(files, dir, payload, limit, io).ok ==>
        Prepare(files, dir, payload, limit, io).files == files
  }

  /** The longest path that can be generated and opened. */
  function LongestPath(dir: Path, longest: nat): (n: int) {
    if |dir| + 1 + longest < PATH_MAX then |dir| + 1 + longest else PATH_MAX - 1
  }

  /** The payload needs a file, is small enough for one, and there is a path for it whose envelope
      exceeds the limit. */
  predicate EnvelopeMayNotFit(dir: Path, payload: seq<Byte>, limit: nat, longest: nat) {
    && limit < |payload| <= MAX_FILE_PAYLOAD_BYTES
    && |dir| + 1 < LongestPath(dir, longest) && limit < 16 + LongestPath(dir, longest)
  }

  /** A failed prepare adds no file, exactly unless the directory has a ".." and an envelope may
      not fit: a condition on the directory, the payload and the limit alone. */
  lemma FailedPrepareAddsNothing(dir: Path, payload: seq<Byte>, limit: nat, longest: nat)
    ensures FailureAddsNothing(dir, payload, limit, longest)
            <==> !HasDotDot(dir) || !EnvelopeMayNotFit(dir, payload, limit, longest)
  {
    if !HasDotDot(dir) || !EnvelopeMayNotFit(dir, payload, limit, longest) {
      forall files: Files, io: WriteIo |
        GeneratedName(io.name) && |io.name| <= longest && !Prepare(files, dir, payload, limit, io).ok
        ensures Prepare(files, dir, payload, limit, io).files == files
      {
        FailedPrepareFiles(files, dir, payload, limit, io);
      }
    } else {
      var name: Path := seq(LongestPath(dir, longest) - |dir| - 1, _ => 48);
      var io := WriteIo(name, true, true, true);
      FailedPrepareFiles(map[], dir, payload, limit, io);
      assert !Prepare(map[], dir, payload, limit, io).ok;
    }
  }

  /** A prepare succeeds exactly when the payload goes inline, or it may be put into a file, the file
      can be made under a new name, and the envelope fits. */
  lemma PrepareExact(files: Files, dir: Path, payload: seq<Byte>, limit: nat, io: WriteIo)
    ensures var path := PathFor(dir, io.name);
      Prepare(files, dir, payload, limit, io).ok <==>
        || |payload| <= limit
        || (&& |payload| <= MAX_FILE_PAYLOAD_BYTES && io.dirOk && io.openOk && io.writeOk
            && path !in files && |path| < PATH_MAX && 16 + |path| <= limit)
  {
    var w := Write(files, dir, payload, io);
    if w.ref.Some? {
      assert |Encode(w.ref.value)| == 16 + |w.ref.value.path|;
    }
  }

  /** A prepared file is consumed by its one resolve in every case, and what it holds by then is
      returned exactly if it can be read and has the length that was sent. */
  lemma ResolveConsumes(files: Files, dir: Path, payload: seq<Byte>, limit: nat, io: WriteIo,
                        found: seq<Byte>, readOk: bool)
    requires GeneratedName(io.name) && !HasDotDot(dir)
    requires |payload| > limit && Prepare(files, dir, payload, limit, io).ok
    ensures var p := Prepare(files, dir, payload, limit, io);
      Resolve(p.files[PathFor(dir, io.name) := found], dir, p.bytes, p.kind, readOk)
      == Fetched(files, if readOk && |found| == |payload| then Some(found) else None)
  {
    var path := PathFor(dir, io.name);
    PreparedReference(files, dir, payload, limit, io);
    GeneratedPathInside(dir, io.name);
    assert files[path := payload][path := found] - {path} == files;
  }

  /** A file that was removed meanwhile resolves to nothing, and resolving it changes nothing. */
  lemma ResolveMissing(files: Files, dir: Path, bytes: seq<Byte>, readOk: bool)
    requires Decode(bytes).Some? && Decode(bytes).value.path !in files
    ensures Resolve(files, dir, bytes, FILE_KIND, readOk) == Fetched(files, None)
  {
    assert files - {Decode(bytes).value.path} == files;
  }

  /** Whatever transport bytes a peer sends, a file that is not below the directory is neither removed
      nor changed, and nothing but a file below the directory is ever returned for a reference. */
  lemma OutsideUntouched(files: Files, dir: Path, path: Path, bytes: seq<Byte>, kind: Byte, readOk: bool)
    requires path in files && !(dir + [SLASH] <= path)
    ensures var r := RemovedFromTransport(files, dir, bytes, kind); path in r && r[path] == files[path]
    ensures var r := Resolve(files, dir, bytes, kind, readOk).files; path in r && r[path] == files[path]
    ensures kind == FILE_KIND && Resolve(files, dir, bytes, kind, readOk).payload.Some? ==>
      Decode(bytes).Some? && dir + [SLASH] <= Decode(bytes).value.path && !HasDotDot(Decode(bytes).value.path)
  {
  }

  // --- The directory, updated in place -------------------------------------------------------------

  class PayloadDirectory {
    const dir: Path
    var files: Files

    constructor (root: Path, existing: Files)
      ensures dir == root && files == existing
    {
      dir := root;
      files := existing;
    }

    method WriteFilePayload(payload: seq<Byte>, io: WriteIo) returns (ref: Option<FileRef>)
      modifies this
      ensures Written(files, ref) == Write(old(files), dir, payload, io)
    {
      if |payload| > MAX_FILE_PAYLOAD_BYTES || !io.dirOk {
        return None;
      }
      var path := PathFor(dir, io.name);
      if !io.openOk || path in files || |path| >= PATH_MAX {
        return None;
      }
      files := files[path := if io.writeOk then payload else []];
      if !io.writeOk {
        files := files - {path};
        return None;
      }
      ref := Some(FileRef(path, |payload|));
    }

    method RemoveFilePayload(ref: FileRef) returns (ok: bool)
      modifies this
      ensures files == Unlinked(old(files), dir, ref)
      ensures ok == Acceptable(dir, ref)
      ensures ok ==> ref.path !in files
    {
      if ref.path == [] || ref.size > MAX_FILE_PAYLOAD_BYTES || !InsideRoot(dir, ref.path) {
        return false;
      }
      files := files - {ref.path};
      ok := true;
    }

    method ReadAndRemoveFilePayload(ref: FileRef, readOk: bool) returns (payload: Option<seq<Byte>>)
      modifies this
      ensures Fetched(files, payload) == ReadAndRemove(old(files), dir, ref, readOk)
    {
      if ref.path == [] || ref.size > MAX_FILE_PAYLOAD_BYTES || !InsideRoot(dir, ref.path) {
        return None;
      }
      if ref.path !in files {
        var _ := RemoveFilePayload(ref);
        return None;
      }
      var data := files[ref.path];
      var ok := readOk && |data| <= MAX_FILE_PAYLOAD_BYTES;
      var _ := RemoveFilePayload(ref);
      payload := if ok && |data| == ref.size then Some(data) else None;
    }

    method PrepareForTransport(payload: seq<Byte>, limit: nat, io: WriteIo)
      returns (ok: bool, bytes: seq<Byte>, kind: Byte)
      modifies this
      ensures Prepared(files, ok, bytes, kind) == Prepare(old(files), dir, payload, limit, io)
    {
      bytes, kind := [], INLINE_KIND;
      if |payload| <= limit {
        return true, payload, INLINE_KIND;
      }
      var ref := WriteFilePayload(payload, io);
      if ref.None? {
        return false, [], INLINE_KIND;
      }
      var envelope := EncodeFilePayloadEnvelope(ref.value);
      if |envelope| > limit {
        var _ := RemoveFilePayload(ref.value);
        return false, [], INLINE_KIND;
      }
      return true, envelope, FILE_KIND;
    }

    method RemoveFromTransport(bytes: seq<Byte>, kind: Byte) returns (ok: bool)
      modifies this
      ensures files == RemovedFromTransport(old(files), dir, bytes, kind)
      ensures ok && kind == FILE_KIND ==> Decode(bytes).Some? && Decode(bytes).value.path !in files
    {
      if kind == INLINE_KIND {
        return true;
      }
      if kind != FILE_KIND {
        return false;
      }
      var ref := DecodeFilePayloadEnvelope(bytes);
      if ref.None? {
        return false;
      }
      ok := RemoveFilePayload(ref.value);
    }

    method ResolveFromTransport(bytes: seq<Byte>, kind: Byte, readOk: bool) returns (payload: Option<seq<Byte>>)
      modifies this
      ensures Fetched(files, payload) == Resolve(old(files), dir, bytes, kind, readOk)
    {
      if kind == INLINE_KIND {
        return Some(bytes);
      }
      if kind != FILE_KIND {
        return None;
      }
      var ref := DecodeFilePayloadEnvelope(bytes);
      if ref.None? {
        return None;
      }
      payload := ReadAndRemoveFilePayload(ref.value, readOk);
    }
  }
}
