/**
 * The accounting of one streaming upload (`DraftEntry` in
 * `src/captures/captureStore.ts`): a file map, a byte total and a file count,
 * kept in step with files that arrive chunk by chunk and are promoted by rename.
 * Writes to a draft run one at a time, in the order they were queued.
 */
module DraftAccounting {
  import opened DraftPaths
  import opened Wrappers

  type Byte = x: int | 0 <= x < 256
  datatype Meta = Meta(bytes: nat, mimeType: Option<string>)

  const MAX_CAPTURE_BYTES: nat := 5 * 1024 * 1024 * 1024
  const MAX_CAPTURE_FILES: nat := 5000

  datatype Upload = Upload(raw: string, chunks: seq<seq<Byte>>, mimeType: Option<string>, maxBytes: nat)

  /** What the upload is listed under. */
  function Key(u: Upload): Option<Path> { SafeRelative(u.raw) }

  datatype Outcome = Stored | InvalidPath | TooManyFiles | RequestTooLarge | CaptureTooLarge | EmptyFile | Fault

  // ----- Totals -----

  ghost function Total(files: map<Path, Meta>): nat {
    if files == map[] then 0
    else
      var p :| p in files;
      files[p].bytes + Total(files - {p})
  }

  lemma {:induction false} TotalSplit(files: map<Path, Meta>, p: Path)
    requires p in files
    ensures Total(files) == files[p].bytes + Total(files - {p})
    decreases |files|
  {
    var q :| q in files && Total(files) == files[q].bytes + Total(files - {q});
    if q != p {
      TotalSplit(files - {q}, p);
      TotalSplit(files - {p}, q);
      assert files - {q} - {p} == files - {p} - {q};
    }
  }

  lemma TotalPut(files: map<Path, Meta>, p: Path, m: Meta)
    ensures Total(files[p := m]) == Total(files) - (if p in files then files[p].bytes else 0) + m.bytes
  {
    TotalSplit(files[p := m], p);
    if p in files {
      TotalSplit(files, p);
      assert files[p := m] - {p} == files - {p};
    } else {
      assert files[p := m] - {p} == files;
    }
  }

  function Flatten(chunks: seq<seq<Byte>>): seq<Byte> {
    if chunks == [] then [] else Flatten(chunks[..|chunks| - 1]) + chunks[|chunks| - 1]
  }

  function Existing(files: map<Path, Meta>, p: Path): nat {
    if p in files then files[p].bytes else 0
  }

  // ----- What one write decides -----

  /** The verdict on the bytes so far, chunk by chunk as they arrive: the first ceiling crossed wins. */
  function Judge(size: int, chunks: seq<seq<Byte>>, maxBytes: nat): Outcome {
    if chunks == [] then Stored
    else
      var before := Judge(size, chunks[..|chunks| - 1], maxBytes);
      if before != Stored then before
      else if |Flatten(chunks)| > maxBytes then RequestTooLarge
      else if size + |Flatten(chunks)| > MAX_CAPTURE_BYTES then CaptureTooLarge
      else Stored
  }

  function Verdict(files: map<Path, Meta>, size: int, u: Upload): Outcome {
    if Key(u).None? then InvalidPath
    else if Key(u).value !in files && |files| >= MAX_CAPTURE_FILES then TooManyFiles
    else
      var verdict := Judge(size - Existing(files, Key(u).value), u.chunks, u.maxBytes);
      if verdict != Stored then verdict
      else if Flatten(u.chunks) == [] then EmptyFile
      else if NamesDirectory(Key(u).value.text) then Fault
      else Stored
  }

  function Put(files: map<Path, Meta>, u: Upload): map<Path, Meta>
    requires Key(u).Some?
  {
    files[Key(u).value := Meta(|Flatten(u.chunks)|, u.mimeType)]
  }

  /** The file map after queued uploads with these outcomes. */
  function Replay(files: map<Path, Meta>, uploads: seq<Upload>, outcomes: seq<Outcome>): map<Path, Meta>
    requires |uploads| == |outcomes|
    requires forall i :: 0 <= i < |uploads| && outcomes[i] == Stored ==> Key(uploads[i]).Some?
  {
    if uploads == [] then files
    else
      var n := |uploads| - 1;
      var before := Replay(files, uploads[..n], outcomes[..n]);
      if outcomes[n] == Stored then Put(before, uploads[n]) else before
  }

  /** `i` is the last upload stored at `p`. */
  predicate LastStored(uploads: seq<Upload>, outcomes: seq<Outcome>, p: Path, i: nat)
    requires |uploads| == |outcomes|
  {
    && i < |uploads| && outcomes[i] == Stored && Key(uploads[i]) == Some(p)
    && NoneStored(uploads, outcomes, p, i + 1)
  }

  predicate NoneStored(uploads: seq<Upload>, outcomes: seq<Outcome>, p: Path, from: nat)
    requires |uploads| == |outcomes|
  {
    forall k :: from <= k < |uploads| && outcomes[k] == Stored ==> Key(uploads[k]) != Some(p)
  }

  /** Each path holds its last successful write. */
  lemma {:induction false} LastWriteWins(files: map<Path, Meta>, uploads: seq<Upload>, outcomes: seq<Outcome>, p: Path,
    i: nat)
    requires |uploads| == |outcomes|
    requires forall k :: 0 <= k < |uploads| && outcomes[k] == Stored ==> Key(uploads[k]).Some?
    requires LastStored(uploads, outcomes, p, i)
    ensures p in Replay(files, uploads, outcomes)
    ensures Replay(files, uploads, outcomes)[p] == Meta(|Flatten(uploads[i].chunks)|, uploads[i].mimeType)
    decreases |uploads|
  {
    var n := |uploads| - 1;
    if i < n { LastWriteWins(files, uploads[..n], outcomes[..n], p, i); }
  }

  /** A path no upload was stored at keeps what it had. */
  lemma {:induction false} OthersUntouched(files: map<Path, Meta>, uploads: seq<Upload>, outcomes: seq<Outcome>,
    p: Path)
    requires |uploads| == |outcomes|
    requires forall k :: 0 <= k < |uploads| && outcomes[k] == Stored ==> Key(uploads[k]).Some?
    requires NoneStored(uploads, outcomes, p, 0)
    ensures p in Replay(files, uploads, outcomes) <==> p in files
    ensures p in files ==> Replay(files, uploads, outcomes)[p] == files[p]
    decreases |uploads|
  {
    if uploads != [] {
      var n := |uploads| - 1;
      OthersUntouched(files, uploads[..n], outcomes[..n], p);
    }
  }

  /** The chunk-by-chunk ceilings admit an upload exactly when its whole body fits both. */
  lemma {:induction false} JudgeIff(size: int, chunks: seq<seq<Byte>>, maxBytes: nat)
    requires size <= MAX_CAPTURE_BYTES
    ensures Judge(size, chunks, maxBytes) in {Stored, RequestTooLarge, CaptureTooLarge}
    ensures Judge(size, chunks, maxBytes) == Stored <==>
            |Flatten(chunks)| <= maxBytes && size + |Flatten(chunks)| <= MAX_CAPTURE_BYTES
    decreases |chunks|
  {
    if chunks != [] {
      JudgeIff(size, chunks[..|chunks| - 1], maxBytes);
    }
  }

  // ----- The draft -----

  /** The receiving loop: chunks go to a temporary file until a ceiling or a fault stops it. */
  method Receive(size: int, chunks: seq<seq<Byte>>, maxBytes: nat) returns (r: Outcome, temporary: seq<Byte>)
    ensures r == Fault || r == Judge(size, chunks, maxBytes)
    ensures r == Stored ==> temporary == Flatten(chunks)
  {
    temporary := [];
    var i := 0;
    while i < |chunks|
      invariant 0 <= i <= |chunks| && temporary == Flatten(chunks[..i])
      invariant Judge(size, chunks[..i], maxBytes) == Stored
    {
      var fails: bool := *;
      if fails { return Fault, temporary; }
      assert chunks[..i + 1][..i] == chunks[..i];
      temporary := temporary + chunks[i];
      i := i + 1;
      if |temporary| > maxBytes {
        JudgeRejects(size, chunks, maxBytes, i);
        return RequestTooLarge, temporary;
      }
      if size + |temporary| > MAX_CAPTURE_BYTES {
        JudgeRejects(size, chunks, maxBytes, i);
        return CaptureTooLarge, temporary;
      }
    }
    assert chunks[..i] == chunks;
    r := Stored;
  }

  type Disk = map<Target, seq<Byte>>

  predicate Gone(disk: Disk, p: Path) { Place(p) !in disk || disk[Place(p)] == [] }

  /** Nothing but the draft's marker differs. */
  predicate SameButMarker(before: Disk, after: Disk) { before - {MARKER} == after - {MARKER} }

  lemma MarkerThenFile(before: Disk, after: Disk, t: Target, bytes: seq<Byte>)
    requires SameButMarker(before, after)
    ensures SameButMarker(before[t := bytes], after[t := bytes])
  {
    forall x | x != MARKER ensures x in before <==> x in after {
      assert x in before - {MARKER} <==> x in after - {MARKER};
    }
    forall x | x != MARKER && x in before ensures before[x] == after[x] {
      assert (before - {MARKER})[x] == (after - {MARKER})[x];
    }
  }

  class DraftEntry {
    var files: map<Path, Meta>
    var sizeBytes: int
    var fileCount: nat
    var disk: Disk

    ghost predicate Valid()
      reads this
    {
      && sizeBytes == Total(files) <= MAX_CAPTURE_BYTES
      && fileCount == |files| <= MAX_CAPTURE_FILES
      && forall p :: p in files ==> files[p].bytes > 0
    }

    constructor ()
      ensures Valid() && files == map[] && disk == map[]
    {
      files, sizeBytes, fileCount, disk := map[], 0, 0, map[];
    }

    /** `touchDraftMarker`, which never fails its caller. */
    method TouchMarker()
      modifies this`disk
      ensures SameButMarker(old(disk), disk)
    {
      var text: seq<Byte> := *;
      var written: bool := *;
      if written { disk := disk[MARKER := text]; }
    }

    /**
     * `writeDraftFileStreamExclusive`. The file system or the source may fail at any
     * point (`Fault`); otherwise the outcome is the verdict. A write that is stored is
     * listed under its text and lies at its place; the marker is refreshed after that,
     * also over a file sent under the marker's own name. A write that is not stored
     * leaves the draft and its files as they were, but for the marker.
     */
    method Write(u: Upload) returns (r: Outcome)
      requires Valid()
      modifies this
      ensures Valid()
      ensures r == Fault || r == Verdict(old(files), old(sizeBytes), u)
      ensures r == Stored ==> Key(u).Some? && files == Put(old(files), u)
      ensures r == Stored ==> SameButMarker(old(disk)[Place(Key(u).value) := Flatten(u.chunks)], disk)
      ensures r != Stored ==> files == old(files) && sizeBytes == old(sizeBytes) && fileCount == old(fileCount)
      ensures r != Stored ==> SameButMarker(old(disk), disk)
    {
      if Key(u).None? { return InvalidPath; }
      var target := Key(u).value;
      if target !in files && |files| >= MAX_CAPTURE_FILES { return TooManyFiles; }
      var existing := Existing(files, target);
      if target in files { TotalSplit(files, target); }
      var temporary;
      r, temporary := Receive(sizeBytes - existing, u.chunks, u.maxBytes);
      TouchMarker();
      if r != Stored { return; }
      if temporary == [] { return EmptyFile; }
      var renameFails: bool := *;
      if renameFails || NamesDirectory(target.text) { return Fault; }
      JudgeIff(sizeBytes - existing, u.chunks, u.maxBytes);
      MarkerThenFile(old(disk), disk, Place(target), temporary);
      Account(target, existing, temporary, u.mimeType);
      TouchMarker();
    }

    /** The accounting of a file just renamed into place. */
    method Account(target: Path, existing: nat, bytes: seq<Byte>, mimeType: Option<string>)
      requires Valid() && bytes != [] && existing == Existing(files, target)
      requires target in files || |files| < MAX_CAPTURE_FILES
      requires sizeBytes - existing + |bytes| <= MAX_CAPTURE_BYTES
      modifies this
      ensures Valid() && files == old(files)[target := Meta(|bytes|, mimeType)]
      ensures disk == old(disk)[Place(target) := bytes]
    {
      TotalPut(files, target, Meta(|bytes|, mimeType));
      disk := disk[Place(target) := bytes];
      files := files[target := Meta(|bytes|, mimeType)];
      sizeBytes := sizeBytes - existing + |bytes|;
      fileCount := |files|;
      assert files.Keys == old(files).Keys + {target};
    }

    /** Uploads queued on the draft's lock, in order. */
    method Drain(uploads: seq<Upload>) returns (outcomes: seq<Outcome>)
      requires Valid()
      modifies this
      ensures Valid()
      ensures |outcomes| == |uploads|
      ensures forall i :: 0 <= i < |uploads| && outcomes[i] == Stored ==> Key(uploads[i]).Some?
      ensures files == Replay(old(files), uploads, outcomes)
    {
      outcomes := [];
      for i := 0 to |uploads|
        invariant Valid()
        invariant |outcomes| == i
        invariant forall k :: 0 <= k < i && outcomes[k] == Stored ==> Key(uploads[k]).Some?
        invariant files == Replay(old(files), uploads[..i], outcomes)
      {
        var r := Write(uploads[i]);
        assert uploads[..i + 1][..i] == uploads[..i];
        assert (outcomes + [r])[..i] == outcomes;
        outcomes := outcomes + [r];
      }
      assert uploads[..|uploads|] == uploads;
    }

    /** Files an outside hand removed from the directory. */
    method LoseFiles(lost: set<Target>)
      requires Valid()
      modifies this`disk
      ensures Valid() && disk == old(disk) - lost
    {
      disk := disk - lost;
    }

    /** `reconcile`: exactly the entries whose file is gone or empty leave the accounting. */
    method Reconcile() returns (lost: set<Path>)
      requires Valid()
      modifies this`files, this`sizeBytes, this`fileCount
      ensures Valid()
      ensures forall p :: p in lost <==> p in old(files) && Gone(disk, p)
      ensures files == old(files) - lost
    {
      lost := DropGone();
      if lost != {} {
        fileCount := |files|;
        sizeBytes := if sizeBytes < 0 then 0 else sizeBytes;
      } else {
        assert files == old(files);
      }
    }

    method DropGone() returns (lost: set<Path>)
      requires sizeBytes == Total(files)
      modifies this`files, this`sizeBytes
      ensures forall p :: p in lost <==> p in old(files) && Gone(disk, p)
      ensures files == old(files) - lost
      ensures sizeBytes == Total(files) <= old(sizeBytes) && |files| <= old(|files|)
    {
      ghost var before := files;
      lost := {};
      var todo := files.Keys;
      while todo != {}
        invariant todo <= files.Keys && lost <= before.Keys
        invariant files == before - lost
        invariant sizeBytes == Total(files) <= old(sizeBytes) && |files| <= old(|files|)
        invariant forall p :: p in before && p !in todo ==> (p in lost <==> Gone(disk, p))
        decreases |todo|
      {
        var p :| p in todo;
        todo := todo - {p};
        if Gone(disk, p) {
          Drop(p);
          lost := lost + {p};
          assert before - lost == files;
        }
      }
    }

    method Drop(p: Path)
      requires p in files && sizeBytes == Total(files)
      modifies this`files, this`sizeBytes
      ensures files == old(files) - {p} && sizeBytes == Total(files) <= old(sizeBytes) && |files| <= old(|files|)
    {
      TotalSplit(files, p);
      sizeBytes := sizeBytes - files[p].bytes;
      files := files - {p};
    }
  }

  lemma {:induction false} JudgeRejects(size: int, chunks: seq<seq<Byte>>, maxBytes: nat, n: nat)
    requires n <= |chunks| && Judge(size, chunks[..n], maxBytes) != Stored
    ensures Judge(size, chunks, maxBytes) == Judge(size, chunks[..n], maxBytes)
    decreases |chunks|
  {
    if n == |chunks| {
      assert chunks[..n] == chunks;
    } else {
      assert chunks[..|chunks| - 1][..n] == chunks[..n];
      JudgeRejects(size, chunks[..|chunks| - 1], maxBytes, n);
    }
  }

  /**
   * Why `reconcile` has to be one step: dropping an entry by a total read earlier
   * keeps the byte total right if and only if the entry still stands as it was read.
   */
  lemma StaleDropIff(files: map<Path, Meta>, p: Path, read: Meta)
    requires read.bytes > 0
    ensures Total(files - {p}) == Total(files) - read.bytes <==> p in files && files[p].bytes == read.bytes
  {
    if p in files {
      TotalSplit(files, p);
    } else {
      assert files - {p} == files;
    }
  }
}
