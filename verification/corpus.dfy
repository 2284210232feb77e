/** The document corpus of the question-answering service (backend-rag-final/api2.py,
    `PDFRAGService`): the two watched directories, the per-file metadata cache, the chunking
    parameters and `_files_changed`, the fingerprint comparison that decides whether the
    cached index still describes the directories. Modification times are whole milliseconds. */
module Corpus {
  import opened Common
  import opened Text

  datatype SourceType = Pdf | Excel

  /** What `os.stat` reports for a file. */
  datatype Stat = Stat(mtime: int, size: nat)

  /** A watched directory: missing, present but not listable, or listed. A listed name that
      is absent from `stats` is one whose `getmtime`/`getsize` raises. */
  datatype Dir = Absent | Unlistable | Listed(names: seq<string>, stats: map<string, Stat>)

  datatype Disk = Disk(pdfDir: Dir, excelDir: Dir)

  /** One entry of `pdf_metadata` / `excel_metadata`, keyed by file name; its path is the
      key joined to the directory of its kind. `None` is a key the entry lacks. */
  datatype CacheEntry = CacheEntry(chunkCount: Option<nat>, lastModified: Option<int>, fileSize: Option<int>)

  datatype Meta = Meta(pdf: map<string, CacheEntry>, excel: map<string, CacheEntry>)

  const EmptyMeta := Meta(map[], map[])

  /** The 1.0-second modification-time tolerance. */
  const ToleranceMs: nat := 1000

  datatype ChunkParams = ChunkParams(size: nat, overlap: nat)

  /** `_get_text_chunks`: Excel text is cut finer, with less overlap, than everything else. */
  function ChunkParamsFor(sourceType: string): (p: ChunkParams)
    ensures sourceType == "excel" ==> p == ChunkParams(8000, 500)
    ensures sourceType != "excel" ==> p == ChunkParams(10000, 1000)
  {
    if sourceType == "excel" then ChunkParams(8000, 500) else ChunkParams(10000, 1000)
  }

  function TypeName(t: SourceType): string
  {
    match t
    case Pdf => "pdf"
    case Excel => "excel"
  }

  predicate IsPdfName(name: string)
  {
    EndsWithIgnoreCase(name, ".pdf")
  }

  predicate IsExcelName(name: string)
  {
    EndsWithIgnoreCase(name, ".xlsx") || EndsWithIgnoreCase(name, ".xls")
  }

  /** The directory listings are filtered by extension, case-insensitively. */
  predicate Eligible(t: SourceType, name: string)
  {
    match t
    case Pdf => IsPdfName(name)
    case Excel => IsExcelName(name)
  }

  /** No file name is both a PDF and a workbook, so the two kinds never share a cache key. */
  lemma KindsDisjoint(name: string)
    ensures !(IsPdfName(name) && IsExcelName(name))
  {
    var l := Lower(name);
    if IsPdfName(name) {
      assert l[|l| - 1] == "pdf"[2];
    }
  }

  /** `os.path.exists` on a file of the directory: it exists when it can be stat'ed. */
  predicate Exists(d: Dir, name: string)
  {
    d.Listed? && name in d.stats
  }

  /** The directory can be listed and every eligible file in it can be stat'ed. */
  predicate Readable(d: Dir, t: SourceType)
  {
    && !d.Unlistable?
    && (d.Listed? ==> forall n :: n in d.names && Eligible(t, n) ==> n in d.stats)
  }

  /** The fingerprints of the eligible files among `names`, as the listing loop records them. */
  function SnapshotOf(names: seq<string>, stats: map<string, Stat>, t: SourceType): (r: map<string, Stat>)
    requires forall n :: n in names && Eligible(t, n) ==> n in stats
    ensures forall n :: n in r <==> n in names && Eligible(t, n)
    ensures forall n :: n in r ==> r[n] == stats[n]
  {
    if names == [] then map[]
    else
      var last := names[|names| - 1];
      var before := SnapshotOf(names[..|names| - 1], stats, t);
      if Eligible(t, last) then before[last := stats[last]] else before
  }

  /** The `current_files` entries one readable directory contributes. */
  function Snapshot(d: Dir, t: SourceType): map<string, Stat>
    requires Readable(d, t)
  {
    if d.Listed? then SnapshotOf(d.names, d.stats, t) else map[]
  }

  function Current(disk: Disk): map<string, Stat>
    requires Readable(disk.pdfDir, Pdf) && Readable(disk.excelDir, Excel)
  {
    Snapshot(disk.pdfDir, Pdf) + Snapshot(disk.excelDir, Excel)
  }

  /** `self.pdf_metadata.get(file, self.excel_metadata.get(file))` */
  function Lookup(meta: Meta, name: string): Option<CacheEntry>
  {
    if name in meta.pdf then Some(meta.pdf[name])
    else if name in meta.excel then Some(meta.excel[name])
    else None
  }

  function Abs(x: int): nat
  {
    if x < 0 then -x else x
  }

  /** The cached fingerprint matches the file: the times differ by at most the tolerance and
      the sizes agree, a missing field counting as 0. */
  predicate WithinTolerance(st: Stat, e: CacheEntry)
  {
    Abs(st.mtime - e.lastModified.UnwrapOr(0)) <= ToleranceMs && st.size == e.fileSize.UnwrapOr(0)
  }

  predicate Fresh(st: Stat, cached: Option<CacheEntry>)
  {
    cached.Some? && WithinTolerance(st, cached.value)
  }

  /** Reference: the cache still describes the directories. Both can be read, every current
      file has a matching fingerprint, and the cached names are exactly the current ones. */
  predicate Unchanged(disk: Disk, meta: Meta)
  {
    && Readable(disk.pdfDir, Pdf) && Readable(disk.excelDir, Excel)
    && (forall n :: n in Current(disk) ==> Fresh(Current(disk)[n], Lookup(meta, n)))
    && meta.pdf.Keys + meta.excel.Keys == Current(disk).Keys
  }

  /** The listing loop of one directory: records the fingerprint of every eligible file, and
      gives up as soon as one cannot be stat'ed. */
  method Collect(d: Dir, t: SourceType) returns (ok: bool, r: map<string, Stat>)
    ensures ok <==> Readable(d, t)
    ensures ok ==> r == Snapshot(d, t)
  {
    match d
    case Absent =>
      return true, map[];
    case Unlistable =>
      return false, map[];
    case Listed(names, stats) =>
      ok, r := CollectListed(names, stats, t);
  }

  method CollectListed(names: seq<string>, stats: map<string, Stat>, t: SourceType) returns (ok: bool, r: map<string, Stat>)
    ensures ok <==> forall n :: n in names && Eligible(t, n) ==> n in stats
    ensures ok ==> r == SnapshotOf(names, stats, t)
  {
    r := map[];
    var i := 0;
    while i < |names|
      invariant 0 <= i <= |names|
      invariant forall n :: n in names[..i] && Eligible(t, n) ==> n in stats
      invariant r == SnapshotOf(names[..i], stats, t)
    {
      var name := names[i];
      assert names[..i + 1] == names[..i] + [name];
      if Eligible(t, name) {
        if name !in stats {
          assert name in names;
          return false, r;
        }
        r := r[name := stats[name]];
      }
      i := i + 1;
    }
    assert names[..i] == names;
    return true, r;
  }

  /** `_files_changed`: the PDF directory, then the workbook directory, then every current
      file against its cached fingerprint, then the two name sets. */
  method FilesChanged(disk: Disk, meta: Meta) returns (changed: bool)
    ensures changed <==> !Unchanged(disk, meta)
  {
    var ok, pdfFiles := Collect(disk.pdfDir, Pdf);
    if !ok {
      return true;
    }
    var excelFiles;
    ok, excelFiles := Collect(disk.excelDir, Excel);
    if !ok {
      return true;
    }
    var current := pdfFiles + excelFiles;
    var pending := current.Keys;
    while pending != {}
      invariant pending <= current.Keys
      invariant forall n :: n in current && n !in pending ==> Fresh(current[n], Lookup(meta, n))
      decreases pending
    {
      var n :| n in pending;
      if !Fresh(current[n], Lookup(meta, n)) {
        return true;
      }
      pending := pending - {n};
    }
    changed := meta.pdf.Keys + meta.excel.Keys != current.Keys;
  }

  /** A current file without a cache entry is a change, whichever directory it is in. */
  lemma NewFileIsChange(disk: Disk, meta: Meta, name: string)
    requires Readable(disk.pdfDir, Pdf) && Readable(disk.excelDir, Excel)
    requires name in Current(disk) && Lookup(meta, name).None?
    ensures !Unchanged(disk, meta)
  {
  }

  /** A cached name whose file is gone is a change. */
  lemma DeletedFileIsChange(disk: Disk, meta: Meta, name: string)
    requires Readable(disk.pdfDir, Pdf) && Readable(disk.excelDir, Excel)
    requires (name in meta.pdf || name in meta.excel) && name !in Current(disk)
    ensures !Unchanged(disk, meta)
  {
    assert name in meta.pdf.Keys + meta.excel.Keys;
  }

  /** An eligible file that cannot be stat'ed is a change even when the cache lists it. */
  lemma InaccessibleFileIsChange(disk: Disk, meta: Meta, name: string)
    requires disk.pdfDir.Listed? && name in disk.pdfDir.names && IsPdfName(name) && name !in disk.pdfDir.stats
    ensures !Unchanged(disk, meta)
  {
  }

  /** The time tolerance is inclusive: a drift of exactly one second is no change, one more
      millisecond is. */
  lemma ToleranceIsInclusive(st: Stat, e: CacheEntry)
    requires st.size == e.fileSize.UnwrapOr(0)
    ensures WithinTolerance(st, e.(lastModified := Some(st.mtime + 1000)))
    ensures WithinTolerance(st, e.(lastModified := Some(st.mtime - 1000)))
    ensures !WithinTolerance(st, e.(lastModified := Some(st.mtime + 1001)))
  {
  }

  /** An entry without `last_modified` / `file_size` only matches a file modified within the
      first second of the epoch and empty. */
  lemma MissingFingerprintIsZero(st: Stat, e: CacheEntry)
    requires e.lastModified.None? && e.fileSize.None?
    ensures WithinTolerance(st, e) <==> Abs(st.mtime) <= 1000 && st.size == 0
  {
  }
}
