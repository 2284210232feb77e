/** Rebuilding and reusing the corpus index (backend-rag-final/api2.py, `PDFRAGService`):
    `_load_and_process_files`, `_save_metadata`, `_validate_vector_store` and
    `_load_or_create_vector_store`. The index is abstract: its chunk texts and their
    metadata. Text extraction, splitting and the embedding store are given as inputs. */
module Rebuild {
  import opened Common
  import opened Text
  import opened Corpus

  /** The metadata stored with each chunk of the index. */
  datatype ChunkMeta = ChunkMeta(source: string, sourceType: SourceType, chunkId: nat, preview: string)

  datatype Index = Index(chunks: seq<string>, metadatas: seq<ChunkMeta>)

  /** The extraction and splitting the rebuild relies on. `pdfText` is `_extract_pdf_text`,
      which yields "" on any failure; `workbook` is `_extract_excel_text`, `None` when the
      workbook cannot be opened and otherwise the text of its sheets (it has then written a
      fresh cache entry); `split` is the text splitter. */
  datatype Extractor = Extractor(
    pdfText: string -> string,
    workbook: string -> Option<string>,
    split: (string, ChunkParams) -> seq<string>)

  datatype RebuildError =
    | ListingFailed   // a directory cannot be listed
    | NoValidContent  // `ValueError("No valid content found")`
    | StoreFailed     // building or saving the embedding store raised

  /** The `text_preview` of a chunk: its first 100 characters, marked when cut. */
  function Preview(chunk: string): string
  {
    Truncate(chunk, 100, "...")
  }

  /** The metadata of one file's chunks, numbered from 0. */
  function ChunkMetas(source: string, t: SourceType, chunks: seq<string>): seq<ChunkMeta>
  {
    seq(|chunks|, i requires 0 <= i < |chunks| => ChunkMeta(source, t, i, Preview(chunks[i])))
  }

  /** The eligible names of a listing, in listing order. */
  function Eligibles(names: seq<string>, t: SourceType): (r: seq<string>)
    ensures forall n :: n in r <==> n in names && Eligible(t, n)
  {
    if names == [] then []
    else (if Eligible(t, names[0]) then [names[0]] else []) + Eligibles(names[1..], t)
  }

  /** What the two per-file loops thread: `all_chunks`, `chunk_metadata` and the cache. */
  datatype Acc = Acc(chunks: seq<string>, metas: seq<ChunkMeta>, meta: Meta)

  /** One iteration of the PDF loop. The chunks are added before the file is stat'ed, so a
      file that cannot be stat'ed leaves chunks without metadata and no cache entry. */
  function ProcessPdf(acc: Acc, name: string, stats: map<string, Stat>, ex: Extractor): Acc
  {
    var text := ex.pdfText(name);
    if text == "" then acc
    else
      var chunks := ex.split(text, ChunkParamsFor("pdf"));
      if name !in stats then acc.(chunks := acc.chunks + chunks)
      else
        var entry := CacheEntry(Some(|chunks|), Some(stats[name].mtime), Some(stats[name].size));
        Acc(acc.chunks + chunks, acc.metas + ChunkMetas(name, Pdf, chunks),
            acc.meta.(pdf := acc.meta.pdf[name := entry]))
  }

  /** One iteration of the workbook loop. Extraction replaces the cache entry before the
      text is checked, so an empty workbook keeps an entry without a fingerprint. */
  function ProcessExcel(acc: Acc, name: string, stats: map<string, Stat>, ex: Extractor): Acc
  {
    match ex.workbook(name)
    case None => acc
    case Some(text) =>
      if text == "" then acc.(meta := acc.meta.(excel := acc.meta.excel[name := CacheEntry(None, None, None)]))
      else
        var chunks := ex.split(text, ChunkParamsFor("excel"));
        if name !in stats then
          Acc(acc.chunks + chunks, acc.metas,
              acc.meta.(excel := acc.meta.excel[name := CacheEntry(Some(|chunks|), None, None)]))
        else
          var entry := CacheEntry(Some(|chunks|), Some(stats[name].mtime), Some(stats[name].size));
          Acc(acc.chunks + chunks, acc.metas + ChunkMetas(name, Excel, chunks),
              acc.meta.(excel := acc.meta.excel[name := entry]))
  }

  function ProcessPdfs(acc: Acc, names: seq<string>, stats: map<string, Stat>, ex: Extractor): Acc
    decreases |names|
  {
    if names == [] then acc else ProcessPdfs(ProcessPdf(acc, names[0], stats, ex), names[1..], stats, ex)
  }

  function ProcessExcels(acc: Acc, names: seq<string>, stats: map<string, Stat>, ex: Extractor): Acc
    decreases |names|
  {
    if names == [] then acc else ProcessExcels(ProcessExcel(acc, names[0], stats, ex), names[1..], stats, ex)
  }

  /** A directory after `os.makedirs` and `os.listdir`: a missing one is created empty, an
      unlistable one raises. */
  function Listing(d: Dir): Option<(seq<string>, map<string, Stat>)>
  {
    match d
    case Absent => Some(([], map[]))
    case Unlistable => None
    case Listed(names, stats) => Some((names, stats))
  }

  /** `_save_metadata` on one of the two caches: drops the entries whose file is gone and
      refreshes the fingerprint of the others from the disk. */
  function Refresh(entries: map<string, CacheEntry>, d: Dir): (r: map<string, CacheEntry>)
    ensures forall n :: n in r <==> n in entries && Exists(d, n)
    ensures forall n :: n in r ==> Exists(d, n) && r[n].chunkCount == entries[n].chunkCount && WithinTolerance(d.stats[n], r[n])
  {
    map n | n in entries && Exists(d, n) ::
      entries[n].(lastModified := Some(d.stats[n].mtime), fileSize := Some(d.stats[n].size))
  }

  function SaveMetadata(disk: Disk, meta: Meta): Meta
  {
    Meta(Refresh(meta.pdf, disk.pdfDir), Refresh(meta.excel, disk.excelDir))
  }

  /** Saving twice saves the same thing as saving once. */
  lemma SaveMetadataIdempotent(disk: Disk, meta: Meta)
    ensures SaveMetadata(disk, SaveMetadata(disk, meta)) == SaveMetadata(disk, meta)
  {
  }

  /** The outcome of `_load_and_process_files`: the cache as it stands afterwards (also when
      it raised: the service object keeps it) and either the new index (`None` when there was
      nothing to index) or the error it raised. */
  datatype Outcome = Outcome(meta: Meta, result: Result<Option<Index>, RebuildError>)

  /** `_load_and_process_files`; `storeOk` says whether the embedding store could be built and
      saved. Building the store from chunk texts and metadata records of unequal number raises
      too, as the embedding store checks that the two lists have the same length. */
  function LoadAndProcessFiles(disk: Disk, ex: Extractor, meta: Meta, storeOk: bool): (o: Outcome)
    ensures o.result == Err(ListingFailed) <==> disk.pdfDir.Unlistable? || disk.excelDir.Unlistable?
    ensures o.result == Ok(None) <==>
              && !disk.pdfDir.Unlistable? && !disk.excelDir.Unlistable?
              && EligibleFiles(disk.pdfDir, Pdf) == [] && EligibleFiles(disk.excelDir, Excel) == []
    ensures o.result == Ok(None) ==> o.meta == meta
    ensures o.result.Ok? && o.result.value.Some? ==>
              storeOk && o.result.value.value.chunks != [] && |o.result.value.value.chunks| == |o.result.value.value.metadatas|
  {
    match (Listing(disk.pdfDir), Listing(disk.excelDir))
    case (None, _) => Outcome(meta, Err(ListingFailed))
    case (_, None) => Outcome(meta, Err(ListingFailed))
    case (Some((pdfNames, pdfStats)), Some((excelNames, excelStats))) =>
      var pdfs := Eligibles(pdfNames, Pdf);
      var excels := Eligibles(excelNames, Excel);
      if pdfs == [] && excels == [] then Outcome(meta, Ok(None))
      else
        var acc := ProcessExcels(ProcessPdfs(Acc([], [], meta), pdfs, pdfStats, ex), excels, excelStats, ex);
        if acc.chunks == [] then Outcome(acc.meta, Err(NoValidContent))
        else if !storeOk || |acc.chunks| != |acc.metas| then Outcome(acc.meta, Err(StoreFailed))
        else Outcome(SaveMetadata(disk, acc.meta), Ok(Some(Index(acc.chunks, acc.metas))))
  }

  /** The cached index on disk: missing, failing to load, or loaded, with the outcome of the
      test query `_validate_vector_store` runs on it. */
  datatype StoredIndex = NoIndexFile | IndexUnloadable | IndexLoaded(index: Index, probeOk: bool)

  /** The cached metadata file: missing, unreadable, or parsed. */
  datatype MetaFile = NoMetaFile | MetaUnreadable | MetaParsed(meta: Meta)

  datatype Artifacts = Artifacts(index: StoredIndex, metaFile: MetaFile)

  /** The service after start-up: its index, its cache, and whether the cached index was kept. */
  datatype Service = Service(index: Option<Index>, meta: Meta, fromCache: bool)

  function AsService(o: Outcome): Result<Service, RebuildError>
  {
    match o.result
    case Ok(index) => Ok(Service(index, o.meta, false))
    case Err(e) => Err(e)
  }

  /** A rebuild inside the guarded block of `_load_or_create_vector_store`: when it raises,
      the handler rebuilds once more, from the cache the first attempt left behind, and the
      second attempt's error escapes. */
  function RebuildRetried(disk: Disk, ex: Extractor, meta: Meta, firstOk: bool, retryOk: bool): Result<Service, RebuildError>
  {
    var first := LoadAndProcessFiles(disk, ex, meta, firstOk);
    if first.result.Ok? then AsService(first)
    else AsService(LoadAndProcessFiles(disk, ex, first.meta, retryOk))
  }

  /** Both artifacts exist and load, the test query succeeds and the directories match the
      cached fingerprints. */
  predicate CacheUsable(art: Artifacts, disk: Disk)
  {
    && art.index.IndexLoaded? && art.index.probeOk
    && art.metaFile.MetaParsed?
    && Unchanged(disk, art.metaFile.meta)
  }

  /** `_load_or_create_vector_store`, starting from the empty caches of a new service. */
  function LoadOrCreate(art: Artifacts, disk: Disk, ex: Extractor, firstOk: bool, retryOk: bool): (r: Result<Service, RebuildError>)
    ensures r.Ok? && r.value.fromCache <==> CacheUsable(art, disk)
    ensures CacheUsable(art, disk) ==> r.value.index == Some(art.index.index) && r.value.meta == art.metaFile.meta
    ensures art.index.NoIndexFile? || art.metaFile.NoMetaFile? || art.index.IndexUnloadable? ==>
              r == AsService(LoadAndProcessFiles(disk, ex, EmptyMeta, firstOk))
    ensures art.index.IndexLoaded? && art.metaFile.MetaUnreadable? ==>
              r == RebuildRetried(disk, ex, EmptyMeta, firstOk, retryOk)
    ensures art.index.IndexLoaded? && art.metaFile.MetaParsed? && !CacheUsable(art, disk) ==>
              r == RebuildRetried(disk, ex, art.metaFile.meta, firstOk, retryOk)
  {
    if art.index.NoIndexFile? || art.metaFile.NoMetaFile? then
      AsService(LoadAndProcessFiles(disk, ex, EmptyMeta, firstOk))
    else if art.index.IndexUnloadable? then
      AsService(LoadAndProcessFiles(disk, ex, EmptyMeta, firstOk))
    else if art.metaFile.MetaUnreadable? then
      RebuildRetried(disk, ex, EmptyMeta, firstOk, retryOk)
    else if !art.index.probeOk || !Unchanged(disk, art.metaFile.meta) then
      RebuildRetried(disk, ex, art.metaFile.meta, firstOk, retryOk)
    else
      Ok(Service(Some(art.index.index), art.metaFile.meta, true))
  }

  /** The cache entries the PDF loop writes, whatever the cache held before. */
  function PdfWrites(names: seq<string>, stats: map<string, Stat>, ex: Extractor): map<string, CacheEntry>
  {
    ProcessPdfs(Acc([], [], EmptyMeta), names, stats, ex).meta.pdf
  }

  /** The cache entries the workbook loop writes, whatever the cache held before. */
  function ExcelWrites(names: seq<string>, stats: map<string, Stat>, ex: Extractor): map<string, CacheEntry>
  {
    ProcessExcels(Acc([], [], EmptyMeta), names, stats, ex).meta.excel
  }

  lemma MapUnionAssoc<K, V>(a: map<K, V>, b: map<K, V>, c: map<K, V>)
    ensures (a + b) + c == a + (b + c)
  {
  }

  /** One PDF step from any accumulator is the step from the empty one, appended. */
  lemma PdfStepEffect(acc: Acc, name: string, stats: map<string, Stat>, ex: Extractor)
    ensures var e1 := ProcessPdf(Acc([], [], EmptyMeta), name, stats, ex);
            ProcessPdf(acc, name, stats, ex) == Acc(acc.chunks + e1.chunks, acc.metas + e1.metas, acc.meta.(pdf := acc.meta.pdf + e1.meta.pdf))
  {
    var e1 := ProcessPdf(Acc([], [], EmptyMeta), name, stats, ex);
    assert acc.chunks == acc.chunks + [];
    assert acc.metas == acc.metas + [];
    assert acc.meta.pdf == acc.meta.pdf + map[];
  }

  lemma ExcelStepEffect(acc: Acc, name: string, stats: map<string, Stat>, ex: Extractor)
    ensures var e1 := ProcessExcel(Acc([], [], EmptyMeta), name, stats, ex);
            ProcessExcel(acc, name, stats, ex) == Acc(acc.chunks + e1.chunks, acc.metas + e1.metas, acc.meta.(excel := acc.meta.excel + e1.meta.excel))
  {
    var e1 := ProcessExcel(Acc([], [], EmptyMeta), name, stats, ex);
    assert acc.chunks == acc.chunks + [];
    assert acc.metas == acc.metas + [];
    assert acc.meta.excel == acc.meta.excel + map[];
  }

  /** The PDF loop overwrites entries and never reads the cache: its effect is a fixed set of
      writes, and its chunks do not depend on what the cache held. */
  lemma {:induction false} PdfLoopEffect(acc: Acc, names: seq<string>, stats: map<string, Stat>, ex: Extractor)
    ensures ProcessPdfs(acc, names, stats, ex).meta == acc.meta.(pdf := acc.meta.pdf + PdfWrites(names, stats, ex))
    ensures ProcessPdfs(acc, names, stats, ex).chunks == acc.chunks + ProcessPdfs(Acc([], [], EmptyMeta), names, stats, ex).chunks
    ensures ProcessPdfs(acc, names, stats, ex).metas == acc.metas + ProcessPdfs(Acc([], [], EmptyMeta), names, stats, ex).metas
    decreases |names|
  {
    if names != [] {
      var e := Acc([], [], EmptyMeta);
      var a1 := ProcessPdf(acc, names[0], stats, ex);
      var e1 := ProcessPdf(e, names[0], stats, ex);
      PdfStepEffect(acc, names[0], stats, ex);
      PdfLoopEffect(a1, names[1..], stats, ex);
      PdfLoopEffect(e1, names[1..], stats, ex);
      MapUnionAssoc(acc.meta.pdf, e1.meta.pdf, PdfWrites(names[1..], stats, ex));
    }
  }

  lemma {:induction false} ExcelLoopEffect(acc: Acc, names: seq<string>, stats: map<string, Stat>, ex: Extractor)
    ensures ProcessExcels(acc, names, stats, ex).meta == acc.meta.(excel := acc.meta.excel + ExcelWrites(names, stats, ex))
    ensures ProcessExcels(acc, names, stats, ex).chunks == acc.chunks + ProcessExcels(Acc([], [], EmptyMeta), names, stats, ex).chunks
    ensures ProcessExcels(acc, names, stats, ex).metas == acc.metas + ProcessExcels(Acc([], [], EmptyMeta), names, stats, ex).metas
    decreases |names|
  {
    if names != [] {
      var e := Acc([], [], EmptyMeta);
      var a1 := ProcessExcel(acc, names[0], stats, ex);
      var e1 := ProcessExcel(e, names[0], stats, ex);
      ExcelStepEffect(acc, names[0], stats, ex);
      ExcelLoopEffect(a1, names[1..], stats, ex);
      ExcelLoopEffect(e1, names[1..], stats, ex);
      MapUnionAssoc(acc.meta.excel, e1.meta.excel, ExcelWrites(names[1..], stats, ex));
    }
  }

  lemma MapUnionAbsorbs<K, V>(a: map<K, V>, w: map<K, V>)
    ensures (a + w) + w == a + w
  {
  }

  /** Both loops from the cache `meta`, with each loop's effect spelled out. */
  lemma {:induction false} LoopsEffect(pdfs: seq<string>, pdfStats: map<string, Stat>, excels: seq<string>, excelStats: map<string, Stat>,
                                       ex: Extractor, meta: Meta)
    ensures var acc := ProcessExcels(ProcessPdfs(Acc([], [], meta), pdfs, pdfStats, ex), excels, excelStats, ex);
            var e := Acc([], [], EmptyMeta);
            && acc.meta == Meta(meta.pdf + PdfWrites(pdfs, pdfStats, ex), meta.excel + ExcelWrites(excels, excelStats, ex))
            && acc.chunks == ProcessPdfs(e, pdfs, pdfStats, ex).chunks + ProcessExcels(e, excels, excelStats, ex).chunks
            && acc.metas == ProcessPdfs(e, pdfs, pdfStats, ex).metas + ProcessExcels(e, excels, excelStats, ex).metas
  {
    var a := ProcessPdfs(Acc([], [], meta), pdfs, pdfStats, ex);
    PdfLoopEffect(Acc([], [], meta), pdfs, pdfStats, ex);
    ExcelLoopEffect(a, excels, excelStats, ex);
  }

  /** Whether the rebuild yields an index, nothing, or an error, and which index, never
      depends on the cache it starts from. */
  lemma RebuildIgnoresCache(disk: Disk, ex: Extractor, meta: Meta, other: Meta, storeOk: bool)
    ensures LoadAndProcessFiles(disk, ex, meta, storeOk).result == LoadAndProcessFiles(disk, ex, other, storeOk).result
  {
    if Listing(disk.pdfDir).Some? && Listing(disk.excelDir).Some? {
      var (pdfNames, pdfStats) := Listing(disk.pdfDir).value;
      var (excelNames, excelStats) := Listing(disk.excelDir).value;
      LoopsEffect(Eligibles(pdfNames, Pdf), pdfStats, Eligibles(excelNames, Excel), excelStats, ex, meta);
      LoopsEffect(Eligibles(pdfNames, Pdf), pdfStats, Eligibles(excelNames, Excel), excelStats, ex, other);
    }
  }

  /** A rebuild that failed for want of content (or of a listing) fails the same way when the
      handler retries it. */
  lemma RetryRepeatsContentFailure(disk: Disk, ex: Extractor, meta: Meta, firstOk: bool, retryOk: bool)
    requires LoadAndProcessFiles(disk, ex, meta, firstOk).result in {Err(ListingFailed), Err(NoValidContent)}
    ensures RebuildRetried(disk, ex, meta, firstOk, retryOk) == Err(LoadAndProcessFiles(disk, ex, meta, firstOk).result.error)
  {
    var first := LoadAndProcessFiles(disk, ex, meta, firstOk);
    RebuildIgnoresCache(disk, ex, first.meta, meta, retryOk);
    RebuildIgnoresCache(disk, ex, meta, meta, firstOk);
  }

  /** After a failure to build the store, the retry ends exactly where a first attempt with
      the retry's store outcome would have: the entries the failed attempt wrote are the ones
      the retry writes again. */
  lemma RetryAfterStoreFailure(disk: Disk, ex: Extractor, meta: Meta, retryOk: bool)
    requires LoadAndProcessFiles(disk, ex, meta, false).result == Err(StoreFailed)
    ensures RebuildRetried(disk, ex, meta, false, retryOk) == AsService(LoadAndProcessFiles(disk, ex, meta, retryOk))
  {
    var (pdfNames, pdfStats) := Listing(disk.pdfDir).value;
    var (excelNames, excelStats) := Listing(disk.excelDir).value;
    var pdfs, excels := Eligibles(pdfNames, Pdf), Eligibles(excelNames, Excel);
    var first := LoadAndProcessFiles(disk, ex, meta, false);
    LoopsEffect(pdfs, pdfStats, excels, excelStats, ex, meta);
    LoopsEffect(pdfs, pdfStats, excels, excelStats, ex, first.meta);
    MapUnionAbsorbs(meta.pdf, PdfWrites(pdfs, pdfStats, ex));
    MapUnionAbsorbs(meta.excel, ExcelWrites(excels, excelStats, ex));
  }

  /** The names the PDF loop writes an entry for: files with text that can be stat'ed. */
  lemma {:induction false} PdfWritesKeys(names: seq<string>, stats: map<string, Stat>, ex: Extractor)
    ensures forall n :: n in PdfWrites(names, stats, ex) <==> n in names && ex.pdfText(n) != "" && n in stats
    decreases |names|
  {
    if names != [] {
      var e1 := ProcessPdf(Acc([], [], EmptyMeta), names[0], stats, ex);
      PdfLoopEffect(e1, names[1..], stats, ex);
      PdfWritesKeys(names[1..], stats, ex);
      assert names == [names[0]] + names[1..];
    }
  }

  /** The names the workbook loop writes an entry for: the workbooks that open. */
  lemma {:induction false} ExcelWritesKeys(names: seq<string>, stats: map<string, Stat>, ex: Extractor)
    ensures forall n :: n in ExcelWrites(names, stats, ex) <==> n in names && ex.workbook(n).Some?
    decreases |names|
  {
    if names != [] {
      var e1 := ProcessExcel(Acc([], [], EmptyMeta), names[0], stats, ex);
      ExcelLoopEffect(e1, names[1..], stats, ex);
      ExcelWritesKeys(names[1..], stats, ex);
      assert names == [names[0]] + names[1..];
    }
  }

  /** The cache a successful rebuild saves: a file keeps or gains an entry exactly when it
      still exists and either had one or was recorded by its loop (a PDF with text, a workbook
      that opens); every kept entry carries the file's current fingerprint. */
  lemma RebuiltCache(disk: Disk, ex: Extractor, meta: Meta, storeOk: bool)
    requires LoadAndProcessFiles(disk, ex, meta, storeOk).result.Ok?
    requires LoadAndProcessFiles(disk, ex, meta, storeOk).result.value.Some?
    ensures var saved := LoadAndProcessFiles(disk, ex, meta, storeOk).meta;
            && (forall n :: n in saved.pdf <==>
                  Exists(disk.pdfDir, n) && (n in meta.pdf || (n in disk.pdfDir.names && IsPdfName(n) && ex.pdfText(n) != "")))
            && (forall n :: n in saved.excel <==>
                  Exists(disk.excelDir, n) && (n in meta.excel || (n in disk.excelDir.names && IsExcelName(n) && ex.workbook(n).Some?)))
            && (forall n :: n in saved.pdf ==> WithinTolerance(disk.pdfDir.stats[n], saved.pdf[n]))
            && (forall n :: n in saved.excel ==> WithinTolerance(disk.excelDir.stats[n], saved.excel[n]))
  {
    var (pdfNames, pdfStats) := Listing(disk.pdfDir).value;
    var (excelNames, excelStats) := Listing(disk.excelDir).value;
    var pdfs, excels := Eligibles(pdfNames, Pdf), Eligibles(excelNames, Excel);
    var acc := ProcessExcels(ProcessPdfs(Acc([], [], meta), pdfs, pdfStats, ex), excels, excelStats, ex);
    assert LoadAndProcessFiles(disk, ex, meta, storeOk).meta == SaveMetadata(disk, acc.meta);
    LoopsEffect(pdfs, pdfStats, excels, excelStats, ex, meta);
    PdfWritesKeys(pdfs, pdfStats, ex);
    ExcelWritesKeys(excels, excelStats, ex);
  }

  /** Every name in the cache is of the kind of its table, as the loops only write such names. */
  predicate MetaWellFormed(meta: Meta)
  {
    && (forall n :: n in meta.pdf ==> IsPdfName(n))
    && (forall n :: n in meta.excel ==> IsExcelName(n))
  }

  /** Every file that can be stat'ed appears in the listing. */
  predicate ListingConsistent(d: Dir)
  {
    d.Listed? ==> forall n :: n in d.stats ==> n in d.names
  }

  /** The file has an entry after the loops: it had one, or its loop records it. */
  predicate Recorded(ex: Extractor, meta: Meta, name: string)
  {
    || name in meta.pdf || name in meta.excel
    || (IsPdfName(name) && ex.pdfText(name) != "")
    || (IsExcelName(name) && ex.workbook(name).Some?)
  }

  /** What `RebuiltCache` says about the cache `saved` a rebuild leaves behind. */
  ghost predicate SavedBy(disk: Disk, ex: Extractor, meta: Meta, saved: Meta)
  {
    && (forall n :: n in saved.pdf <==>
          Exists(disk.pdfDir, n) && (n in meta.pdf || (n in disk.pdfDir.names && IsPdfName(n) && ex.pdfText(n) != "")))
    && (forall n :: n in saved.excel <==>
          Exists(disk.excelDir, n) && (n in meta.excel || (n in disk.excelDir.names && IsExcelName(n) && ex.workbook(n).Some?)))
    && (forall n :: n in saved.pdf ==> WithinTolerance(disk.pdfDir.stats[n], saved.pdf[n]))
    && (forall n :: n in saved.excel ==> WithinTolerance(disk.excelDir.stats[n], saved.excel[n]))
  }

  /** A current file with an entry before the rebuild keeps a matching one in the saved cache. */
  lemma SavedCoversFile(disk: Disk, ex: Extractor, meta: Meta, saved: Meta, n: string)
    requires MetaWellFormed(meta)
    requires Readable(disk.pdfDir, Pdf) && Readable(disk.excelDir, Excel)
    requires SavedBy(disk, ex, meta, saved)
    requires n in Current(disk) && Recorded(ex, meta, n)
    ensures Fresh(Current(disk)[n], Lookup(saved, n)) && n in saved.pdf.Keys + saved.excel.Keys
  {
    KindsDisjoint(n);
    if IsPdfName(n) {
      assert n !in Snapshot(disk.excelDir, Excel);
      assert n in saved.pdf;
    } else {
      assert n !in Snapshot(disk.pdfDir, Pdf);
      assert n !in saved.pdf;
      assert n in saved.excel;
    }
  }

  /** Every name in the saved cache is a current file. */
  lemma SavedFileCurrent(disk: Disk, ex: Extractor, meta: Meta, saved: Meta, n: string)
    requires ListingConsistent(disk.pdfDir) && ListingConsistent(disk.excelDir) && MetaWellFormed(meta)
    requires Readable(disk.pdfDir, Pdf) && Readable(disk.excelDir, Excel)
    requires SavedBy(disk, ex, meta, saved)
    requires n in saved.pdf.Keys + saved.excel.Keys
    ensures n in Current(disk)
  {
    if n in saved.pdf {
      assert n in Snapshot(disk.pdfDir, Pdf);
    } else {
      assert n in Snapshot(disk.excelDir, Excel);
    }
  }

  /** A cache saved as `RebuiltCache` describes matches the directories when every current
      file ended up with an entry. */
  lemma SavedByMatchesDisk(disk: Disk, ex: Extractor, meta: Meta, saved: Meta)
    requires ListingConsistent(disk.pdfDir) && ListingConsistent(disk.excelDir) && MetaWellFormed(meta)
    requires Readable(disk.pdfDir, Pdf) && Readable(disk.excelDir, Excel)
    requires SavedBy(disk, ex, meta, saved)
    requires forall n :: n in Current(disk) ==> Recorded(ex, meta, n)
    ensures Unchanged(disk, saved)
  {
    var cur := Current(disk);
    forall n | n in cur
      ensures Fresh(cur[n], Lookup(saved, n)) && n in saved.pdf.Keys + saved.excel.Keys
    {
      SavedCoversFile(disk, ex, meta, saved, n);
    }
    forall n | n in saved.pdf.Keys + saved.excel.Keys
      ensures n in cur
    {
      SavedFileCurrent(disk, ex, meta, saved, n);
    }
  }

  /** On an unchanged disk, the cache a rebuild saves matches the directories, provided every
      current file ended up with an entry. */
  lemma SavedCacheMatchesDisk(disk: Disk, ex: Extractor, meta: Meta, idx: Index)
    requires ListingConsistent(disk.pdfDir) && ListingConsistent(disk.excelDir) && MetaWellFormed(meta)
    requires Readable(disk.pdfDir, Pdf) && Readable(disk.excelDir, Excel)
    requires LoadAndProcessFiles(disk, ex, meta, true).result == Ok(Some(idx))
    requires forall n :: n in Current(disk) ==> Recorded(ex, meta, n)
    ensures Unchanged(disk, LoadAndProcessFiles(disk, ex, meta, true).meta)
  {
    var saved := LoadAndProcessFiles(disk, ex, meta, true).meta;
    RebuiltCache(disk, ex, meta, true);
    SavedByMatchesDisk(disk, ex, meta, saved);
  }

  /** The next start keeps the index a rebuild saved, when the disk is unchanged, every current
      file ended up with an entry and the store answers the test query. */
  lemma SavedCacheIsReused(disk: Disk, ex: Extractor, meta: Meta, idx: Index, firstOk: bool, retryOk: bool)
    requires ListingConsistent(disk.pdfDir) && ListingConsistent(disk.excelDir) && MetaWellFormed(meta)
    requires Readable(disk.pdfDir, Pdf) && Readable(disk.excelDir, Excel)
    requires LoadAndProcessFiles(disk, ex, meta, true).result == Ok(Some(idx))
    requires forall n :: n in Current(disk) ==> Recorded(ex, meta, n)
    ensures var saved := LoadAndProcessFiles(disk, ex, meta, true).meta;
            LoadOrCreate(Artifacts(IndexLoaded(idx, true), MetaParsed(saved)), disk, ex, firstOk, retryOk)
              == Ok(Service(Some(idx), saved, true))
  {
    SavedCacheMatchesDisk(disk, ex, meta, idx);
  }

  /** A PDF without extractable text never gets an entry, so the cache a rebuild saves always
      reports it as new and every later start rebuilds again, from a cache that again lacks
      it. */
  lemma TextlessPdfForcesRebuild(disk: Disk, ex: Extractor, meta: Meta, name: string, storeOk: bool,
                                 stored: StoredIndex, firstOk: bool, retryOk: bool)
    requires MetaWellFormed(meta)
    requires disk.pdfDir.Listed? && name in disk.pdfDir.names && IsPdfName(name)
    requires ex.pdfText(name) == "" && name !in meta.pdf
    requires LoadAndProcessFiles(disk, ex, meta, storeOk).result.Ok?
    ensures var saved := LoadAndProcessFiles(disk, ex, meta, storeOk).meta;
            && name !in saved.pdf && name !in saved.excel && MetaWellFormed(saved)
            && !Unchanged(disk, saved)
            && !(LoadOrCreate(Artifacts(stored, MetaParsed(saved)), disk, ex, firstOk, retryOk).Ok? &&
                 LoadOrCreate(Artifacts(stored, MetaParsed(saved)), disk, ex, firstOk, retryOk).value.fromCache)
  {
    var saved := LoadAndProcessFiles(disk, ex, meta, storeOk).meta;
    assert name in Eligibles(disk.pdfDir.names, Pdf);
    RebuiltCache(disk, ex, meta, storeOk);
    KindsDisjoint(name);
    if Readable(disk.pdfDir, Pdf) && Readable(disk.excelDir, Excel) {
      assert name in Snapshot(disk.pdfDir, Pdf);
      NewFileIsChange(disk, saved, name);
    }
  }

  /** The directory of the files of a kind. */
  function DirOf(disk: Disk, t: SourceType): Dir
  {
    match t
    case Pdf => disk.pdfDir
    case Excel => disk.excelDir
  }

  /** The files of a kind the rebuild visits, in listing order: none when the directory is
      missing (it is created empty) or cannot be listed. */
  function EligibleFiles(d: Dir, t: SourceType): seq<string>
  {
    if d.Listed? then Eligibles(d.names, t) else []
  }

  /** The chunks one file contributes: its text split with the parameters of its kind, or
      nothing when it yields no text. */
  function FileChunks(t: SourceType, name: string, ex: Extractor): seq<string>
  {
    match t
    case Pdf => if ex.pdfText(name) == "" then [] else ex.split(ex.pdfText(name), ChunkParamsFor("pdf"))
    case Excel =>
      if ex.workbook(name).None? || ex.workbook(name).value == "" then []
      else ex.split(ex.workbook(name).value, ChunkParamsFor("excel"))
  }

  /** The chunks of the files `names`, one file after the other. */
  function Chunks(t: SourceType, names: seq<string>, ex: Extractor): seq<string>
    decreases |names|
  {
    if names == [] then [] else FileChunks(t, names[0], ex) + Chunks(t, names[1..], ex)
  }

  /** The metadata records of the files `names` when each of them can be stat'ed: every file's
      chunks, numbered from 0 and naming that file. */
  function FullMetas(t: SourceType, names: seq<string>, ex: Extractor): seq<ChunkMeta>
    decreases |names|
  {
    if names == [] then [] else ChunkMetas(names[0], t, FileChunks(t, names[0], ex)) + FullMetas(t, names[1..], ex)
  }

  /** The metadata records one file gets: none when it cannot be stat'ed after its chunks went
      in. */
  function FileMetas(t: SourceType, name: string, stats: map<string, Stat>, ex: Extractor): seq<ChunkMeta>
  {
    if name in stats then ChunkMetas(name, t, FileChunks(t, name, ex)) else []
  }

  function Metas(t: SourceType, names: seq<string>, stats: map<string, Stat>, ex: Extractor): seq<ChunkMeta>
    decreases |names|
  {
    if names == [] then [] else FileMetas(t, names[0], stats, ex) + Metas(t, names[1..], stats, ex)
  }

  /** One PDF step appends the file's chunks and its records. */
  lemma PdfStep(acc: Acc, name: string, stats: map<string, Stat>, ex: Extractor)
    ensures ProcessPdf(acc, name, stats, ex).chunks == acc.chunks + FileChunks(Pdf, name, ex)
    ensures ProcessPdf(acc, name, stats, ex).metas == acc.metas + FileMetas(Pdf, name, stats, ex)
  {
    assert acc.chunks + [] == acc.chunks;
    assert acc.metas + [] == acc.metas;
  }

  lemma ExcelStep(acc: Acc, name: string, stats: map<string, Stat>, ex: Extractor)
    ensures ProcessExcel(acc, name, stats, ex).chunks == acc.chunks + FileChunks(Excel, name, ex)
    ensures ProcessExcel(acc, name, stats, ex).metas == acc.metas + FileMetas(Excel, name, stats, ex)
  {
    assert acc.chunks + [] == acc.chunks;
    assert acc.metas + [] == acc.metas;
  }

  lemma AppendAssoc<T>(a: seq<T>, b: seq<T>, c: seq<T>)
    ensures (a + b) + c == a + (b + c)
  {
  }

  /** The PDF loop appends the chunks and records of its files, in order. */
  lemma {:induction false} PdfsContents(acc: Acc, names: seq<string>, stats: map<string, Stat>, ex: Extractor)
    ensures ProcessPdfs(acc, names, stats, ex).chunks == acc.chunks + Chunks(Pdf, names, ex)
    ensures ProcessPdfs(acc, names, stats, ex).metas == acc.metas + Metas(Pdf, names, stats, ex)
    decreases |names|
  {
    if names == [] {
      assert acc.chunks + [] == acc.chunks;
      assert acc.metas + [] == acc.metas;
    } else {
      var a1 := ProcessPdf(acc, names[0], stats, ex);
      PdfStep(acc, names[0], stats, ex);
      PdfsContents(a1, names[1..], stats, ex);
      AppendAssoc(acc.chunks, FileChunks(Pdf, names[0], ex), Chunks(Pdf, names[1..], ex));
      AppendAssoc(acc.metas, FileMetas(Pdf, names[0], stats, ex), Metas(Pdf, names[1..], stats, ex));
    }
  }

  /** The workbook loop appends the chunks and records of its files, in order. */
  lemma {:induction false} ExcelsContents(acc: Acc, names: seq<string>, stats: map<string, Stat>, ex: Extractor)
    ensures ProcessExcels(acc, names, stats, ex).chunks == acc.chunks + Chunks(Excel, names, ex)
    ensures ProcessExcels(acc, names, stats, ex).metas == acc.metas + Metas(Excel, names, stats, ex)
    decreases |names|
  {
    if names == [] {
      assert acc.chunks + [] == acc.chunks;
      assert acc.metas + [] == acc.metas;
    } else {
      var a1 := ProcessExcel(acc, names[0], stats, ex);
      ExcelStep(acc, names[0], stats, ex);
      ExcelsContents(a1, names[1..], stats, ex);
      AppendAssoc(acc.chunks, FileChunks(Excel, names[0], ex), Chunks(Excel, names[1..], ex));
      AppendAssoc(acc.metas, FileMetas(Excel, names[0], stats, ex), Metas(Excel, names[1..], stats, ex));
    }
  }

  /** Records never outnumber chunks; they are as many exactly when no file that gave chunks
      failed its stat, and then they are the records of `FullMetas`. */
  lemma {:induction false} MetasAlign(t: SourceType, names: seq<string>, stats: map<string, Stat>, ex: Extractor)
    ensures |Metas(t, names, stats, ex)| <= |Chunks(t, names, ex)|
    ensures |Metas(t, names, stats, ex)| == |Chunks(t, names, ex)| ==> Metas(t, names, stats, ex) == FullMetas(t, names, ex)
    ensures (exists n :: n in names && n !in stats && FileChunks(t, n, ex) != []) ==>
              |Metas(t, names, stats, ex)| < |Chunks(t, names, ex)|
    ensures (forall n :: n in names && FileChunks(t, n, ex) != [] ==> n in stats) ==>
              |Metas(t, names, stats, ex)| == |Chunks(t, names, ex)|
    decreases |names|
  {
    if names != [] {
      MetasAlign(t, names[1..], stats, ex);
      if names[0] !in stats && FileChunks(t, names[0], ex) == [] {
        assert ChunkMetas(names[0], t, []) == [];
      }
      if exists n :: n in names && n !in stats && FileChunks(t, n, ex) != [] {
        var n :| n in names && n !in stats && FileChunks(t, n, ex) != [];
        if n != names[0] {
          assert n in names[1..];
        }
      }
    }
  }

  /** Chunk `c` is chunk number `m.chunkId` of the file `m` names, that file is an eligible
      name in the listing of its kind, and `m` previews `c`. */
  predicate ChunkOf(c: string, m: ChunkMeta, disk: Disk, ex: Extractor)
  {
    && m.source in EligibleFiles(DirOf(disk, m.sourceType), m.sourceType)
    && m.chunkId < |FileChunks(m.sourceType, m.source, ex)|
    && c == FileChunks(m.sourceType, m.source, ex)[m.chunkId]
    && m.preview == Preview(c)
  }

  /** Chunks and records pair up one to one, and each chunk and the record at its position
      satisfy `p`. */
  predicate Paired(chunks: seq<string>, metas: seq<ChunkMeta>, p: (string, ChunkMeta) -> bool)
  {
    && |chunks| == |metas|
    && forall k :: 0 <= k < |metas| ==> p(chunks[k], metas[k])
  }

  lemma PairedAppend(c1: seq<string>, m1: seq<ChunkMeta>, c2: seq<string>, m2: seq<ChunkMeta>, p: (string, ChunkMeta) -> bool)
    requires Paired(c1, m1, p) && Paired(c2, m2, p)
    ensures Paired(c1 + c2, m1 + m2, p)
  {
    var c, m := c1 + c2, m1 + m2;
    forall k | 0 <= k < |m|
      ensures p(c[k], m[k])
    {
      if k < |m1| {
        assert m[k] == m1[k] && c[k] == c1[k];
      } else {
        assert m[k] == m2[k - |m1|] && c[k] == c2[k - |m1|];
      }
    }
  }

  /** `ChunkOf` for a given disk and extractor. */
  function DescribesChunk(disk: Disk, ex: Extractor): (string, ChunkMeta) -> bool
  {
    (c, m) => ChunkOf(c, m, disk, ex)
  }

  /** Chunks and chunk metadata pair up one to one, each record describing its own chunk. */
  predicate WellIndexed(chunks: seq<string>, metas: seq<ChunkMeta>, disk: Disk, ex: Extractor)
  {
    Paired(chunks, metas, DescribesChunk(disk, ex))
  }

  /** The records of a file's chunks describe those chunks. */
  lemma FileWellIndexed(name: string, t: SourceType, disk: Disk, ex: Extractor)
    requires name in EligibleFiles(DirOf(disk, t), t)
    ensures WellIndexed(FileChunks(t, name, ex), ChunkMetas(name, t, FileChunks(t, name, ex)), disk, ex)
  {
    var cs := FileChunks(t, name, ex);
    var ms := ChunkMetas(name, t, cs);
    forall k | 0 <= k < |ms|
      ensures DescribesChunk(disk, ex)(cs[k], ms[k])
    {
      assert ms[k] == ChunkMeta(name, t, k, Preview(cs[k]));
      assert ChunkOf(cs[k], ms[k], disk, ex);
    }
  }

  lemma {:induction false} FilesWellIndexed(t: SourceType, names: seq<string>, disk: Disk, ex: Extractor)
    requires forall n :: n in names ==> n in EligibleFiles(DirOf(disk, t), t)
    ensures WellIndexed(Chunks(t, names, ex), FullMetas(t, names, ex), disk, ex)
    decreases |names|
  {
    if names != [] {
      var cs := FileChunks(t, names[0], ex);
      FileWellIndexed(names[0], t, disk, ex);
      FilesWellIndexed(t, names[1..], disk, ex);
      PairedAppend(cs, ChunkMetas(names[0], t, cs), Chunks(t, names[1..], ex), FullMetas(t, names[1..], ex), DescribesChunk(disk, ex));
    }
  }

  /** What both loops accumulate, from any starting cache. */
  lemma LoopsContents(pdfs: seq<string>, pdfStats: map<string, Stat>, excels: seq<string>, excelStats: map<string, Stat>,
                      ex: Extractor, meta: Meta)
    ensures var acc := ProcessExcels(ProcessPdfs(Acc([], [], meta), pdfs, pdfStats, ex), excels, excelStats, ex);
            && acc.chunks == Chunks(Pdf, pdfs, ex) + Chunks(Excel, excels, ex)
            && acc.metas == Metas(Pdf, pdfs, pdfStats, ex) + Metas(Excel, excels, excelStats, ex)
  {
    var a := ProcessPdfs(Acc([], [], meta), pdfs, pdfStats, ex);
    PdfsContents(Acc([], [], meta), pdfs, pdfStats, ex);
    assert a.chunks == Chunks(Pdf, pdfs, ex) && a.metas == Metas(Pdf, pdfs, pdfStats, ex);
    ExcelsContents(a, excels, excelStats, ex);
  }

  /** The index a rebuild builds holds the chunks of the eligible files, PDFs first and each
      kind in listing order, with each file's records numbered from 0 and naming it. */
  lemma IndexContents(disk: Disk, ex: Extractor, meta: Meta, storeOk: bool)
    requires LoadAndProcessFiles(disk, ex, meta, storeOk).result.Ok?
    requires LoadAndProcessFiles(disk, ex, meta, storeOk).result.value.Some?
    ensures var idx := LoadAndProcessFiles(disk, ex, meta, storeOk).result.value.value;
            var pdfs := EligibleFiles(disk.pdfDir, Pdf);
            var excels := EligibleFiles(disk.excelDir, Excel);
            && idx.chunks == Chunks(Pdf, pdfs, ex) + Chunks(Excel, excels, ex)
            && idx.metadatas == FullMetas(Pdf, pdfs, ex) + FullMetas(Excel, excels, ex)
  {
    var (pdfNames, pdfStats) := Listing(disk.pdfDir).value;
    var (excelNames, excelStats) := Listing(disk.excelDir).value;
    var pdfs, excels := Eligibles(pdfNames, Pdf), Eligibles(excelNames, Excel);
    assert pdfs == EligibleFiles(disk.pdfDir, Pdf) && excels == EligibleFiles(disk.excelDir, Excel);
    LoopsContents(pdfs, pdfStats, excels, excelStats, ex, meta);
    MetasAlign(Pdf, pdfs, pdfStats, ex);
    MetasAlign(Excel, excels, excelStats, ex);
  }

  /** So every record of the index names the file, kind and position its chunk comes from. */
  lemma IndexWellFormed(disk: Disk, ex: Extractor, meta: Meta, storeOk: bool)
    requires LoadAndProcessFiles(disk, ex, meta, storeOk).result.Ok?
    requires LoadAndProcessFiles(disk, ex, meta, storeOk).result.value.Some?
    ensures var idx := LoadAndProcessFiles(disk, ex, meta, storeOk).result.value.value;
            && |idx.chunks| == |idx.metadatas|
            && forall k :: 0 <= k < |idx.metadatas| ==> ChunkOf(idx.chunks[k], idx.metadatas[k], disk, ex)
  {
    var pdfs := EligibleFiles(disk.pdfDir, Pdf);
    var excels := EligibleFiles(disk.excelDir, Excel);
    IndexContents(disk, ex, meta, storeOk);
    FilesWellIndexed(Pdf, pdfs, disk, ex);
    FilesWellIndexed(Excel, excels, disk, ex);
    PairedAppend(Chunks(Pdf, pdfs, ex), FullMetas(Pdf, pdfs, ex), Chunks(Excel, excels, ex), FullMetas(Excel, excels, ex),
                 DescribesChunk(disk, ex));
    var idx := LoadAndProcessFiles(disk, ex, meta, storeOk).result.value.value;
    forall k | 0 <= k < |idx.metadatas|
      ensures ChunkOf(idx.chunks[k], idx.metadatas[k], disk, ex)
    {
      assert DescribesChunk(disk, ex)(idx.chunks[k], idx.metadatas[k]);
    }
  }

  /** A listed PDF that yields chunks but cannot be stat'ed leaves more chunks than metadata
      records; the embedding store refuses lists of unequal length, so the rebuild fails. */
  lemma UnstattablePdfFailsStore(disk: Disk, ex: Extractor, meta: Meta, storeOk: bool, name: string)
    requires disk.pdfDir.Listed? && name in disk.pdfDir.names && IsPdfName(name)
    requires name !in disk.pdfDir.stats && FileChunks(Pdf, name, ex) != []
    requires !disk.excelDir.Unlistable?
    ensures LoadAndProcessFiles(disk, ex, meta, storeOk).result == Err(StoreFailed)
  {
    var (pdfNames, pdfStats) := Listing(disk.pdfDir).value;
    var (excelNames, excelStats) := Listing(disk.excelDir).value;
    var pdfs, excels := Eligibles(pdfNames, Pdf), Eligibles(excelNames, Excel);
    assert name in pdfs;
    LoopsContents(pdfs, pdfStats, excels, excelStats, ex, meta);
    MetasAlign(Pdf, pdfs, pdfStats, ex);
    MetasAlign(Excel, excels, excelStats, ex);
  }

  /** Such a PDF makes every start that rebuilds fail: the handler's retry meets it again. */
  lemma UnstattablePdfFailsRetry(disk: Disk, ex: Extractor, meta: Meta, name: string, firstOk: bool, retryOk: bool)
    requires disk.pdfDir.Listed? && name in disk.pdfDir.names && IsPdfName(name)
    requires name !in disk.pdfDir.stats && FileChunks(Pdf, name, ex) != []
    requires !disk.excelDir.Unlistable?
    ensures RebuildRetried(disk, ex, meta, firstOk, retryOk) == Err(StoreFailed)
  {
    var first := LoadAndProcessFiles(disk, ex, meta, firstOk);
    UnstattablePdfFailsStore(disk, ex, meta, firstOk, name);
    UnstattablePdfFailsStore(disk, ex, first.meta, retryOk, name);
  }

  /** The file contributes no chunk: no text, or text the splitter turns into nothing. */
  predicate Chunkless(t: SourceType, name: string, ex: Extractor)
  {
    FileChunks(t, name, ex) == []
  }

  /** The files give no chunk at all exactly when each of them gives none. */
  lemma {:induction false} ChunksEmpty(t: SourceType, names: seq<string>, ex: Extractor)
    ensures Chunks(t, names, ex) == [] <==> forall n :: n in names ==> Chunkless(t, n, ex)
    decreases |names|
  {
    if names != [] {
      ChunksEmpty(t, names[1..], ex);
      if forall n :: n in names[1..] ==> Chunkless(t, n, ex) {
        if Chunkless(t, names[0], ex) {
          forall n | n in names ensures Chunkless(t, n, ex) {
            if n != names[0] {
              assert n in names[1..];
            }
          }
        }
      } else {
        var n :| n in names[1..] && !Chunkless(t, n, ex);
        assert n in names;
      }
    }
  }

  /** Listed files that together yield no chunk make the rebuild raise `ValueError`, and that
      is the only way it raises it. */
  lemma NoValidContentIff(disk: Disk, ex: Extractor, meta: Meta, storeOk: bool)
    ensures LoadAndProcessFiles(disk, ex, meta, storeOk).result == Err(NoValidContent) <==>
              && !disk.pdfDir.Unlistable? && !disk.excelDir.Unlistable?
              && (EligibleFiles(disk.pdfDir, Pdf) != [] || EligibleFiles(disk.excelDir, Excel) != [])
              && (forall n :: n in EligibleFiles(disk.pdfDir, Pdf) ==> Chunkless(Pdf, n, ex))
              && (forall n :: n in EligibleFiles(disk.excelDir, Excel) ==> Chunkless(Excel, n, ex))
  {
    if Listing(disk.pdfDir).Some? && Listing(disk.excelDir).Some? {
      var (pdfNames, pdfStats) := Listing(disk.pdfDir).value;
      var (excelNames, excelStats) := Listing(disk.excelDir).value;
      var pdfs, excels := Eligibles(pdfNames, Pdf), Eligibles(excelNames, Excel);
      LoopsContents(pdfs, pdfStats, excels, excelStats, ex, meta);
      ChunksEmpty(Pdf, pdfs, ex);
      ChunksEmpty(Excel, excels, ex);
    }
  }

  /** The file can be stat'ed: its directory was listed and has an entry for it. */
  predicate Stattable(d: Dir, name: string)
  {
    d.Listed? && name in d.stats
  }

  /** The loops give a non-empty, fully recorded set of chunks exactly when some file yields a
      chunk and every file that does can be stat'ed. */
  lemma LoopsIndexable(pdfs: seq<string>, pdfStats: map<string, Stat>, excels: seq<string>, excelStats: map<string, Stat>,
                       ex: Extractor, meta: Meta)
    ensures var acc := ProcessExcels(ProcessPdfs(Acc([], [], meta), pdfs, pdfStats, ex), excels, excelStats, ex);
            acc.chunks != [] && |acc.chunks| == |acc.metas| <==>
              && ((exists n :: n in pdfs && !Chunkless(Pdf, n, ex)) || (exists n :: n in excels && !Chunkless(Excel, n, ex)))
              && (forall n :: n in pdfs && !Chunkless(Pdf, n, ex) ==> n in pdfStats)
              && (forall n :: n in excels && !Chunkless(Excel, n, ex) ==> n in excelStats)
  {
    LoopsContents(pdfs, pdfStats, excels, excelStats, ex, meta);
    MetasAlign(Pdf, pdfs, pdfStats, ex);
    MetasAlign(Excel, excels, excelStats, ex);
    ChunksEmpty(Pdf, pdfs, ex);
    ChunksEmpty(Excel, excels, ex);
  }

  /** The rebuild produces an index exactly when both directories can be listed, some
      eligible file yields a chunk, every file that yields chunks can be stat'ed (so each
      chunk gets its record), and the store can be built. */
  lemma RebuildSucceedsIff(disk: Disk, ex: Extractor, meta: Meta, storeOk: bool)
    ensures var r := LoadAndProcessFiles(disk, ex, meta, storeOk).result;
            r.Ok? && r.value.Some? <==>
              && !disk.pdfDir.Unlistable? && !disk.excelDir.Unlistable?
              && storeOk
              && ((exists n :: n in EligibleFiles(disk.pdfDir, Pdf) && !Chunkless(Pdf, n, ex))
                  || (exists n :: n in EligibleFiles(disk.excelDir, Excel) && !Chunkless(Excel, n, ex)))
              && (forall n :: n in EligibleFiles(disk.pdfDir, Pdf) && !Chunkless(Pdf, n, ex) ==> Stattable(disk.pdfDir, n))
              && (forall n :: n in EligibleFiles(disk.excelDir, Excel) && !Chunkless(Excel, n, ex) ==> Stattable(disk.excelDir, n))
  {
    if Listing(disk.pdfDir).Some? && Listing(disk.excelDir).Some? {
      var (pdfNames, pdfStats) := Listing(disk.pdfDir).value;
      var (excelNames, excelStats) := Listing(disk.excelDir).value;
      var pdfs, excels := Eligibles(pdfNames, Pdf), Eligibles(excelNames, Excel);
      assert pdfs == EligibleFiles(disk.pdfDir, Pdf) && excels == EligibleFiles(disk.excelDir, Excel);
      assert forall n :: n in pdfs ==> (n in pdfStats <==> Stattable(disk.pdfDir, n));
      assert forall n :: n in excels ==> (n in excelStats <==> Stattable(disk.excelDir, n));
      LoopsIndexable(pdfs, pdfStats, excels, excelStats, ex, meta);
    }
  }
}
