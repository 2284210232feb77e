# Patient feedback back ends, modelled in Dafny

This project models the deterministic core of the two back ends of the patient feedback
system:

- the FastAPI feedback store (`backend/app/routes.py`, `backend/app/models.py`);
- the rule-based parts of the question-answering and sentiment service
  (`backend-rag-final/api2.py`).

The feedback store is an immutable record: feedback rows keyed by their serial id, a
sequence of `ai_analysis` rows, and the next id. Each route is a state transformer that
returns the new store and a result or an API error. The invariant `FeedbackStore.Valid`
says that no feedback has two analyses. The database does not enforce this, so the model
proves that every operation preserves it.

The sentiment analyser is modelled in five modules:

- `Stickers`: the sticker table.
- `StickerTally`: the emoji tally and majority vote. The confused face is labelled
  `slightly_negative`, which has no slot in the tally, so the tally raises `KeyError`
  and the model returns an explicit error.
- `Risk`: the additive risk score, capped at 10. The risk level reads the uncapped sum.
- `Recommendations`: the ordered recommendation list.
- `Analysis`: how the three are combined, and the fixed fallback analysis.

The language model is an input. It either raised, or it replied with or without a
decodable JSON object.

The corpus service is modelled in three modules:

- `Corpus`: the two watched directories and the metadata cache, plus `_files_changed`,
  which compares fingerprints. Modification times are whole milliseconds, so the
  one-second tolerance is 1000 ticks.
- `Rebuild`: rebuilding the index (`_load_and_process_files`), pruning the cache
  (`_save_metadata`), and choosing between reusing and rebuilding the index
  (`_load_or_create_vector_store`). The index is abstract: its chunk texts and their
  metadata. PDF text extraction, workbook reading and the text splitter are functions
  passed in as an `Extractor`.
- `Query`: the guards and result shaping of `query`, the reply policy of the WhatsApp
  webhook, and the address rule of `send_message`.

`Common`, `Text`, `JsonValues` and `Sorting` hold the shared vocabulary:

- `Option`/`Result`;
- Python's `str.strip`, prefix, suffix and substring tests, and the
  "cut and add a marker" truncation;
- JSON values, and `>=` that raises on a non-number;
- a stable sort for `ORDER BY ... DESC`.

Four facts about the code shape the model:

- The `ai_analysis` table has no uniqueness constraint on `feedback_id`
  (`backend/app/database.py:74-81`). At most one analysis per feedback is therefore an
  invariant the model proves, not an assumption.
- A PDF without extractable text never gets a cache entry, so every start rebuilds the
  index (`Rebuild.TextlessPdfForcesRebuild`).
- A query against a service that is not initialised raises an internal server error
  carrying "RAG system not properly initialized".
- A modification-time drift of exactly one second counts as unchanged
  (`Corpus.ToleranceIsInclusive`).

## Model

Source paths are relative to the repository root.

| member | source | states |
|---|---|---|
| Validation.FeedbackViolations | Track1_Patient-Feedback-Reminder/backend/app/models.py:12-15 | a feedback body is accepted iff the patient id has 1..50 characters, the text has at least 5 and the note lies in 1..5. Each field's violation is reported exactly when that field is out of range |
| Validation.NoteRange | Track1_Patient-Feedback-Reminder/backend/app/models.py:14 | notes 0 and 6 are rejected; every note from 1 to 5 is accepted |
| Validation.PatientIdLength | Track1_Patient-Feedback-Reminder/backend/app/models.py:12 | a 50-character patient id is accepted; a 51-character id and the empty id are rejected |
| Validation.TextUnboundedEmojiFree | Track1_Patient-Feedback-Reminder/backend/app/models.py:13-15 | a longer text never invalidates a valid body, and the emoji never affects validity |
| Validation.ValidateAnalysisIn | Track1_Patient-Feedback-Reminder/backend/app/models.py:23-31 | an analysis payload is accepted iff the body is an object whose `analysis` member is an object; that mapping is passed on with all its keys |
| Validation.ValidateAnalysisOut | Track1_Patient-Feedback-Reminder/backend/app/models.py:50-59 | the three declared members are optional and are checked only for type. Extra keys are kept unchanged, missing declared keys become null, and an integer confidence becomes a float |
| Sorting.SortDesc | Track1_Patient-Feedback-Reminder/backend/app/routes.py:75 | a listing ordered by timestamp descending is a permutation of the rows whose keys never increase |
| FeedbackStore.CreateFeedback | Track1_Patient-Feedback-Reminder/backend/app/routes.py:21-53 | the new row gets the next serial id, which is also the returned `feedback_id`. Patient id, text and emoji are stored stripped; an absent or empty emoji is stored as null. Nothing else in the store changes, and the store invariant is preserved |
| FeedbackStore.PostFeedback | Track1_Patient-Feedback-Reminder/backend/app/routes.py:15-34 | an invalid body is refused with its violations and leaves the store untouched; a valid body is exactly one `create_feedback` |
| FeedbackStore.StoredTextCanBeShorterThanMinimum | Track1_Patient-Feedback-Reminder/backend/app/routes.py:30-31 | validation runs before stripping, so an accepted text ("good ") is stored with fewer than 5 characters |
| FeedbackStore.FirstAnalysisFor | Track1_Patient-Feedback-Reminder/backend/app/routes.py:135-139 | the analysis lookup finds nothing iff no row names the feedback; otherwise it returns a stored row for it |
| FeedbackStore.GetFeedbackWithAnalysis | Track1_Patient-Feedback-Reminder/backend/app/routes.py:116-152 | an unknown id gives 404, and only an unknown id does. A known id returns its row, with `analysis` null iff no analysis row exists for it, and otherwise the data and time of such a row |
| FeedbackStore.SaveAnalysisForFeedback | Track1_Patient-Feedback-Reminder/backend/app/routes.py:172-190 | an unknown feedback gives 404 and an already analysed one gives 400, both with the store unchanged. Otherwise exactly one row, holding the payload, is appended for that feedback. The invariant, including at most one analysis per feedback, is preserved |
| FeedbackStore.SaveTwice | Track1_Patient-Feedback-Reminder/backend/app/routes.py:174-185 | analysing the same feedback twice succeeds, then is refused with 400 and no change, leaving exactly one analysis row for it |
| FeedbackStore.CreateThenGet | Track1_Patient-Feedback-Reminder/backend/app/routes.py:116-146 | a feedback read back right after its creation shows exactly the stored row and no analysis |
| FeedbackStore.RowsAreStored | Track1_Patient-Feedback-Reminder/backend/app/routes.py:75 | the rows enumerated for the listing are exactly the stored feedback rows |
| FeedbackStore.GetAllFeedbacks | Track1_Patient-Feedback-Reminder/backend/app/routes.py:75-99 | every stored feedback is listed exactly once, newest first |
| FeedbackStore.EmptyStoreListsNothing | Track1_Patient-Feedback-Reminder/backend/app/routes.py:77-82 | an empty store lists no feedback |
| FeedbackStore.GetAllAnalyses | Track1_Patient-Feedback-Reminder/backend/app/routes.py:211-236 | every analysis row is listed exactly once, newest first |
| FeedbackStore.Flatten | Track1_Patient-Feedback-Reminder/backend/app/routes.py:264-276 | every recommendation is one insight of some row, tagged with that row's feedback id and time, and every insight of every row appears |
| FeedbackStore.FlattenAppend | Track1_Patient-Feedback-Reminder/backend/app/routes.py:264-276 | the recommendations of two runs of rows are those of the first run followed by those of the second |
| FeedbackStore.FlattenSingle | Track1_Patient-Feedback-Reminder/backend/app/routes.py:266-276 | one row gives its insights in their order and with their repetitions, each tagged with the row's feedback id and time |
| FeedbackStore.FlattenPermutation | Track1_Patient-Feedback-Reminder/backend/app/routes.py:264-276 | reordering the rows only reorders the recommendations: each keeps its number of occurrences |
| FeedbackStore.FlattenKeepsOrder | Track1_Patient-Feedback-Reminder/backend/app/routes.py:251-276 | rows listed newest first yield recommendations listed newest first |
| FeedbackStore.GetAllRecommendations | Track1_Patient-Feedback-Reminder/backend/app/routes.py:251-291 | the recommendations are the tagged `actionable_insights` items of all analyses, newest analysis first. They are exactly the flattening of some newest-first permutation of the rows, so each row's items stay together and keep their list order. As a multiset they are the concatenation of every row's items, each with its number of occurrences |
| FeedbackStore.NonListInsightsContributeNothing | Track1_Patient-Feedback-Reminder/backend/app/routes.py:268-270 | analyses that are not objects, or whose insights are not a list, yield no recommendation |
| Stickers.GlyphsDistinct | Track1_Patient-Feedback-Reminder/backend-rag-final/api2.py:45-50 | the fourteen stickers of the table are pairwise distinct |
| Stickers.OnlyConfusedUnscored | Track1_Patient-Feedback-Reminder/backend-rag-final/api2.py:45-50 | the confused face is the only sticker labelled `slightly_negative` |
| StickerTally.Scan | Track1_Patient-Feedback-Reminder/backend-rag-final/api2.py:68-74 | the tally loop fails iff a found sticker has no tally slot. Otherwise it lists the found stickers in table order and counts each sentiment among them |
| StickerTally.Majority | Track1_Patient-Feedback-Reminder/backend-rag-final/api2.py:76-82 | positive iff more positive than negative stickers, negative iff more negative, neutral iff tied |
| StickerTally.ExtractStickerSentiment | Track1_Patient-Feedback-Reminder/backend-rag-final/api2.py:63-88 | empty text gives neutral with no stickers and no scores. Otherwise the found stickers, their counts and the majority vote over them |
| StickerTally.ConfusedFaceIsFatal | Track1_Patient-Feedback-Reminder/backend-rag-final/api2.py:71-74 | the tally raises exactly on a non-empty text containing the confused face |
| StickerTally.FoundStickersInTableOrder | Track1_Patient-Feedback-Reminder/backend-rag-final/api2.py:71-73 | the reported stickers occur in the text, come in table order and repeat none |
| JsonValues.AtLeast | Track1_Patient-Feedback-Reminder/backend-rag-final/api2.py:242 | comparing the emotional intensity raises exactly when it is not a number |
| Risk.Assess | Track1_Patient-Feedback-Reminder/backend-rag-final/api2.py:221-255 | the factors are exactly the raised checks, in check order. The score is their weight sum capped at 10; the level is high iff the uncapped sum ≥ 7, medium iff 4..6, low otherwise |
| Risk.Checks | Track1_Patient-Feedback-Reminder/backend-rag-final/api2.py:225-249 | each check reads its field with the source's default: wait 0, rating 5, intensity 0. The intensity comparison raises on a non-number |
| Risk.AssessRisk | Track1_Patient-Feedback-Reminder/backend-rag-final/api2.py:219-255 | the assessment raises iff the intensity is not a number. Each factor is listed iff its condition holds, in check order. Score and level are as in `Risk.Assess` |
| Risk.EmergencyImpliesNegative | Track1_Patient-Feedback-Reminder/backend-rag-final/api2.py:236-249 | the emergency factor never appears without the negative-sentiment factor, and the score never exceeds 10 |
| Risk.AllFactorsCapped | Track1_Patient-Feedback-Reminder/backend-rag-final/api2.py:221-253 | with all five checks raised the sum is 14, the score is capped at 10 and the level is high |
| Recommendations.GenerateRecommendations | Track1_Patient-Feedback-Reminder/backend-rag-final/api2.py:257-286 | at most 5 items. A wait over 45 puts the two wait items first, and otherwise the delay item is absent. The department item is last iff the department is listed. The list is empty iff the wait is ≤ 45, the sentiment is neither negative nor positive and the department is unlisted |
| Recommendations.SentimentItemsExclusive | Track1_Patient-Feedback-Reminder/backend-rag-final/api2.py:270-276 | the follow-up and training items appear iff the sentiment is negative, and the praise and best-practice items iff it is positive, so never both kinds |
| Analysis.FallbackAnalysis | Track1_Patient-Feedback-Reminder/backend-rag-final/api2.py:288-316 | the fallback has risk score 2, level low and the single factor `manual_review_needed`, the fixed fallback `ai_analysis`, and the manual-analysis recommendation. It keeps the ids, the sticker tally and the contextual data |
| Analysis.AnalyzeFeedbackSentiment | Track1_Patient-Feedback-Reminder/backend-rag-final/api2.py:90-193 | the tally's error escapes, since the tally runs outside the guarded block. Manual review is flagged iff the model raised or the risk comparison raised, and then the result is exactly the fallback analysis. Either way the analysis carries the feedback's and patient's ids, empty when missing. Otherwise the reply's analysis is scored and the recommendations are derived from it |
| Analysis.ParseFallbackReadings | Track1_Patient-Feedback-Reminder/backend-rag-final/api2.py:206-217 | the parse fallback reads as intensity 5 and neutral sentiment |
| Analysis.ParseFallbackRaisesFeedbackOnly | Track1_Patient-Feedback-Reminder/backend-rag-final/api2.py:206-249 | scored against the parse fallback, only the wait-time and low-rating factors can be raised |
| Analysis.UnparsableReplyScoresFeedbackOnly | Track1_Patient-Feedback-Reminder/backend-rag-final/api2.py:165-217 | a reply without a decodable object is analysed from the parse fallback. Only the feedback's own wait time and rating can raise risk, and no sentiment-driven recommendation is made |
| Analysis.MissingRatingDefaultsDisagree | Track1_Patient-Feedback-Reminder/backend-rag-final/api2.py:229-234 | with no rating, the contextual data reports 0 (line 98) while the assessment reads 5, so a missing rating is never low. This shows only on a direct call: the `/api/sentiment` route (lines 1017-1026) fills a missing rating in with 0, which counts as low |
| Corpus.ChunkParamsFor | Track1_Patient-Feedback-Reminder/backend-rag-final/api2.py:414-421 | workbook text is split 8000/500, every other source type 10000/1000 |
| Corpus.KindsDisjoint | Track1_Patient-Feedback-Reminder/backend-rag-final/api2.py:437-452 | no file name passes both the PDF and the workbook extension filter |
| Corpus.Collect | Track1_Patient-Feedback-Reminder/backend-rag-final/api2.py:435-462 | one directory's loop succeeds iff the directory is absent, or listable with every eligible file stat'able. It then records exactly the eligible files' fingerprints |
| Corpus.FilesChanged | Track1_Patient-Feedback-Reminder/backend-rag-final/api2.py:429-489 | reports a change iff the reference `Unchanged` fails. That is: a directory is unreadable, a current file lacks a matching cached fingerprint (PDF cache first), or the cached and current name sets differ |
| Corpus.NewFileIsChange | Track1_Patient-Feedback-Reminder/backend-rag-final/api2.py:465-469 | a current file without a cache entry is a change |
| Corpus.DeletedFileIsChange | Track1_Patient-Feedback-Reminder/backend-rag-final/api2.py:477-482 | a cached name whose file is gone is a change |
| Corpus.InaccessibleFileIsChange | Track1_Patient-Feedback-Reminder/backend-rag-final/api2.py:439-447 | an eligible file that cannot be stat'ed is a change even when cached |
| Corpus.ToleranceIsInclusive | Track1_Patient-Feedback-Reminder/backend-rag-final/api2.py:471-473 | a drift of exactly one second either way matches; one more millisecond does not |
| Corpus.MissingFingerprintIsZero | Track1_Patient-Feedback-Reminder/backend-rag-final/api2.py:472-473 | an entry lacking time and size matches only an empty file within one second of the epoch |
| Rebuild.Eligibles | Track1_Patient-Feedback-Reminder/backend-rag-final/api2.py:499-501 | the files processed are exactly the listed names with the kind's extension, case-insensitively |
| Rebuild.Refresh | Track1_Patient-Feedback-Reminder/backend-rag-final/api2.py:605-629 | an entry is kept iff its file still exists. Kept entries keep their chunk count and carry the file's current fingerprint |
| Rebuild.SaveMetadataIdempotent | Track1_Patient-Feedback-Reminder/backend-rag-final/api2.py:602-629 | saving the metadata twice gives the same cache as saving it once |
| Rebuild.LoadAndProcessFiles | Track1_Patient-Feedback-Reminder/backend-rag-final/api2.py:491-600 | the rebuild fails to list iff a directory is unlistable. It yields no index and no error, with the cache untouched, iff there are no eligible files. An index is produced only when the store can be built, and it is never empty. It has as many metadata records as chunks, since the store refuses lists of unequal length |
| Rebuild.LoadOrCreate | Track1_Patient-Feedback-Reminder/backend-rag-final/api2.py:658-707 | the cached index is kept iff both artifacts load, the test query succeeds and the files are unchanged; it is then returned with its cache. A missing artifact or an index that fails to load leads to one rebuild from empty caches. Unreadable metadata leads to a rebuild from empty caches inside the guarded block, retried once on failure. A failed test query or changed files lead to a rebuild from the loaded cache, also retried once |
| Rebuild.RebuildIgnoresCache | Track1_Patient-Feedback-Reminder/backend-rag-final/api2.py:499-600 | the rebuild's result (index, nothing, or error) never depends on the cache it starts from |
| Rebuild.RetryRepeatsContentFailure | Track1_Patient-Feedback-Reminder/backend-rag-final/api2.py:702-704 | a rebuild that failed for want of a listing or of content fails the same way when retried |
| Rebuild.RetryAfterStoreFailure | Track1_Patient-Feedback-Reminder/backend-rag-final/api2.py:702-704 | after a failed store build, the retry ends exactly where a first attempt with the retry's store outcome would have |
| Rebuild.PdfWritesKeys | Track1_Patient-Feedback-Reminder/backend-rag-final/api2.py:518-531 | the PDF loop writes an entry exactly for files that yield text and can be stat'ed |
| Rebuild.ExcelWritesKeys | Track1_Patient-Feedback-Reminder/backend-rag-final/api2.py:552-560 | the workbook loop writes an entry exactly for the workbooks that open |
| Rebuild.RebuiltCache | Track1_Patient-Feedback-Reminder/backend-rag-final/api2.py:514-629 | after a successful rebuild a file has an entry iff it still exists and either had one or was recorded by its loop. Every entry carries the file's current fingerprint |
| Rebuild.SavedCacheMatchesDisk | Track1_Patient-Feedback-Reminder/backend-rag-final/api2.py:602-629 | on a consistent disk, the saved cache passes the change check, provided every current file ended up with an entry |
| Rebuild.SavedByMatchesDisk | Track1_Patient-Feedback-Reminder/backend-rag-final/api2.py:602-629 | any cache with the keys and fingerprints a rebuild saves passes the change check on a consistent disk, when every current file has an entry |
| Rebuild.SavedCoversFile | Track1_Patient-Feedback-Reminder/backend-rag-final/api2.py:602-629 | a current file that had or gains an entry has a matching fingerprint in the saved cache |
| Rebuild.SavedFileCurrent | Track1_Patient-Feedback-Reminder/backend-rag-final/api2.py:602-616 | every name the saved cache holds is a current file |
| Rebuild.SavedCacheIsReused | Track1_Patient-Feedback-Reminder/backend-rag-final/api2.py:658-697 | under the same conditions the next start keeps the saved index and cache |
| Rebuild.TextlessPdfForcesRebuild | Track1_Patient-Feedback-Reminder/backend-rag-final/api2.py:519-531 | a PDF without text never gets an entry. The saved cache therefore always reports a change, and the next start rebuilds instead of reusing the index |
| Rebuild.PdfsContents | Track1_Patient-Feedback-Reminder/backend-rag-final/api2.py:514-544 | the PDF loop appends each eligible file's chunks, in listing order, and each stat'able file's records |
| Rebuild.ExcelsContents | Track1_Patient-Feedback-Reminder/backend-rag-final/api2.py:547-573 | the workbook loop appends each eligible workbook's chunks, in listing order, and each stat'able workbook's records |
| Rebuild.MetasAlign | Track1_Patient-Feedback-Reminder/backend-rag-final/api2.py:520-568 | records never outnumber chunks. A file that gave chunks but could not be stat'ed leaves fewer records; when every such file could be stat'ed there are as many, and equal counts mean each file has one record per chunk, numbered from 0 |
| Rebuild.IndexContents | Track1_Patient-Feedback-Reminder/backend-rag-final/api2.py:514-581 | the index holds the chunks of the eligible files, PDFs first and each kind in listing order. Its metadata is each file's records, numbered 0, 1, 2, ... and naming that file and its kind |
| Rebuild.IndexWellFormed | Track1_Patient-Feedback-Reminder/backend-rag-final/api2.py:514-581 | chunks and metadata pair one to one. Each record names an eligible listed file of its kind, and its chunk is that file's chunk at the record's number. The record previews its chunk: 100 characters, plus "..." when cut |
| Rebuild.UnstattablePdfFailsStore | Track1_Patient-Feedback-Reminder/backend-rag-final/api2.py:520-581 | a listed PDF that yields chunks but cannot be stat'ed leaves more chunks than metadata records, so building the store fails |
| Rebuild.UnstattablePdfFailsRetry | Track1_Patient-Feedback-Reminder/backend-rag-final/api2.py:520-581 | such a PDF also makes the handler's retry fail, so the rebuild ends in the store failure |
| Rebuild.NoValidContentIff | Track1_Patient-Feedback-Reminder/backend-rag-final/api2.py:575-600 | the rebuild raises "No valid content found" iff there are eligible files and every one yields no chunk |
| Rebuild.LoopsIndexable | Track1_Patient-Feedback-Reminder/backend-rag-final/api2.py:514-581 | the two loops give a non-empty list of chunks with one record each exactly when some file yields a chunk and every file that does can be stat'ed |
| Rebuild.RebuildSucceedsIff | Track1_Patient-Feedback-Reminder/backend-rag-final/api2.py:491-600 | the rebuild produces an index exactly when both directories can be listed, some eligible file yields a chunk, every file that yields chunks can be stat'ed, and the store can be built |
| Query.CollectSources | Track1_Patient-Feedback-Reminder/backend-rag-final/api2.py:775-787 | a name is among the PDF (workbook) sources iff some retrieved document of that type carries it |
| Query.Query | Track1_Patient-Feedback-Reminder/backend-rag-final/api2.py:757-811 | a blank question is refused as a bad request and an uninitialised service as an internal error, both before retrieval; a retrieval failure becomes an internal error with its message. Otherwise the answer, the document count, the deduplicated sources and at most two passages with their previews |
| Query.Passages | Track1_Patient-Feedback-Reminder/backend-rag-final/api2.py:797-803 | the relevant passages are the first two retrieved documents (fewer if fewer were found), each with its source, type and preview |
| Query.PassagePreviewBounded | Track1_Patient-Feedback-Reminder/backend-rag-final/api2.py:797-802 | a preview has at most 203 characters, begins with the passage text, and is the passage itself when it has at most 200 |
| Query.WebhookReply | Track1_Patient-Feedback-Reminder/backend-rag-final/api2.py:1074-1105 | no service gives the unavailability notice. An empty message gets the greeting and a failed query the apology. Otherwise the answer is sent, cut to 1500 characters plus the contact suffix when longer |
| Query.WebhookReplyBounded | Track1_Patient-Feedback-Reminder/backend-rag-final/api2.py:1094-1096 | an answer of at most 1500 characters is sent unchanged; a longer one becomes its first 1500 characters plus the suffix |
| Query.NormalizeRecipient | Track1_Patient-Feedback-Reminder/backend-rag-final/api2.py:852-853 | the recipient always carries the `whatsapp:` prefix: a prefixed number is unchanged and any other gets the prefix in front |
| Query.NormalizeRecipientIdempotent | Track1_Patient-Feedback-Reminder/backend-rag-final/api2.py:852-853 | normalising a normalised recipient changes nothing |
| Query.SendParams | Track1_Patient-Feedback-Reminder/backend-rag-final/api2.py:852-862 | the recipient is normalised. The sender is prefixed unconditionally. A media list is attached iff a non-empty media URL is given, and it then holds exactly that URL |
| Query.SenderPrefixDoubles | Track1_Patient-Feedback-Reminder/backend-rag-final/api2.py:855-858 | a sender number configured with the prefix is sent with it twice, while a prefixed recipient keeps one |

## Left out

- HTTP framing is not modelled: FastAPI and Flask routing, response envelopes and messages, and the 500 handlers of each route, which turn any exception the body raises (a database error or a programming error alike) into an error response.
- FeedbackStore.PostFeedback: reports success with the created row. The route declares `response_model=FeedbackOut` (Track1_Patient-Feedback-Reminder/backend/app/routes.py:15), whose required fields `id`, `patient_id`, `text`, `note` and `timestamp` (Track1_Patient-Feedback-Reminder/backend/app/models.py:35-45) are missing from the top level of the envelope it returns (Track1_Patient-Feedback-Reminder/backend/app/routes.py:49-54). FastAPI's response validation would then fail after the transaction has committed: every accepted feedback is stored, yet the client is answered with a server error.
- Concurrency is not modelled; calls are taken one at a time. Two concurrent analyses of the same feedback could both pass the check-then-insert guard, because the schema has no uniqueness constraint.
- The database layer is not modelled: the asyncpg pool, the table DDL, and timestamps that come from the database clock (the clock is a parameter).
- FeedbackStore.SaveAnalysisForFeedback, FeedbackStore.GetAllRecommendations: the store model assumes a JSON codec for the `jsonb` columns, and stored analyses are decoded JSON values. The code as written registers none. asyncpg's default `jsonb` encoding accepts only strings, so binding the `analysis` dict would raise and the route would answer 500 with nothing stored. Rows read back would be strings, so `isinstance(analysis, dict)` would never hold and the recommendations list would be empty.
- `backend/app/database.py`, `backend/main.py` and `backend/test_db_connection.py` are not part of this model: configuration and I/O only.
- Recall requests and personalised messages are not modelled. Only their tables exist; no operation on them appears in the code.
- The language-model call, its prompt and the regular-expression search in `_parse_ai_response` are not modelled. The reply is an input: raised, or a decoded object or none. Only the parse fallback constant is modelled.
- Clock readings and processing ids (`analysis_timestamp`, `processed_at`, `timestamp`, `processing_id`) are left out of the results.
- Analysis.AnalyzeFeedbackSentiment: feedback fields are typed (text, integers). A non-numeric wait time or rating, which would make a comparison raise inside the guarded block, is not modelled.
- Embeddings and the FAISS store are not modelled; building, saving and loading the store are booleans and results. The one store behaviour modelled is that building it from chunk texts and metadata records of unequal number raises. This check lives in the FAISS wrapper library, not in the code modelled here. PDF text extraction, workbook reading and the text splitting algorithm are abstract functions.
- Corpus.FilesChanged: modification times are whole milliseconds rather than floats, so the one-second tolerance is exactly 1000 ticks.
- The disk is static during one call. A file that appears, disappears or changes between two `stat` calls is not modelled.
- Rebuild.Refresh: an entry's path is its name joined to the directory of its kind. Entries without a `path` key (a hand-edited metadata file) and a directory setting changed between runs are not modelled.
- Rebuild.LoadAndProcessFiles: writing the metadata file is assumed to succeed. The source logs and ignores a write failure, so only the saved file would differ.
- Rebuild.LoadOrCreate: the parsed metadata is taken as the two caches. Keys other than `pdf_metadata`/`excel_metadata` and entry fields other than the chunk count and the fingerprint are dropped.
- `get_message_status`, the Twilio client call and its result dictionary are not modelled; `send_message` is modelled up to the parameters it hands to the transport.
- Query.WebhookReply: the webhook's outer exception handler is not modelled. Building the TwiML reply cannot fail in the model.
- `get_system_info`, `reload_system`, `upload_file`, `list_files`, `health_check` and the other Flask routes are not modelled. They are configuration and file I/O wrappers around the modelled operations.
- Validation.ValidateAnalysisOut: pydantic's coercions beyond integer to float are not modelled, such as numeric strings for `confidence_score`.
