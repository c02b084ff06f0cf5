# Document search backend: a Dafny model of its core

This project models the core of a document-search backend. Uploaded
documents are parsed, cut into overlapping chunks, embedded, stored in a
FAISS inner-product index with per-vector metadata, and searched by cosine
similarity. Requests are checked by a few validators on the way in.

The modules are:

- `PyStrings` (`py_strings.dfy`) holds the Python string operations the
  rest relies on: `str.strip` on Python's whitespace (the characters
  `str.isspace` accepts), ASCII `str.lower`,
  `startswith`, `join` and `Range`.
- `TextChunking` (`text_chunker.dfy`) models `TextChunker`:
  - paragraph splitting on blank lines (`re.split(r'\n\s*\n', ...)`);
  - greedy packing of paragraphs into chunks of at most `max_tokens`;
  - a sentence-based overlap of at most `overlap_tokens` carried into the
    next chunk;
  - the `char_count` and `has_overlap` fields added to each chunk.

  The tokenizer is a function parameter `countTokens`. The packing loop is
  stated for any overlap function; `chunk_document` uses it with
  `_create_overlap`.
- `VectorStore` (`vector_store.dfy`) models `FAISSVectorStore` as a class:
  - its index, metadata list and `next_id` counter are fields;
  - adding, searching, saving and loading change them;
  - the disk is a `Disk` object mapping paths to snapshots.

  An exact inner-product search ranks all stored vectors and returns the
  best `k`. The model proves that ranking is a sorted permutation, with equal
  scores in insertion order, and that the `k` returned are the best.
- `DocumentProcessing` (`document_processor.dfy`) models
  `DocumentProcessor`:
  - `process_document` is a method over the store, an abstract database and
    the disk;
  - the parser and the embedding model are functions that may fail;
  - every call the pipeline makes is recorded in a ghost trace;
  - `get_processing_stats` counts the documents by status.
- `ErrorHandlers` (`error_handlers.dfy`) models `validate_search_query` and
  `validate_file_upload`. Every `HTTPException` is an error value.
- `DocumentsApi` (`documents_api.dfy`) models `validate_file`, with POSIX
  `os.path.splitext`.
- `Performance` (`performance.dfy`) models the threshold rules of
  `PerformanceOptimizer`. It includes the corrected batch-size rule (see
  Findings).

Three behaviours of the code are easy to miss, and the model keeps them:

- The pipeline's `try` block covers every step, including the two status
  updates and `save_index`. A failure in any of them marks the document
  "failed".
- `add_vectors` does not check that the vectors and the metadata entries are
  equally many. In the model the stored vector count and `next_id` can
  therefore drift apart.
- `validate_file` accepts any content type that is a key of
  `MIME_TYPE_MAP`, whatever the extension. A `.docx` upload declared as
  `application/pdf` passes.

## Model

| member | source | states |
|---|---|---|
| `PyStrings.Strip` | backend/app/utils/text_chunker.py:28-29 | the result neither starts nor ends with whitespace and is no longer than the input |
| `PyStrings.LStripDropsSpace` | backend/app/utils/text_chunker.py:28-29 | what `lstrip` removes is whitespace |
| `PyStrings.RStripDropsSpace` | backend/app/utils/text_chunker.py:28-29 | what `rstrip` removes is whitespace |
| `PyStrings.SquashStrip` | backend/app/utils/text_chunker.py:28-29 | stripping removes no non-whitespace character |
| `PyStrings.StripEmptyIffAllSpace` | backend/app/utils/error_handlers.py:73 | `s.strip()` is empty exactly when `s` is all whitespace |
| `PyStrings.LowerIdempotent` | backend/app/api/documents.py:39 | lower-casing twice is lower-casing once |
| `TextChunking.SplitOnBlankLines` | backend/app/utils/text_chunker.py:28 | the split always gives at least one piece |
| `TextChunking.SplitOnBlankLinesRejoins` | backend/app/utils/text_chunker.py:28 | the pieces joined with the matches cut out between them give the text back |
| `TextChunking.BlankLineSeparatorsAreBlank` | backend/app/utils/text_chunker.py:28 | every match cut out is a newline, whitespace, and a newline |
| `TextChunking.SplitOnBlankLinesNoBlankLine` | backend/app/utils/text_chunker.py:28 | no piece holds two newlines with only whitespace between them, so every blank line was cut |
| `TextChunking.SplitOnBlankLinesGreedy` | backend/app/utils/text_chunker.py:28 | each match takes all the whitespace around it: no piece but the last has a newline followed only by whitespace, and no piece but the first has a newline preceded only by whitespace |
| `TextChunking.FirstBlankLineLeftmost` | backend/app/utils/text_chunker.py:28 | two newlines with only whitespace between them guarantee a match that starts no later than the first of them |
| `TextChunking.BlankLineGreedy` | backend/app/utils/text_chunker.py:28 | the whitespace after a match holds no further newline |
| `TextChunking.SplitByParagraphs` | backend/app/utils/text_chunker.py:21-29 | every paragraph is non-empty and neither starts nor ends with whitespace |
| `TextChunking.SplitOnBlankLinesKeepsText` | backend/app/utils/text_chunker.py:28 | splitting on blank lines loses and reorders no non-whitespace text |
| `TextChunking.StrippedNonEmptyKeepsText` | backend/app/utils/text_chunker.py:29 | dropping blank pieces and stripping the rest keeps the non-whitespace text |
| `TextChunking.ParagraphsAreStrippedAndNonEmpty` | backend/app/utils/text_chunker.py:21-29 | every paragraph is non-empty and has no surrounding whitespace |
| `TextChunking.ParagraphsKeepText` | backend/app/utils/text_chunker.py:21-29 | the paragraphs hold exactly the text's non-whitespace content, in order |
| `TextChunking.NoParagraphsIffBlank` | backend/app/utils/text_chunker.py:21-29 | there are no paragraphs exactly when the text is all whitespace |
| `TextChunking.SplitSentences` | backend/app/utils/text_chunker.py:81 | there is at least one piece, and no piece contains `.`, `!` or `?` |
| `TextChunking.SplitSentencesRejoins` | backend/app/utils/text_chunker.py:81 | the pieces joined with the runs cut out between them give the text back |
| `TextChunking.SentenceSeparatorsAreRuns` | backend/app/utils/text_chunker.py:81 | every run cut out is a non-empty run of `.`, `!` and `?` |
| `TextChunking.AcceptedFrom` | backend/app/utils/text_chunker.py:85-90 | the backward scan stops at the first sentence whose addition would exceed the overlap budget, and every accepted suffix fits it |
| `TextChunking.OverlapLoopStep` | backend/app/utils/text_chunker.py:85-90 | one iteration puts the next stripped sentence in front of the overlap; within the budget the scan goes on to the same stopping point, otherwise it stops there |
| `TextChunking.CreateOverlap` | backend/app/utils/text_chunker.py:75-92 | the loop computes the overlap function, and an empty text gives an empty overlap |
| `TextChunking.AccumulatedIsStripped` | backend/app/utils/text_chunker.py:86-92 | the accumulated overlap has no surrounding whitespace, so the final `strip` changes nothing |
| `TextChunking.OverlapIsAccumulated` | backend/app/utils/text_chunker.py:85-92 | the overlap is the accumulated sentences from where the scan stopped; the final `strip` changes nothing |
| `TextChunking.OverlapShape` | backend/app/utils/text_chunker.py:81-92 | the overlap is the `". "`-join of the stripped last sentences, taken from the last one that fits the budget |
| `TextChunking.OverlapWithinBudget` | backend/app/utils/text_chunker.py:75-92 | a non-empty overlap has at most `overlap_tokens` tokens |
| `TextChunking.CreateChunksWithOverlap` | backend/app/utils/text_chunker.py:31-73 | the loop computes the packing function; chunk `j` has id `j` and its token count is that of its text |
| `TextChunking.PackNumbered` | backend/app/utils/text_chunker.py:42-57 | chunks are numbered 0, 1, 2, … with non-empty text and their own token counts, and a chunk over `max_tokens` holds exactly one paragraph |
| `TextChunking.StepCovers` | backend/app/utils/text_chunker.py:42-62 | one iteration adds the paragraph's index, and only it, after the indices seen so far, and leaves a non-empty current chunk |
| `TextChunking.PackCovers` | backend/app/utils/text_chunker.py:40-71 | the chunks' paragraph indices, in order, are exactly 0 … n-1, and there are no chunks exactly when there are no paragraphs |
| `TextChunking.PackTexts` | backend/app/utils/text_chunker.py:42-62 | each chunk's text is the overlap of the previous chunk followed by its own paragraphs joined with newlines |
| `TextChunking.AddChunkMetadata` | backend/app/utils/text_chunker.py:104-106 | every chunk gains `char_count` equal to its text length and `has_overlap` equal to `chunk_id > 0`; nothing else changes |
| `TextChunking.StampedPackFacts` | backend/app/utils/text_chunker.py:94-108 | the stamped chunks are numbered, counted, sized and overlap-flagged, and are empty exactly when the paragraphs are |
| `TextChunking.ChunkDocument` | backend/app/utils/text_chunker.py:94-108 | chunk `j` has id `j`, its own token count, `char_count` equal to its length and `has_overlap` equal to `j > 0` |
| `TextChunking.ChunksEmptyIffBlank` | backend/app/utils/text_chunker.py:94-108 | a document yields no chunks exactly when its text is all whitespace |
| `TextChunking.ChunkDocumentContent` | backend/app/utils/text_chunker.py:94-108 | every paragraph lands in exactly one chunk, in order, and each chunk's text is built from its paragraphs |
| `VectorStore.Normalize` | backend/app/services/vector_store.py:49-59 | a zero-norm vector is kept as it is, and any other vector is divided by its norm component by component |
| `VectorStore.NormalizeUnit` | backend/app/services/vector_store.py:49-59 | a normalised non-zero vector has squared length 1 |
| `VectorStore.NormalizeIdempotent` | backend/app/services/vector_store.py:49-59 | normalising twice is normalising once |
| `VectorStore.RankingSorted` | backend/app/services/vector_store.py:96 | the ranking lists every stored vector once, by non-increasing score, with equal scores in insertion order |
| `VectorStore.TopKSorted` | backend/app/services/vector_store.py:96 | the top `k` are distinct and in non-increasing score order |
| `VectorStore.TopKIsBest` | backend/app/services/vector_store.py:96 | a vector left out of the top `k` scores no higher than the last one returned, and is left out only when `k` results were returned |
| `VectorStore.MetadataPathOf` | backend/app/services/vector_store.py:19 | the metadata path extends the index path |
| `VectorStore.SaveLoadRoundTrip` | backend/app/services/vector_store.py:108-141 | loading what was saved gives back the index, metadata and `next_id` |
| `VectorStore.LoadFallsBack` | backend/app/services/vector_store.py:41-47 | a missing or unreadable file gives a fresh empty index |
| `VectorStore.Tagged` | backend/app/services/vector_store.py:75-78 | entry `j` gains `vector_id = next_id + j`, and its other keys keep their values |
| `VectorStore.TaggedAppend` | backend/app/services/vector_store.py:75-78 | tagging two batches one after the other is tagging their concatenation |
| `VectorStore.CollectShape` | backend/app/services/vector_store.py:99-106 | the results are the hits' metadata copies with their scores, and collection fails exactly when a hit has no metadata entry |
| `VectorStore.SearchFacts` | backend/app/services/vector_store.py:82-106 | a search returns `min(k, n)` results, best first, each with its own metadata and score, and nothing better was left out |
| `VectorStore.FirstMisfit` | backend/app/services/vector_store.py:72 | the position of the first vector whose dimension is not the index's, or the batch length when all fit |
| `VectorStore.SaveFault` | backend/app/services/vector_store.py:108-126 | a save succeeds exactly when the index path names a directory and neither file is unwritable |
| `VectorStore.FAISSVectorStore.constructor` | backend/app/services/vector_store.py:16-28 | a new store has no index, no metadata and `next_id` 0, with the metadata path derived from the index path |
| `VectorStore.FAISSVectorStore.TotalVectors` | backend/app/services/vector_store.py:143-144 | the count is 0 without an index and the number of stored vectors with one |
| `VectorStore.FAISSVectorStore.CreateIndex` | backend/app/services/vector_store.py:30-39 | the store holds a fresh empty index, empty metadata and `next_id` 0 |
| `VectorStore.FAISSVectorStore.LoadIndex` | backend/app/services/vector_store.py:128-141 | the store holds the saved snapshot, or a fresh index when reading fails |
| `VectorStore.FAISSVectorStore.LoadOrCreateIndex` | backend/app/services/vector_store.py:41-47 | the store holds the saved snapshot when both files exist and are readable, else a fresh index |
| `VectorStore.FAISSVectorStore.AddVectors` | backend/app/services/vector_store.py:61-80 | the add succeeds exactly when every vector has the index dimension. Then the normalised vectors are appended, the metadata gains the tagged batch and `next_id` advances by the batch size. Otherwise the error names the index dimension and that of the first vector that does not fit, and the opened state is kept |
| `VectorStore.FAISSVectorStore.Search` | backend/app/services/vector_store.py:82-106 | the result is the search specification of the current state |
| `VectorStore.FAISSVectorStore.SaveIndex` | backend/app/services/vector_store.py:108-126 | without an index nothing is written. With one, the outcome is `SaveFault`'s: success writes both snapshots; a missing directory or an unwritable index file writes nothing; an unwritable metadata file leaves the index file written |
| `VectorStore.SaveThenReopen` | backend/app/services/vector_store.py:108-141 | a new store opened after a successful save holds the same state |
| `DocumentProcessing.UpdatedRows` | backend/app/services/document_processor.py:41 | only the document's own row changes, to the new status, keeping its chunk count when none is given |
| `DocumentProcessing.Database.UpdateDocumentStatus` | backend/app/services/document_processor.py:41 | the update fails exactly when the database refuses it, and otherwise sets the row's status |
| `DocumentProcessing.Database.InsertDocumentChunks` | backend/app/services/document_processor.py:77 | on success one chunk row per chunk is appended; documents are untouched |
| `DocumentProcessing.Database.GetAllDocuments` | backend/app/services/document_processor.py:97 | the listing gives all document rows unless the database refuses |
| `DocumentProcessing.RowsOf` | backend/app/services/document_processor.py:77 | one chunk row per chunk, in order, tagged with the document id |
| `DocumentProcessing.JoinPath` | backend/app/services/document_processor.py:35 | an absolute name replaces the directory, and a relative one is joined under it with a slash |
| `DocumentProcessing.VectorMetadata` | backend/app/services/document_processor.py:61-70 | entry `i` has exactly the six keys, holding chunk `i`'s id, text, token and character counts, the document id and the filename |
| `DocumentProcessing.DocumentProcessor.constructor` | backend/app/services/document_processor.py:21-28 | the processor uses a chunker with `max_tokens` 400 and `overlap_tokens` 50, its chunking is that chunker's `chunk_document`, and every chunk carries a `char_count` |
| `DocumentProcessing.DocumentProcessor.BuildVectorMetadata` | backend/app/services/document_processor.py:61-70 | the loop builds the vector metadata for the chunks |
| `DocumentProcessing.TextsOf` | backend/app/services/document_processor.py:55 | the chunk texts, one per chunk, in order |
| `DocumentProcessing.DocumentProcessor.TryBlock` | backend/app/services/document_processor.py:37-84 | how many calls the `try` block makes and what it raises: it succeeds after all seven exactly when the "processing" update, the parse, a non-empty chunking, the embedding, a dimension check of every vector, the chunk insert, the "completed" update and the save all succeed; otherwise it stops at the first failing call with that call's error |
| `DocumentProcessing.DocumentProcessor.StoreVectors` | backend/app/services/document_processor.py:54-74 | an embedding failure raises the embedding error and leaves the store untouched; otherwise the add succeeds exactly when every vector has the index dimension, a failure names the first vector that does not fit and leaves the opened store, and success appends the tagged vector metadata |
| `DocumentProcessing.DocumentProcessor.RecordChunks` | backend/app/services/document_processor.py:76-83 | a refused chunk insert raises that database error and changes nothing; a refused "completed" update raises that error after the rows are inserted; otherwise the status becomes "completed" with the chunk count and the save's outcome is returned, with both files, none or only the index file written |
| `DocumentProcessing.DocumentProcessor.Prepare` | backend/app/services/document_processor.py:40-52 | a parse failure or an empty chunk list stops the pipeline with that error, after status "processing" |
| `DocumentProcessing.DocumentProcessor.RunPipeline` | backend/app/services/document_processor.py:37-84 | the number of calls and the outcome are `TryBlock`'s; the calls happen in the order of a successful run up to the one that fails; the documents, chunk rows, store and disk are stated for each stopping point: untouched before the step that changes them, and changed by it after |
| `DocumentProcessing.DocumentProcessor.MarkFailed` | backend/app/services/document_processor.py:86-92 | the status becomes "failed" and the original error is raised again; if that update itself fails, its database error is raised instead |
| `DocumentProcessing.DocumentProcessor.ProcessDocument` | backend/app/services/document_processor.py:30-92 | the outcome is `TryBlock`'s, except that a refused "failed" update replaces the error with its own. A success runs all seven calls, stores the vectors, inserts the chunks, marks the document "completed" and saves. A failure marks it "failed" after the calls made so far. The document rows are then those the `try` block left, with the document's status set to "failed", or left as they were when that update is refused. The chunk rows change only once the insert has run. The store is untouched before the add, holds the opened index after a failed add, and keeps the failed document's vectors and metadata after it. The disk is untouched before the save, and a failed save leaves it unchanged or with only the index file written |
| `DocumentProcessing.RowsAfterTry` | backend/app/services/document_processor.py:40-80 | the document rows after the `try` block stopped: only the document's own rows differ, with status "processing" from the second call and "completed" with the chunk count after the seventh |
| `DocumentProcessing.DocumentProcessor.GetProcessingStats` | backend/app/services/document_processor.py:94-117 | the statistics are those of the listed documents and the store's vector count, or the error form |
| `DocumentProcessing.CountsPartition` | backend/app/services/document_processor.py:100-104 | the four status counts plus the unknown-status count equal the number of documents |
| `DocumentProcessing.StatusCountsBounded` | backend/app/services/document_processor.py:100-104 | the four counts never exceed the total, and equal it exactly when every status is one of the four |
| `DocumentProcessing.TotalChunksNonNegative` | backend/app/services/document_processor.py:105 | with non-negative chunk counts the total is non-negative and grows with the rows |
| `DocumentProcessing.TotalChunksTreatsNoneAsZero` | backend/app/services/document_processor.py:105 | a missing chunk count adds nothing to the total |
| `DocumentProcessing.StatsOnError` | backend/app/services/document_processor.py:111-117 | a failed listing gives the error form with zero documents and zero vectors |
| `ErrorHandlers.Keep` | backend/app/utils/error_handlers.py:89 | the filter keeps only accepted characters and is no longer than its input |
| `ErrorHandlers.KeepAll` | backend/app/utils/error_handlers.py:89 | when every character is accepted the filter changes nothing |
| `ErrorHandlers.KeepPicks` | backend/app/utils/error_handlers.py:89 | the filter keeps exactly the accepted characters, in their original order |
| `ErrorHandlers.ValidateSearchQuery` | backend/app/utils/error_handlers.py:69-91 | a missing or blank query is refused as empty, and a stripped query over 500 characters as too long. Otherwise the result is the printable part of the stripped query |
| `ErrorHandlers.AcceptedQueryIsPrintablePart` | backend/app/utils/error_handlers.py:79-89 | an accepted query is the printable characters of the stripped query, all of them, in order |
| `ErrorHandlers.UnprintableQueryCleansToEmpty` | backend/app/utils/error_handlers.py:73-91 | a query of one unprintable non-space character passes the checks and comes back empty |
| `ErrorHandlers.ContainsIff` | backend/app/utils/error_handlers.py:113 | `part in s` holds exactly when `part` occurs at some position of `s` |
| `ErrorHandlers.ContainsAnyIff` | backend/app/utils/error_handlers.py:113 | `any(...)` holds exactly when one of the parts is contained |
| `ErrorHandlers.ValidateFileUpload` | backend/app/utils/error_handlers.py:93-117 | the size is checked first, then emptiness, then the refused substrings, and the upload passes exactly when all three pass |
| `ErrorHandlers.DottedNameAccepted` | backend/app/utils/error_handlers.py:112-117 | a name of two plain parts joined by one dot passes |
| `ErrorHandlers.RefusedCharRejected` | backend/app/utils/error_handlers.py:112-117 | a name holding any refused character is refused |
| `ErrorHandlers.FilenameExamples` | backend/app/utils/error_handlers.py:97-117 | `a..pdf` is refused, and an oversized file is refused for its size first |
| `DocumentsApi.RFind` | backend/app/api/documents.py:40 | the index of the last occurrence, or -1 when there is none |
| `DocumentsApi.SplitExt` | backend/app/api/documents.py:40 | root and extension concatenate to the path, and the extension is empty or starts with a dot |
| `DocumentsApi.SplitExtSingleDot` | backend/app/api/documents.py:40 | the extension holds no further dot and no slash |
| `DocumentsApi.SplitExtEmptyIff` | backend/app/api/documents.py:40 | the extension is empty exactly when no dot in the last component follows a character other than a dot |
| `DocumentsApi.ValidateFile` | backend/app/api/documents.py:33-64 | the error cases, each as an if-and-only-if: an unsupported extension, a refused content type (naming that type and the extension), a `None` size, a size over 50 MiB. A file is accepted exactly when none of them applies, and then its extension without the dot is returned |
| `DocumentsApi.CaseInsensitive` | backend/app/api/documents.py:39 | the filename's case does not matter |
| `DocumentsApi.AcceptedUploads` | backend/app/api/documents.py:42-64 | a supported extension, any content type the MIME check lets through (none, empty, mapped, `text/`, or any at all for `.txt`) and a size within the limit are accepted |
| `DocumentsApi.TextNeverMimeRefused` | backend/app/api/documents.py:49-55 | a `.txt` upload is never refused for its content type |
| `DocumentsApi.SizeLimitInclusive` | backend/app/api/documents.py:57-64 | exactly 50 MiB is accepted, and one byte more is refused as too large |
| `DocumentsApi.SplitExtOfName` | backend/app/api/documents.py:40 | `stem.ext` splits at its one dot |
| `DocumentsApi.ExtensionOfName` | backend/app/api/documents.py:39-40 | the extension of `stem.ext` is `.ext` lower-cased |
| `DocumentsApi.SplitExtOfHiddenName` | backend/app/api/documents.py:40 | a name with one leading dot has no extension |
| `DocumentsApi.HiddenFileRefused` | backend/app/api/documents.py:39-46 | a file named `.pdf` is refused as having an unsupported, empty extension |
| `Performance.OptimizeFaissIndex` | backend/app/utils/performance.py:67-79 | the flat index below 1000 vectors, IVF-flat below 10000, IVF-PQ from there, each as an if-and-only-if |
| `Performance.BatchSizeFor` | backend/app/utils/performance.py:59-65 | 32 above 6, 16 above 4 up to 6, and 8 otherwise, each as an if-and-only-if |
| `Performance.BatchSizeMonotone` | backend/app/utils/performance.py:59-65 | more memory never gives a smaller batch |
| `Performance.BatchSizeAsWritten` | backend/app/utils/performance.py:51-65 | the batch size with the byte count divided by 3072, as the code does |
| `Performance.BatchSize` | backend/app/utils/performance.py:51-65 | the batch size with the byte count divided by 2^30, as intended |
| `Performance.BatchSizeUnitMismatch` | backend/app/utils/performance.py:57 | as written, 1 GiB free gives 32 where the intended rule gives 8, and anything above 18432 bytes gives 32 |
| `Performance.BatchSizeBounds` | backend/app/utils/performance.py:51-65 | the corrected rule gives 8, 16 or 32 and is monotone in the free memory |
| `Performance.ShouldUseCpuOptimization` | backend/app/utils/performance.py:81-87 | an unknown CPU count is an error, and otherwise the answer is whether there are at least 4 CPUs |

## Left out

- The FastAPI routes, the search endpoint, application start-up and dependency wiring are not part of this model. Only `validate_file` is taken from backend/app/api/documents.py.
- The database (`DatabaseManager`) is an abstract store: a list of document rows, a list of chunk rows and a set of operations that fail. Its SQL is not modelled.
- The document parser and the embedding model are function parameters that may fail. Their output and document metadata are not modelled.
- FAISS is modelled as an exact flat inner-product index over real numbers. There is no float32 rounding, and ties in score are ordered by insertion, not by FAISS's own rule.
- The Euclidean norm is a function parameter, because square roots are not available on reals. The lemmas about it require it to be the square root of the sum of squares.
- Pickle and FAISS file formats are abstract snapshots in a `Disk` map.
- `os.makedirs` fails in the model only when the index path has no directory part. Other file-system errors are the `Disk` object's unwritable set.
- The tokenizer is a function parameter `countTokens`. `str.isprintable` is the parameter `isPrintable`.
- `Lower` folds ASCII letters only. Non-ASCII case folding cannot produce a supported extension.
- `monitor_performance`, `get_processing_recommendation` and the logging calls are left out. They compute nothing the rest uses.
- The readings from `psutil` (free memory, CPU count) are parameters.
- Concurrency between requests and `async` scheduling are left out.
- Aliasing is left out: `add_vectors` adds `vector_id` to the caller's dictionaries in place, and the model builds new entries instead.
- The numpy error on an empty batch of vectors is not modelled. An empty batch adds nothing.
- `load_index` takes the saved index as it is; its dimension is not compared with the store's.
- `VectorStore.FAISSVectorStore.Search`: searching with no index, with a query of the wrong dimension or with `k` below 1 gives an error value (`NoIndex`, `DimensionMismatch`, `NonPositiveK`). The code raises whatever Python or FAISS raises there.
- `DocumentProcessing.DocumentProcessor.GetProcessingStats`: the error form carries a fixed message, not the text of `str(e)`.
- `DocumentsApi.ValidateFile`: a missing filename (`None`) is not modelled; the filename is always a string.
- Default arguments are not modelled: `index_path="data/vectors/faiss_index"` of the store's constructor, `k=10` of `search`, and `max_tokens=400`, `overlap_tokens=50` of `TextChunker`. The model's constructors and `Search` take these values as parameters; `DocumentProcessor` passes 400 and 50 explicitly, as the code does.
- `DocumentProcessing.DocumentProcessor.ProcessDocument`: the exception it raises is the returned `Fail` value, and its message text is not modelled.
- `DocumentProcessing.Database`: whether a status update fails depends only on the status it writes, so a status that is refused is refused on every call. A database that refuses the same status once and accepts it later is not modelled.

## Findings

| source | as written | input that shows it | evidently intended | confidence | as-written member | corrected member |
|---|---|---|---|---|---|---|
| backend/app/utils/performance.py:57 | the free memory is divided by `1024*3` (3072), so "gigabytes" are really units of 3 KiB | 1 GiB of free memory gives batch size 32; any machine with more than 18432 bytes free gets 32 | dividing by `1024**3`: 1 GiB free gives 8, and 32 needs more than 6 GiB | high, not executed | `Performance.BatchSizeAsWritten` (shown by `Performance.BatchSizeUnitMismatch`) | `Performance.BatchSize` (proved in `Performance.BatchSizeBounds`) |
