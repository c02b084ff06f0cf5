/** The processing pipeline (`DocumentProcessor` in
    backend/app/services/document_processor.py): status "processing",
    parse, chunk, embed, add to the vector store, insert the chunks, status
    "completed", save the index; any exception marks the document "failed"
    and is raised again. The parser and the embedding model are functions
    that may fail; the database is an abstract store whose calls may fail. */
module DocumentProcessing {
  import opened PyStrings
  import opened TextChunking
  import opened VectorStore

  // ---------------------------------------------------------------------
  // The database, as an abstract store.
  // ---------------------------------------------------------------------

  /** A row of the documents table, as far as the pipeline uses it. */
  datatype DocumentRow = DocumentRow(id: int, processingStatus: string, numChunks: Option<int>)

  /** A row of the document_chunks table. */
  datatype ChunkRow = ChunkRow(documentId: int, chunk: Chunk)

  /** The database calls, each of which may raise. A status update is
      told apart by the status it writes, so that one update of a run can
      raise while another succeeds. */
  datatype DbOp = UpdateStatusOp(status: string) | InsertChunksOp | ListDocumentsOp

  /** `update_document_status` on the rows: the row with that id gets the
      status, and the chunk count when one is given. */
  function UpdatedRows(rows: seq<DocumentRow>, id: int, status: string, numChunks: Option<int>): (r: seq<DocumentRow>)
    ensures |r| == |rows|
    ensures forall i :: 0 <= i < |rows| ==> r[i].id == rows[i].id
    ensures forall i :: 0 <= i < |rows| && rows[i].id != id ==> r[i] == rows[i]
    ensures forall i :: 0 <= i < |rows| && rows[i].id == id ==>
      r[i].processingStatus == status
      && r[i].numChunks == if numChunks.Some? then numChunks else rows[i].numChunks
  {
    seq(|rows|, i requires 0 <= i < |rows| =>
      if rows[i].id != id then rows[i]
      else rows[i].(processingStatus := status, numChunks := if numChunks.Some? then numChunks else rows[i].numChunks))
  }

  /** The document rows as the `try` block of `process_document` leaves
      them after `steps` calls: status "processing" from the second call
      on, and "completed" with the chunk count after the seventh. */
  function RowsAfterTry(rows: seq<DocumentRow>, id: int, steps: nat, numChunks: nat): (r: seq<DocumentRow>)
    ensures |r| == |rows|
    ensures forall i :: 0 <= i < |rows| && rows[i].id != id ==> r[i] == rows[i]
  {
    if steps <= 1 then rows
    else if steps <= 6 then UpdatedRows(rows, id, "processing", None)
    else UpdatedRows(UpdatedRows(rows, id, "processing", None), id, "completed", Some(numChunks))
  }

  class Database {
    var documents: seq<DocumentRow>
    var chunkRows: seq<ChunkRow>
    /** The calls that raise (a locked or unreachable database). */
    const failing: set<DbOp>

    constructor(documents: seq<DocumentRow>, failing: set<DbOp>)
      ensures this.documents == documents && chunkRows == [] && this.failing == failing
    {
      this.documents := documents;
      chunkRows := [];
      this.failing := failing;
    }

    /** `update_document_status`. */
    method UpdateDocumentStatus(id: int, status: string, numChunks: Option<int>) returns (outcome: Outcome<DbOp>)
      modifies this
      ensures outcome == if UpdateStatusOp(status) in failing then Fail(UpdateStatusOp(status)) else Pass
      ensures chunkRows == old(chunkRows)
      ensures documents == if outcome == Pass then UpdatedRows(old(documents), id, status, numChunks) else old(documents)
    {
      if UpdateStatusOp(status) in failing {
        return Fail(UpdateStatusOp(status));
      }
      documents := UpdatedRows(documents, id, status, numChunks);
      outcome := Pass;
    }

    /** `insert_document_chunks`: one row per chunk, in order. */
    method InsertDocumentChunks(id: int, chunks: seq<Chunk>) returns (outcome: Outcome<DbOp>)
      modifies this
      ensures outcome == if InsertChunksOp in failing then Fail(InsertChunksOp) else Pass
      ensures documents == old(documents)
      ensures chunkRows == if outcome == Pass then old(chunkRows) + RowsOf(id, chunks) else old(chunkRows)
    {
      if InsertChunksOp in failing {
        return Fail(InsertChunksOp);
      }
      for i := 0 to |chunks|
        invariant documents == old(documents)
        invariant chunkRows == old(chunkRows) + RowsOf(id, chunks[..i])
      {
        chunkRows := chunkRows + [ChunkRow(id, chunks[i])];
        assert RowsOf(id, chunks[..i + 1]) == RowsOf(id, chunks[..i]) + [ChunkRow(id, chunks[i])];
      }
      assert chunks[..|chunks|] == chunks;
      outcome := Pass;
    }

    /** `get_all_documents`. */
    method GetAllDocuments() returns (r: Result<seq<DocumentRow>, DbOp>)
      ensures r.Ok? <==> ListDocumentsOp !in failing
      ensures r.Ok? ==> r.value == documents
    {
      if ListDocumentsOp in failing {
        return Err(ListDocumentsOp);
      }
      r := Ok(documents);
    }
  }

  function RowsOf(id: int, chunks: seq<Chunk>): (r: seq<ChunkRow>)
    ensures |r| == |chunks|
    ensures forall i :: 0 <= i < |chunks| ==> r[i] == ChunkRow(id, chunks[i])
  {
    seq(|chunks|, i requires 0 <= i < |chunks| => ChunkRow(id, chunks[i]))
  }

  // ---------------------------------------------------------------------
  // process_document
  // ---------------------------------------------------------------------

  /** `os.path.join(directory, name)` on POSIX: an absolute name replaces
      the directory. */
  function JoinPath(directory: string, name: string): (r: string)
    ensures StartsWith(name, "/") ==> r == name
    ensures !StartsWith(name, "/") && directory != [] && directory[|directory| - 1] != '/' ==>
      r == directory + "/" + name
  {
    if StartsWith(name, "/") then name
    else if directory == [] || directory[|directory| - 1] == '/' then directory + name
    else directory + "/" + name
  }

  /** Where `process_document` reads the uploaded file: `data/documents`
      joined with the stored filename. */
  function DocumentPath(filename: string): string {
    JoinPath("data/documents", filename)
  }

  /** The exceptions `process_document` raises. */
  datatype Failure =
    | DatabaseError(op: DbOp)
    | ParseError(message: string)
    | NoChunks
    | EmbeddingError(message: string)
    | VectorStoreError(error: StoreError)

  /** A call the pipeline makes to a collaborator. */
  datatype Effect =
    | SetStatusCall(status: string, numChunks: Option<int>)
    | ParseCall(path: string)
    | EmbedCall(count: nat)
    | AddVectorsCall(count: nat)
    | InsertChunksCall(count: nat)
    | SaveIndexCall

  /** The calls of a run that succeeds with `n` chunks, in order. */
  function SuccessTrace(path: string, n: nat): (t: seq<Effect>)
    ensures |t| == 7 && t[0] == SetStatusCall("processing", None)
  {
    [ SetStatusCall("processing", None), ParseCall(path), EmbedCall(n), AddVectorsCall(n),
      InsertChunksCall(n), SetStatusCall("completed", Some(n)), SaveIndexCall ]
  }

  lemma {:induction false} SuccessTraceStart(path: string, n: nat)
    ensures SuccessTrace(path, n)[..1] == [SetStatusCall("processing", None)]
    ensures SuccessTrace(path, n)[..2] == [SetStatusCall("processing", None), ParseCall(path)]
  {
  }

  /** A trace extended by the next calls of a run is the longer prefix. */
  lemma {:induction false} SliceJoin(t: seq<Effect>, s: seq<Effect>, i: nat, j: nat)
    requires i <= j <= |s|
    ensures t + s[..i] + s[i..j] == t + s[..j]
  {
    assert s[..i] + s[i..j] == s[..j];
  }

  /** One vector-store metadata entry per chunk, in chunk order. */
  function VectorMetadata(documentId: int, filename: string, chunks: seq<Chunk>): (r: seq<Meta>)
    requires forall i :: 0 <= i < |chunks| ==> chunks[i].charCount.Some?
    ensures |r| == |chunks|
    ensures forall i :: 0 <= i < |chunks| ==>
      && r[i].Keys == {"document_id", "chunk_id", "text", "token_count", "char_count", "filename"}
      && r[i]["document_id"] == IntVal(documentId)
      && r[i]["chunk_id"] == IntVal(chunks[i].chunkId)
      && r[i]["text"] == StrVal(chunks[i].text)
      && r[i]["token_count"] == IntVal(chunks[i].tokenCount)
      && r[i]["char_count"] == IntVal(chunks[i].charCount.value)
      && r[i]["filename"] == StrVal(filename)
  {
    seq(|chunks|, i requires 0 <= i < |chunks| => EntryOf(documentId, filename, chunks[i]))
  }

  function EntryOf(documentId: int, filename: string, chunk: Chunk): Meta
    requires chunk.charCount.Some?
  {
    map["document_id" := IntVal(documentId), "chunk_id" := IntVal(chunk.chunkId),
        "text" := StrVal(chunk.text), "token_count" := IntVal(chunk.tokenCount),
        "char_count" := IntVal(chunk.charCount.value), "filename" := StrVal(filename)]
  }

  /** `[chunk['text'] for chunk in chunks]`. */
  function TextsOf(chunks: seq<Chunk>): (r: seq<string>)
    ensures |r| == |chunks|
    ensures forall i :: 0 <= i < |chunks| ==> r[i] == chunks[i].text
  {
    seq(|chunks|, i requires 0 <= i < |chunks| => chunks[i].text)
  }

  /** How far a run of the `try` block gets: the number of collaborator
      calls it makes, and how it ends. */
  datatype TryRun = TryRun(calls: nat, outcome: Outcome<Failure>)

  /** Every chunk carries the `char_count` that `chunk_document` adds. */
  predicate Sized(chunks: seq<Chunk>) {
    forall i :: 0 <= i < |chunks| ==> chunks[i].charCount.Some?
  }

  class DocumentProcessor {
    /** `TextChunker(max_tokens=400, overlap_tokens=50)`. */
    const chunker: Chunker
    /** Its `chunk_document`, fixed when the processor is built. */
    const chunkDocument: string -> seq<Chunk>
    /** `DocumentParser.parse_document`: the text of the file at a path. */
    const parse: string -> Result<string, string>
    /** `generate_embeddings`: one vector per text. */
    const embed: seq<string> -> Result<seq<Vector>, string>
    const store: FAISSVectorStore
    const db: Database
    const disk: Disk
    /** The calls made so far. */
    ghost var trace: seq<Effect>

    constructor(countTokens: string -> nat, parse: string -> Result<string, string>,
                embed: seq<string> -> Result<seq<Vector>, string>,
                store: FAISSVectorStore, db: Database, disk: Disk)
      ensures chunker == Chunker(400, 50, countTokens)
      ensures forall text :: chunkDocument(text) == ChunksOf(chunker, text)
      ensures forall text :: Sized(chunkDocument(text))
      ensures this.parse == parse && this.embed == embed
      ensures this.store == store && this.db == db && this.disk == disk
      ensures trace == []
    {
      var cfg := Chunker(400, 50, countTokens);
      chunker := cfg;
      chunkDocument := text => ChunksOf(cfg, text);
      this.parse := parse;
      this.embed := embed;
      this.store := store;
      this.db := db;
      this.disk := disk;
      trace := [];
    }

    /** The loop that prepares `vector_metadata`. */
    method BuildVectorMetadata(documentId: int, filename: string, chunks: seq<Chunk>) returns (entries: seq<Meta>)
      requires forall i :: 0 <= i < |chunks| ==> chunks[i].charCount.Some?
      ensures entries == VectorMetadata(documentId, filename, chunks)
    {
      entries := [];
      for i := 0 to |chunks|
        invariant entries == VectorMetadata(documentId, filename, chunks[..i])
      {
        var chunk := chunks[i];
        entries := entries + [map["document_id" := IntVal(documentId), "chunk_id" := IntVal(chunk.chunkId),
                                  "text" := StrVal(chunk.text), "token_count" := IntVal(chunk.tokenCount),
                                  "char_count" := IntVal(chunk.charCount.value), "filename" := StrVal(filename)]];
        assert VectorMetadata(documentId, filename, chunks[..i + 1])
          == VectorMetadata(documentId, filename, chunks[..i]) + [EntryOf(documentId, filename, chunk)];
      }
      assert chunks[..|chunks|] == chunks;
    }

    /** The `try` block of `process_document` on the file at `path`, told
        from what each collaborator does: the first call that raises
        decides the exception, and the run passes when none does. `calls`
        is the number of collaborator calls made. */
    ghost function TryBlock(path: string): (r: TryRun)
      reads store, disk
      ensures 1 <= r.calls <= 7
      ensures r.outcome == Pass ==> r.calls == 7
      ensures r.outcome == Pass <==>
        && UpdateStatusOp("processing") !in db.failing
        && parse(path).Ok?
        && chunkDocument(parse(path).value) != []
        && embed(TextsOf(chunkDocument(parse(path).value))).Ok?
        && (var vectors := embed(TextsOf(chunkDocument(parse(path).value))).value;
            forall j :: 0 <= j < |vectors| ==> |vectors[j]| == store.Start(disk).index.dimension)
        && InsertChunksOp !in db.failing
        && UpdateStatusOp("completed") !in db.failing
        && SaveFault(store.indexPath, store.metadataPath, disk.unwritable) == Pass
    {
      if UpdateStatusOp("processing") in db.failing then TryRun(1, Fail(DatabaseError(UpdateStatusOp("processing"))))
      else if parse(path).Err? then TryRun(2, Fail(ParseError(parse(path).error)))
      else
        var chunks := chunkDocument(parse(path).value);
        if chunks == [] then TryRun(2, Fail(NoChunks))
        else match embed(TextsOf(chunks))
          case Err(message) => TryRun(3, Fail(EmbeddingError(message)))
          case Ok(vectors) =>
            var d := store.Start(disk).index.dimension;
            var i := FirstMisfit(vectors, d);
            if i < |vectors| then TryRun(4, Fail(VectorStoreError(DimensionMismatch(d, |vectors[i]|))))
            else if InsertChunksOp in db.failing then TryRun(5, Fail(DatabaseError(InsertChunksOp)))
            else if UpdateStatusOp("completed") in db.failing then TryRun(6, Fail(DatabaseError(UpdateStatusOp("completed"))))
            else match SaveFault(store.indexPath, store.metadataPath, disk.unwritable)
              case Fail(e) => TryRun(7, Fail(VectorStoreError(e)))
              case Pass => TryRun(7, Pass)
    }

    /** Embedding and `add_vectors`, stopping at the first that raises.
        `done` is the number of calls made. */
    method StoreVectors(documentId: int, filename: string, path: string, chunks: seq<Chunk>)
      returns (outcome: Outcome<Failure>, ghost done: nat)
      requires forall i :: 0 <= i < |chunks| ==> chunks[i].charCount.Some?
      modifies this, store
      ensures done == 1 || done == 2
      ensures trace == old(trace) + SuccessTrace(path, |chunks|)[2..2 + done]
      ensures done == 1 <==> embed(TextsOf(chunks)).Err?
      ensures done == 1 ==> outcome == Fail(EmbeddingError(embed(TextsOf(chunks)).error)) && unchanged(store)
      ensures done == 2 ==>
        var vectors := embed(TextsOf(chunks)).value;
        var d := old(store.Start(disk)).index.dimension;
        var i := FirstMisfit(vectors, d);
        && store.index.Some?
        && (outcome == Pass <==> i == |vectors|)
        && (outcome.Fail? ==>
              && i < |vectors|
              && outcome == Fail(VectorStoreError(DimensionMismatch(d, |vectors[i]|)))
              && store.Current() == old(store.Start(disk)))
      ensures outcome == Pass ==>
        && done == 2
        && store.index.Some?
        && store.metadata == old(store.Start(disk)).metadata
             + Tagged(VectorMetadata(documentId, filename, chunks), old(store.Start(disk)).nextId)
    {
      ghost var run := SuccessTrace(path, |chunks|);
      done := 1;
      trace := trace + [EmbedCall(|chunks|)];
      assert trace == old(trace) + run[2..3];
      var texts := TextsOf(chunks);
      var embedded := embed(texts);
      if embedded.Err? {
        return Fail(EmbeddingError(embedded.error)), done;
      }

      var entries := BuildVectorMetadata(documentId, filename, chunks);
      done := 2;
      trace := trace + [AddVectorsCall(|chunks|)];
      assert trace == old(trace) + run[2..4];
      var added := store.AddVectors(disk, embedded.value, entries);
      if added.Fail? {
        return Fail(VectorStoreError(added.error)), done;
      }
      outcome := Pass;
    }

    /** `insert_document_chunks`, status "completed" with the chunk count,
        and `save_index`, stopping at the first that raises. `done` is the
        number of calls made. */
    method RecordChunks(documentId: int, path: string, chunks: seq<Chunk>)
      returns (outcome: Outcome<Failure>, ghost done: nat)
      requires store.index.Some?
      modifies this, db, disk
      ensures 1 <= done <= 3
      ensures trace == old(trace) + SuccessTrace(path, |chunks|)[4..4 + done]
      ensures done == 1 <==> InsertChunksOp in db.failing
      ensures done == 1 ==>
        && outcome == Fail(DatabaseError(InsertChunksOp))
        && db.documents == old(db.documents) && db.chunkRows == old(db.chunkRows)
        && unchanged(disk)
      ensures done >= 2 ==> db.chunkRows == old(db.chunkRows) + RowsOf(documentId, chunks)
      ensures done == 2 <==> InsertChunksOp !in db.failing && UpdateStatusOp("completed") in db.failing
      ensures done == 2 ==>
        outcome == Fail(DatabaseError(UpdateStatusOp("completed"))) && db.documents == old(db.documents) && unchanged(disk)
      ensures done == 3 ==>
        var saved := SaveFault(store.indexPath, store.metadataPath, disk.unwritable);
        && db.documents == UpdatedRows(old(db.documents), documentId, "completed", Some(|chunks|))
        && (outcome == Pass <==> saved == Pass)
        && (outcome.Fail? ==> outcome == Fail(VectorStoreError(saved.error)))
      ensures outcome == Pass ==>
        && done == 3
        && disk.files == Written(old(disk.files), store.indexPath, store.metadataPath, store.Current())
      ensures outcome.Fail? && done == 3 ==>
        disk.files == old(disk.files) || disk.files == old(disk.files)[store.indexPath := IndexFile(store.index.value)]
    {
      ghost var run := SuccessTrace(path, |chunks|);
      done := 1;
      trace := trace + [InsertChunksCall(|chunks|)];
      assert trace == old(trace) + run[4..5];
      var inserted := db.InsertDocumentChunks(documentId, chunks);
      if inserted.Fail? {
        return Fail(DatabaseError(inserted.error)), done;
      }

      done := 2;
      trace := trace + [SetStatusCall("completed", Some(|chunks|))];
      assert trace == old(trace) + run[4..6];
      var updated := db.UpdateDocumentStatus(documentId, "completed", Some(|chunks|));
      if updated.Fail? {
        return Fail(DatabaseError(updated.error)), done;
      }

      done := 3;
      trace := trace + [SaveIndexCall];
      assert trace == old(trace) + run[4..7];
      var saved := store.SaveIndex(disk);
      if saved.Fail? {
        return Fail(VectorStoreError(saved.error)), done;
      }
      outcome := Pass;
    }

    /** The first steps of the `try` block: status "processing", parse and
        chunk, stopping at the first that raises or at an empty chunk list.
        `steps` is the number of calls made. */
    method Prepare(documentId: int, path: string)
      returns (outcome: Outcome<Failure>, ghost steps: nat, chunks: seq<Chunk>)
      requires forall text :: Sized(chunkDocument(text))
      modifies this, db
      ensures steps == 1 || steps == 2
      ensures trace == old(trace) + SuccessTrace(path, |chunks|)[..steps]
      ensures steps == 1 <==> UpdateStatusOp("processing") in db.failing
      ensures steps == 1 ==> outcome == Fail(DatabaseError(UpdateStatusOp("processing"))) && db.documents == old(db.documents)
      ensures steps == 2 ==> db.documents == UpdatedRows(old(db.documents), documentId, "processing", None)
      ensures db.chunkRows == old(db.chunkRows)
      ensures steps == 2 && parse(path).Err? ==> outcome == Fail(ParseError(parse(path).error))
      ensures steps == 2 && parse(path).Ok? ==> chunks == chunkDocument(parse(path).value)
      ensures steps == 2 && parse(path).Ok? ==> (outcome == Pass <==> chunks != [])
      ensures steps == 2 && parse(path).Ok? && outcome.Fail? ==> outcome == Fail(NoChunks)
      ensures outcome == Pass ==> steps == 2 && parse(path).Ok?
      ensures forall i :: 0 <= i < |chunks| ==> chunks[i].charCount.Some?
    {
      chunks := [];
      steps := 1;
      trace := trace + [SetStatusCall("processing", None)];
      SuccessTraceStart(path, 0);
      var updated := db.UpdateDocumentStatus(documentId, "processing", None);
      if updated.Fail? {
        return Fail(DatabaseError(updated.error)), steps, chunks;
      }

      steps := 2;
      trace := trace + [ParseCall(path)];
      var parsed := parse(path);
      if parsed.Err? {
        return Fail(ParseError(parsed.error)), steps, chunks;
      }
      chunks := chunkDocument(parsed.value);
      SuccessTraceStart(path, |chunks|);
      outcome := if chunks == [] then Fail(NoChunks) else Pass;
    }

    /** The `try` block of `process_document`: the steps in order, stopping
        at the first that raises. `steps` is the number of calls made and
        `chunks` what the chunker returned. */
    method RunPipeline(documentId: int, filename: string, path: string)
      returns (outcome: Outcome<Failure>, ghost steps: nat, ghost chunks: seq<Chunk>)
      requires forall text :: Sized(chunkDocument(text))
      modifies this, db, store, disk
      ensures steps == old(TryBlock(path)).calls && outcome == old(TryBlock(path)).outcome
      ensures trace == old(trace) + SuccessTrace(path, |chunks|)[..steps]
      ensures steps >= 2 && parse(path).Ok? ==> chunks == chunkDocument(parse(path).value)
      ensures steps > 2 ==> chunks != []
      ensures forall i :: 0 <= i < |chunks| ==> chunks[i].charCount.Some?
      ensures steps == 1 ==> db.documents == old(db.documents)
      ensures 2 <= steps <= 6 ==> db.documents == UpdatedRows(old(db.documents), documentId, "processing", None)
      ensures steps == 7 ==>
        db.documents == UpdatedRows(UpdatedRows(old(db.documents), documentId, "processing", None),
                                    documentId, "completed", Some(|chunks|))
      ensures steps <= 5 ==> db.chunkRows == old(db.chunkRows)
      ensures steps >= 6 ==> db.chunkRows == old(db.chunkRows) + RowsOf(documentId, chunks)
      ensures steps <= 3 ==> unchanged(store)
      ensures steps == 4 ==> store.index.Some? && store.Current() == old(store.Start(disk))
      ensures steps >= 5 ==>
        && store.index.Some?
        && store.metadata == old(store.Start(disk)).metadata
             + Tagged(VectorMetadata(documentId, filename, chunks), old(store.Start(disk)).nextId)
      ensures steps <= 6 ==> unchanged(disk)
      ensures outcome == Pass ==>
        disk.files == Written(old(disk.files), store.indexPath, store.metadataPath, store.Current())
      ensures steps == 7 && outcome.Fail? ==>
        disk.files == old(disk.files) || disk.files == old(disk.files)[store.indexPath := IndexFile(store.index.value)]
    {
      var found;
      outcome, steps, found := Prepare(documentId, path);
      chunks := found;
      if outcome.Fail? {
        return;
      }

      ghost var run := SuccessTrace(path, |found|);
      ghost var before := old(trace);
      ghost var stored;
      outcome, stored := StoreVectors(documentId, filename, path, found);
      steps := 2 + stored;
      SliceJoin(before, run, 2, steps);
      if outcome.Fail? {
        return;
      }
      ghost var recorded;
      outcome, recorded := RecordChunks(documentId, path, found);
      steps := 4 + recorded;
      SliceJoin(before, run, 4, steps);
    }

    /** `process_document`: the pipeline, and on any exception the status
        "failed" and the exception raised again, unless that status update
        raises in its turn. */
    method ProcessDocument(documentId: int, filename: string)
      returns (outcome: Outcome<Failure>, ghost steps: nat, ghost chunks: seq<Chunk>)
      requires forall text :: Sized(chunkDocument(text))
      modifies this, db, store, disk
      ensures var run := old(TryBlock(DocumentPath(filename)));
        && steps == run.calls
        && (run.outcome == Pass ==> outcome == Pass)
        && (run.outcome.Fail? && UpdateStatusOp("failed") !in db.failing ==> outcome == run.outcome)
        && (run.outcome.Fail? && UpdateStatusOp("failed") in db.failing ==>
              outcome == Fail(DatabaseError(UpdateStatusOp("failed"))))
      ensures |trace| > |old(trace)| && trace[|old(trace)|] == SetStatusCall("processing", None)
      ensures outcome == Pass ==> steps == 7 && trace == old(trace) + SuccessTrace(DocumentPath(filename), |chunks|)
      ensures outcome.Fail? ==>
        trace == old(trace) + SuccessTrace(DocumentPath(filename), |chunks|)[..steps] + [SetStatusCall("failed", None)]
      ensures outcome.Fail? && UpdateStatusOp("failed") !in db.failing ==>
        forall i :: 0 <= i < |db.documents| && db.documents[i].id == documentId ==>
          db.documents[i].processingStatus == "failed"
      ensures outcome.Fail? && UpdateStatusOp("failed") !in db.failing ==>
        db.documents == UpdatedRows(RowsAfterTry(old(db.documents), documentId, steps, |chunks|), documentId, "failed", None)
      ensures outcome.Fail? && UpdateStatusOp("failed") in db.failing ==>
        db.documents == RowsAfterTry(old(db.documents), documentId, steps, |chunks|)
      ensures steps >= 2 && parse(DocumentPath(filename)).Ok? ==>
        chunks == chunkDocument(parse(DocumentPath(filename)).value)
      ensures forall i :: 0 <= i < |chunks| ==> chunks[i].charCount.Some?
      ensures steps <= 5 ==> db.chunkRows == old(db.chunkRows)
      ensures steps >= 6 ==> db.chunkRows == old(db.chunkRows) + RowsOf(documentId, chunks)
      ensures steps <= 3 ==> unchanged(store)
      ensures steps == 4 ==> store.index.Some? && store.Current() == old(store.Start(disk))
      ensures steps >= 5 ==>
        && store.index.Some?
        && store.metadata == old(store.Start(disk)).metadata
             + Tagged(VectorMetadata(documentId, filename, chunks), old(store.Start(disk)).nextId)
      ensures steps <= 6 ==> unchanged(disk)
      ensures steps == 7 && outcome.Fail? ==>
        disk.files == old(disk.files) || disk.files == old(disk.files)[store.indexPath := IndexFile(store.index.value)]
      ensures outcome == Pass ==>
        && db.documents == UpdatedRows(UpdatedRows(old(db.documents), documentId, "processing", None),
                                       documentId, "completed", Some(|chunks|))
        && store.index.Some?
        && store.metadata == old(store.Start(disk)).metadata
             + Tagged(VectorMetadata(documentId, filename, chunks), old(store.Start(disk)).nextId)
        && disk.files == Written(old(disk.files), store.indexPath, store.metadataPath, store.Current())
    {
      var path := DocumentPath(filename);
      outcome, steps, chunks := RunPipeline(documentId, filename, path);
      ghost var run := SuccessTrace(path, |chunks|);
      assert run[..steps][0] == run[0];
      if outcome.Fail? {
        outcome := MarkFailed(documentId, outcome.error);
      }
    }

    /** The `except` block of `process_document`: status "failed", then the
        exception raised again, or the handler's own if the update raises. */
    method MarkFailed(documentId: int, failure: Failure) returns (outcome: Outcome<Failure>)
      modifies this, db
      ensures trace == old(trace) + [SetStatusCall("failed", None)]
      ensures UpdateStatusOp("failed") !in db.failing ==>
        outcome == Fail(failure) && db.documents == UpdatedRows(old(db.documents), documentId, "failed", None)
      ensures UpdateStatusOp("failed") in db.failing ==>
        outcome == Fail(DatabaseError(UpdateStatusOp("failed"))) && db.documents == old(db.documents)
      ensures db.chunkRows == old(db.chunkRows)
    {
      trace := trace + [SetStatusCall("failed", None)];
      var updated := db.UpdateDocumentStatus(documentId, "failed", None);
      outcome := if updated.Fail? then Fail(DatabaseError(updated.error)) else Fail(failure);
    }

    /** `get_processing_stats`: reads the documents and the store, changes
        nothing. */
    method GetProcessingStats() returns (stats: Stats)
      ensures var listed := if ListDocumentsOp in db.failing then Err(ListDocumentsOp) else Ok(db.documents);
        stats == StatsOf(listed, store.TotalVectors())
    {
      var listed := db.GetAllDocuments();
      stats := StatsOf(listed, store.TotalVectors());
    }
  }

  // ---------------------------------------------------------------------
  // get_processing_stats
  // ---------------------------------------------------------------------

  datatype Stats =
    | Stats(totalDocuments: nat, pending: nat, processing: nat, completed: nat, failed: nat,
            totalChunks: int, totalVectors: nat)
    | StatsError(message: string, totalDocuments: nat, totalVectors: nat)

  /** The number of rows with status `name`. */
  function CountStatus(rows: seq<DocumentRow>, name: string): (c: nat)
    ensures c <= |rows|
  {
    if rows == [] then 0
    else CountStatus(rows[..|rows| - 1], name) + (if rows[|rows| - 1].processingStatus == name then 1 else 0)
  }

  predicate KnownStatus(name: string) {
    name == "pending" || name == "processing" || name == "completed" || name == "failed"
  }

  /** The number of rows whose status is none of the four. */
  function CountUnknown(rows: seq<DocumentRow>): (c: nat)
    ensures c <= |rows|
  {
    if rows == [] then 0
    else CountUnknown(rows[..|rows| - 1]) + (if KnownStatus(rows[|rows| - 1].processingStatus) then 0 else 1)
  }

  /** `sum(d['num_chunks'] or 0 for d in documents)`. */
  function TotalChunks(rows: seq<DocumentRow>): int {
    if rows == [] then 0
    else TotalChunks(rows[..|rows| - 1]) + (match rows[|rows| - 1].numChunks case Some(n) => n case None => 0)
  }

  /** The stats dictionary for a document listing (or the exception the
      listing raised) and the store's vector count. */
  function StatsOf(listed: Result<seq<DocumentRow>, DbOp>, totalVectors: nat): Stats {
    match listed
    case Err(_) => StatsError("database error", 0, 0)
    case Ok(rows) =>
      Stats(|rows|, CountStatus(rows, "pending"), CountStatus(rows, "processing"),
            CountStatus(rows, "completed"), CountStatus(rows, "failed"), TotalChunks(rows), totalVectors)
  }

  /** Every row is counted under exactly one of the four statuses or under
      none of them. */
  lemma {:induction false} CountsPartition(rows: seq<DocumentRow>)
    ensures CountStatus(rows, "pending") + CountStatus(rows, "processing") + CountStatus(rows, "completed")
      + CountStatus(rows, "failed") + CountUnknown(rows) == |rows|
  {
    if rows != [] {
      CountsPartition(rows[..|rows| - 1]);
    }
  }

  lemma {:induction false} CountUnknownZero(rows: seq<DocumentRow>)
    ensures CountUnknown(rows) == 0 <==> forall i :: 0 <= i < |rows| ==> KnownStatus(rows[i].processingStatus)
  {
    if rows != [] {
      CountUnknownZero(rows[..|rows| - 1]);
    }
  }

  /** The four status counts add up to at most the total, and to exactly the
      total when every status is one of the four. */
  lemma {:induction false} StatusCountsBounded(rows: seq<DocumentRow>, totalVectors: nat)
    ensures var s := StatsOf(Ok(rows), totalVectors);
      && s.pending + s.processing + s.completed + s.failed <= s.totalDocuments
      && (s.pending + s.processing + s.completed + s.failed == s.totalDocuments
          <==> forall i :: 0 <= i < |rows| ==> KnownStatus(rows[i].processingStatus))
  {
    CountsPartition(rows);
    CountUnknownZero(rows);
  }

  /** `total_chunks` counts a missing chunk count as 0, so with no negative
      counts it is never negative, and it only grows when rows are added. */
  lemma {:induction false} TotalChunksNonNegative(rows: seq<DocumentRow>)
    requires forall i :: 0 <= i < |rows| && rows[i].numChunks.Some? ==> rows[i].numChunks.value >= 0
    ensures TotalChunks(rows) >= 0
    ensures forall n :: 0 <= n <= |rows| ==> TotalChunks(rows[..n]) <= TotalChunks(rows)
  {
    if rows != [] {
      var init := rows[..|rows| - 1];
      TotalChunksNonNegative(init);
      forall n | 0 <= n <= |rows|
        ensures TotalChunks(rows[..n]) <= TotalChunks(rows)
      {
        if n < |rows| {
          assert rows[..n] == init[..n];
        } else {
          assert rows[..n] == rows;
        }
      }
    }
  }

  /** The rows with every missing chunk count written as 0. */
  function ZeroFilled(rows: seq<DocumentRow>): (r: seq<DocumentRow>)
    ensures |r| == |rows|
    ensures forall i :: 0 <= i < |rows| ==> r[i].numChunks.Some? && r[i].id == rows[i].id
  {
    seq(|rows|, i requires 0 <= i < |rows| =>
      rows[i].(numChunks := Some(match rows[i].numChunks case Some(n) => n case None => 0)))
  }

  /** `total_chunks` treats a missing chunk count exactly as 0. */
  lemma {:induction false} TotalChunksTreatsNoneAsZero(rows: seq<DocumentRow>)
    ensures TotalChunks(rows) == TotalChunks(ZeroFilled(rows))
  {
    if rows != [] {
      var init := rows[..|rows| - 1];
      TotalChunksTreatsNoneAsZero(init);
      assert ZeroFilled(rows)[..|rows| - 1] == ZeroFilled(init);
    }
  }

  /** A failed listing gives the error dictionary with zero totals. */
  lemma {:induction false} StatsOnError(op: DbOp, totalVectors: nat)
    ensures StatsOf(Err(op), totalVectors).StatsError?
    ensures StatsOf(Err(op), totalVectors).totalDocuments == 0
    ensures StatsOf(Err(op), totalVectors).totalVectors == 0
  {
  }
}
