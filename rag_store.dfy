/**
 * The index lifecycle of app/rag_store.py: the lazily created embedder and the
 * process-wide vector store, which is reused, loaded from the persisted FAISS
 * files, rejected as half-written, or built from the PDF knowledge base.
 *
 * The FAISS library, the SentenceTransformer model, the PDF loader and the
 * text splitter are not modelled; they appear only as the values they produce.
 */
module RagStore {
  import opened Wrappers

  /** The SentenceTransformer model the embedder is created with. */
  const EmbeddingModel := "all-MiniLM-L6-v2"

  /** A LangChain document: a loaded PDF page or a chunk split from one. */
  datatype Document = Document(pageContent: string, metadata: map<string, string>)

  /** The embedder object (HFEmbeddings); its identity is what the model tracks. */
  class Embeddings {
    const modelName: string

    constructor (modelName: string)
      ensures this.modelName == modelName
    {
      this.modelName := modelName;
    }
  }

  /** Where a vector store's contents came from. */
  datatype Origin =
    | FromDisk                            // FAISS.load_local over index.faiss and index.pkl
    | FromChunks(chunks: seq<Document>)   // FAISS.from_documents over the split chunks

  /** A FAISS vector store object, with the embedder it was created with. */
  class VectorStore {
    const embeddings: Embeddings
    const origin: Origin

    constructor (embeddings: Embeddings, origin: Origin)
      ensures this.embeddings == embeddings && this.origin == origin
    {
      this.embeddings := embeddings;
      this.origin := origin;
    }
  }

  /**
   * The part of the file system the lifecycle looks at: whether FAISS_DIR is a
   * directory, whether FAISS_DIR/index.faiss and FAISS_DIR/index.pkl exist,
   * whether KB_PATH is a directory, and the documents the PDF loader yields
   * from KB_PATH (empty when it holds no readable PDF). Both index files
   * live inside FAISS_DIR, so neither exists without the directory (Valid).
   */
  class FileSystem {
    var faissDirExists: bool
    var indexExists: bool
    var storeExists: bool
    var kbDirExists: bool
    var kbDocuments: seq<Document>

    constructor (faissDirExists: bool, indexExists: bool, storeExists: bool,
                 kbDirExists: bool, kbDocuments: seq<Document>)
      requires (indexExists || storeExists) ==> faissDirExists
      ensures Valid()
      ensures this.faissDirExists == faissDirExists && this.indexExists == indexExists
      ensures this.storeExists == storeExists && this.kbDirExists == kbDirExists
      ensures this.kbDocuments == kbDocuments
    {
      this.faissDirExists := faissDirExists;
      this.indexExists := indexExists;
      this.storeExists := storeExists;
      this.kbDirExists := kbDirExists;
      this.kbDocuments := kbDocuments;
    }

    /** FAISS_DIR/index.faiss and FAISS_DIR/index.pkl can exist only inside FAISS_DIR. */
    predicate Valid()
      reads this
    {
      (indexExists || storeExists) ==> faissDirExists
    }

    /** The directory exists and exactly one of the two index files does. */
    predicate PartialIndex()
      reads this
    {
      faissDirExists && indexExists != storeExists
    }

    /** The directory and both index files exist. */
    predicate CompleteIndex()
      reads this
    {
      faissDirExists && indexExists && storeExists
    }

    /** os.makedirs(FAISS_DIR, exist_ok=True) */
    method MakeDirs()
      requires Valid()
      modifies this
      ensures Valid()
      ensures faissDirExists
      ensures indexExists == old(indexExists) && storeExists == old(storeExists)
      ensures kbDirExists == old(kbDirExists) && kbDocuments == old(kbDocuments)
    {
      faissDirExists := true;
    }

    /** save_local(FAISS_DIR): writes index.faiss and index.pkl. */
    method SaveLocal()
      requires Valid() && faissDirExists
      modifies this
      ensures Valid()
      ensures indexExists && storeExists
      ensures faissDirExists == old(faissDirExists)
      ensures kbDirExists == old(kbDirExists) && kbDocuments == old(kbDocuments)
    {
      indexExists, storeExists := true, true;
    }
  }

  /** The exception classes build_or_load_vectorstore raises. */
  datatype Exception = RuntimeError | FileNotFoundError | ValueError

  /** What one call of build_or_load_vectorstore does: the store it returns or the error it raises. */
  datatype Outcome =
    | Reused(store: VectorStore)                   // the in-memory store, returned as is
    | Loaded(store: VectorStore)                   // loaded from the persisted index
    | Built(store: VectorStore)                    // built from the knowledge base and saved
    | Corrupted(indexExists: bool, storeExists: bool) // only one of the index files exists
    | KbMissing                                    // KB_PATH is not a directory
    | NoDocs                                       // the loader found no documents
    | NoChunks                                     // the documents split into no chunks
  {
    predicate IsSuccess()
    {
      Reused? || Loaded? || Built?
    }

    /** The Python exception class an error outcome stands for. */
    function Raised(): (e: Option<Exception>)
      ensures e.None? <==> IsSuccess()
      ensures e == Some(RuntimeError) <==> Corrupted?
      ensures e == Some(FileNotFoundError) <==> KbMissing? || NoDocs?
      ensures e == Some(ValueError) <==> NoChunks?
    {
      match this
      case Corrupted(_, _) => Some(RuntimeError)
      case KbMissing => Some(FileNotFoundError)
      case NoDocs => Some(FileNotFoundError)
      case NoChunks => Some(ValueError)
      case _ => None
    }
  }

  /**
   * The module state of app/rag_store.py in one process: the globals
   * `_vectorstore` and `_embeddings`, the file system it sees, and the
   * RecursiveCharacterTextSplitter (chunk_size=800, chunk_overlap=150), which
   * is a deterministic function of the loaded documents.
   */
  class IndexManager {
    var vectorstore: Option<VectorStore>
    var embeddings: Option<Embeddings>
    const fs: FileSystem
    const splitter: seq<Document> -> seq<Document>

    /** A store in memory was loaded or built with the process's embedder. */
    predicate Valid()
      reads this
    {
      vectorstore.Some? ==> embeddings.Some? && vectorstore.value.embeddings == embeddings.value
    }

    /** A freshly imported module: both globals are None. */
    constructor (fs: FileSystem, splitter: seq<Document> -> seq<Document>)
      ensures Valid()
      ensures vectorstore == None && embeddings == None
      ensures this.fs == fs && this.splitter == splitter
    {
      vectorstore := None;
      embeddings := None;
      this.fs := fs;
      this.splitter := splitter;
    }

    /** get_embeddings: creates the embedder on the first call only and returns it. */
    method GetEmbeddings() returns (e: Embeddings)
      requires Valid()
      modifies this`embeddings
      ensures Valid()
      ensures embeddings == Some(e)
      ensures old(embeddings).Some? ==> e == old(embeddings).value
      ensures old(embeddings).None? ==> fresh(e) && e.modelName == EmbeddingModel
    {
      if embeddings.None? {
        var created := new Embeddings(EmbeddingModel);
        embeddings := Some(created);
      }
      e := embeddings.value;
    }

    /**
     * build_or_load_vectorstore: reuse, else reject a half-written index, else
     * load, else build from the knowledge base (three error checks in order),
     * set the global and save.
     */
    method BuildOrLoadVectorstore() returns (outcome: Outcome)
      requires Valid() && fs.Valid()
      modifies this, fs
      ensures Valid() && fs.Valid()
      // a store in memory is returned as is, and nothing else happens
      ensures old(vectorstore).Some? ==>
        outcome == Reused(old(vectorstore).value) && embeddings == old(embeddings)
      // otherwise the embedder is obtained first: created once, reused after
      ensures old(vectorstore).None? ==> embeddings.Some?
      ensures old(embeddings).Some? ==> embeddings == old(embeddings)
      ensures old(vectorstore).None? && old(embeddings).None? ==>
        fresh(embeddings.value) && embeddings.value.modelName == EmbeddingModel
      // a half-written index is rejected with the two file flags in the message
      ensures old(vectorstore).None? && old(fs.PartialIndex()) ==>
        outcome == Corrupted(old(fs.indexExists), old(fs.storeExists))
      // a complete index is loaded with the embedder
      ensures old(vectorstore).None? && old(fs.CompleteIndex()) ==>
        outcome.Loaded? && fresh(outcome.store) && outcome.store.origin == FromDisk
      // otherwise the build path, with its three checks in order
      ensures old(vectorstore).None? && !old(fs.PartialIndex()) && !old(fs.CompleteIndex()) ==>
        if !old(fs.kbDirExists) then outcome == KbMissing
        else if old(fs.kbDocuments) == [] then outcome == NoDocs
        else if splitter(old(fs.kbDocuments)) == [] then outcome == NoChunks
        else outcome.Built? && fresh(outcome.store)
             && outcome.store.origin == FromChunks(splitter(old(fs.kbDocuments)))
      // every store returned, reused ones included, uses the process's embedder and is the global
      ensures outcome.IsSuccess() ==> outcome.store.embeddings == embeddings.value
      ensures outcome.IsSuccess() ==> vectorstore == Some(outcome.store)
      ensures !outcome.IsSuccess() ==> vectorstore == old(vectorstore)
      // only a build writes to disk: the directory and both index files
      ensures outcome.Built? ==> fs.faissDirExists && fs.indexExists && fs.storeExists
      ensures !outcome.Built? ==>
        fs.faissDirExists == old(fs.faissDirExists) &&
        fs.indexExists == old(fs.indexExists) && fs.storeExists == old(fs.storeExists)
      ensures fs.kbDirExists == old(fs.kbDirExists) && fs.kbDocuments == old(fs.kbDocuments)
    {
      if vectorstore.Some? {
        return Reused(vectorstore.value);
      }
      var emb := GetEmbeddings();

      var faissDirExists, indexExists, storeExists := fs.faissDirExists, fs.indexExists, fs.storeExists;
      if faissDirExists && indexExists != storeExists {
        return Corrupted(indexExists, storeExists);
      }
      if faissDirExists && indexExists && storeExists {
        var loaded := new VectorStore(emb, FromDisk);
        vectorstore := Some(loaded);
        return Loaded(loaded);
      }

      if !fs.kbDirExists {
        return KbMissing;
      }
      var docs := fs.kbDocuments;
      if docs == [] {
        return NoDocs;
      }
      var splitDocs := splitter(docs);
      if splitDocs == [] {
        return NoChunks;
      }
      var built := new VectorStore(emb, FromChunks(splitDocs));
      vectorstore := Some(built);
      fs.MakeDirs();
      fs.SaveLocal();
      return Built(built);
    }
  }

  /** build_or_load_vectorstore's decision on a fresh process over the given files. */
  predicate BuildsFresh(faissDir: bool, index: bool, store: bool, kbDir: bool,
                        docs: seq<Document>, splitter: seq<Document> -> seq<Document>)
  {
    // neither a partial nor a complete index on disk, and all three build checks pass
    !(faissDir && (index || store)) && kbDir && docs != [] && splitter(docs) != []
  }

  /**
   * Two calls in one process: once a call succeeds, the next returns the same
   * store object; once it fails, the next fails the same way, because nothing
   * was cached and nothing was written.
   */
  method CallTwice(faissDir: bool, index: bool, store: bool, kbDir: bool,
                   docs: seq<Document>, splitter: seq<Document> -> seq<Document>)
    returns (first: Outcome, second: Outcome)
    requires (index || store) ==> faissDir
    ensures first.IsSuccess() ==> second == Reused(first.store)
    ensures !first.IsSuccess() ==> second == first
    ensures first.Built? <==> BuildsFresh(faissDir, index, store, kbDir, docs, splitter)
  {
    var fs := new FileSystem(faissDir, index, store, kbDir, docs);
    var manager := new IndexManager(fs, splitter);
    first := manager.BuildOrLoadVectorstore();
    second := manager.BuildOrLoadVectorstore();
  }

  /**
   * A successful build persists the index, so a new process over the same
   * files takes the load branch instead of building again.
   */
  method RestartAfterBuild(faissDir: bool, index: bool, store: bool, kbDir: bool,
                           docs: seq<Document>, splitter: seq<Document> -> seq<Document>)
    returns (first: Outcome, restarted: Outcome)
    requires (index || store) ==> faissDir
    ensures first.Built? ==> restarted.Loaded? && restarted.store != first.store
    ensures first.Built? <==> BuildsFresh(faissDir, index, store, kbDir, docs, splitter)
  {
    var fs := new FileSystem(faissDir, index, store, kbDir, docs);
    var manager := new IndexManager(fs, splitter);
    first := manager.BuildOrLoadVectorstore();
    var next := new IndexManager(fs, splitter);
    restarted := next.BuildOrLoadVectorstore();
  }

  /**
   * get_embeddings is a singleton, and build_or_load_vectorstore obtains the
   * embedder before it checks the files: even a call rejected as corrupted
   * leaves the embedder created, and later calls share it.
   */
  method EmbeddingsOnce(faissDir: bool, index: bool, store: bool, kbDir: bool,
                        docs: seq<Document>, splitter: seq<Document> -> seq<Document>)
    returns (outcome: Outcome, created: Option<Embeddings>, a: Embeddings, b: Embeddings)
    requires (index || store) ==> faissDir
    ensures created.Some? && created.value.modelName == EmbeddingModel
    ensures a == created.value && b == created.value
    ensures outcome.Corrupted? <==> faissDir && index != store
  {
    var fs := new FileSystem(faissDir, index, store, kbDir, docs);
    var manager := new IndexManager(fs, splitter);
    outcome := manager.BuildOrLoadVectorstore();
    created := manager.embeddings;
    a := manager.GetEmbeddings();
    b := manager.GetEmbeddings();
  }
}
