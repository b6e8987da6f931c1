# QA assistant: index lifecycle and conversation reformatting

This project models the two pieces of sequential logic in the retrieval-augmented QA backend:

- **The index lifecycle** (`app/rag_store.py`).
  - `get_embeddings` creates the embedder lazily, once per process.
  - `build_or_load_vectorstore` makes an ordered decision on each call. It reuses the in-memory store, or rejects a half-written persisted index, or loads the FAISS index from disk, or builds it from the PDF knowledge base and saves it.
- **Conversation reformatting and context assembly** (`app/llm_client.py`).
  - `convert_history_for_langchain` splits the frontend messages into LangChain history pairs and the latest input.
  - `build_context` joins the retrieved chunk texts with `"\n\n---\n\n"`.

Files:

- `wrappers.dfy`: `Option` and `Result`.
- `rag_store.dfy`, module `RagStore`.
  - `IndexManager` is a class. Its fields `vectorstore` and `embeddings` are the module globals `_vectorstore` and `_embeddings`.
  - `FileSystem` is a class with four booleans: FAISS_DIR is a directory, `index.faiss` exists, `index.pkl` exists, KB_PATH is a directory. It also holds the documents the PDF loader would yield from KB_PATH.
  - `makedirs` and `save_local` set these booleans.
  - `FileSystem.Valid`: an index file exists only inside an existing FAISS_DIR. The constructor requires it, and every operation keeps it.
  - The text splitter is an opaque total function fixed when the manager is created.
  - `Embeddings` and `VectorStore` are classes, so "the same object" means reference equality.
  - Each call ends in one `Outcome`: `Reused | Loaded | Built | Corrupted | KbMissing | NoDocs | NoChunks`.
- `llm_client.dfy`, module `LlmClient`.
  - Messages are `map<string, string>`, the code's `Dict[str, str]`, so a missing `"role"` or `"content"` key is modelled as the `KeyError` the code raises.
  - Both transforms are methods with loops, proved against spec functions (`ConvertHistory`, `Join`). The lemmas beside them state the properties.

Two details of the code that the model keeps as written:

- **Corruption check.** The code also tests that FAISS_DIR is a directory (app/rag_store.py:106). This test never changes the outcome, because both index files are paths inside FAISS_DIR (app/rag_store.py:97-98), so neither can exist without the directory. `FileSystem.Valid` states this, and every file system in the model satisfies it. A half-written index is therefore always rejected, never rebuilt over.
- **Exception classes.** Corruption raises `RuntimeError`. A missing KB directory and zero documents both raise `FileNotFoundError`. Zero chunks raise `ValueError` (app/rag_store.py:82-86).

## Model

| member | source | states |
|---|---|---|
| `RagStore.IndexManager.constructor` | app/rag_store.py:58-61 | A freshly imported module has `_embeddings` and `_vectorstore` both `None`, so the invariant `Valid` holds: a store in memory was created with the process's embedder. |
| `RagStore.IndexManager.GetEmbeddings` | app/rag_store.py:64-70 | Creates an embedder for `all-MiniLM-L6-v2` only when none exists. After the call, `_embeddings` holds the returned instance. An existing instance is returned unchanged. `Valid` is preserved. |
| `RagStore.IndexManager.BuildOrLoadVectorstore` | app/rag_store.py:73-176 | The full decision, in order:<br>**Reuse:** a set `_vectorstore` is returned as `Reused`. The embedder, global and files are untouched.<br>**Embedder:** otherwise the embedder is obtained (created at most once) before any file check.<br>**Corrupted:** directory present and exactly one index file present gives `Corrupted` with both file flags. Nothing is set or written.<br>**Load:** directory and both files present gives a fresh store loaded from disk with the process's embedder. It is set as the global and nothing is written.<br>**Build:** otherwise the checks run in order. No KB directory gives `KbMissing`, no documents gives `NoDocs`, no chunks gives `NoChunks`; none of these sets the global or writes. If all pass, a fresh store is built from the split chunks and set as the global, and the directory and both index files are created.<br>Every success leaves `_vectorstore` holding the returned store. Every returned store, a reused one included, uses the process's embedder. Both `Valid` invariants, of the manager and of the file system, are preserved. |
| `RagStore.FileSystem.MakeDirs` | app/rag_store.py:170 | After the call FAISS_DIR exists. Nothing else changes. |
| `RagStore.FileSystem.SaveLocal` | app/rag_store.py:171-174 | Requires FAISS_DIR to exist, as `makedirs` just before it ensures. After the call `index.faiss` and `index.pkl` both exist. Nothing else changes, and `Valid` is kept. |
| `RagStore.Outcome.Raised` | app/rag_store.py:82-86 | An outcome raises exactly when it is not a success. `RuntimeError` is raised exactly for a half-written index, `FileNotFoundError` exactly for the missing-KB and no-documents outcomes, and `ValueError` exactly for zero chunks. |
| `RagStore.CallTwice` | app/rag_store.py:88-176 | Idempotence. After a successful call, the next call returns `Reused` of the identical store object. After a failed call, the next call fails identically, because nothing was cached or written. The first call builds exactly when neither a partial nor a complete index is on disk and all three build checks pass. |
| `RagStore.RestartAfterBuild` | app/rag_store.py:116-176 | After a successful build, a new process over the same files takes the load branch and gets a different store object. The build happens exactly when the build checks pass. |
| `RagStore.EmbeddingsOnce` | app/rag_store.py:64-112 | A first call creates the embedder whatever its outcome, including `Corrupted`. Later `get_embeddings` calls return that same instance. `Corrupted` happens exactly when the directory exists and exactly one index file exists. |
| `LlmClient.LangChainRole` | app/llm_client.py:84-87 | The role is always `"human"` or `"ai"`. It is `"human"` exactly when the frontend role is `"user"`. |
| `LlmClient.TurnKeyError` | app/llm_client.py:84-85 | Reading one history message raises no `KeyError` exactly when it has both keys. It raises `KeyError("role")` exactly when `"role"` is missing, because the role is read first. It raises `KeyError("content")` exactly when only `"content"` is missing. |
| `LlmClient.FirstKeyError` | app/llm_client.py:83-87 | No error exactly when every message has both keys. Otherwise the error is the failing lookup of some message, and every earlier message had both keys. |
| `LlmClient.FirstKeyErrorAt` | app/llm_client.py:83-87 | If messages before index i have both keys and message i lacks one, the first error is message i's. `"role"` is looked up before `"content"`. |
| `LlmClient.ConvertHistory` | app/llm_client.py:66-89 | No messages gives `([], "")`. Otherwise success holds exactly when the last message has `"content"` and every earlier message has both keys. On success:<br>- the latest input is the last message's content, whatever its role;<br>- there is one history pair per earlier message, in order;<br>- each pair's text is that message's content;<br>- each pair's role is `"human"` exactly when the message's role is `"user"`, else `"ai"`.<br>On failure, a last message lacking content gives `KeyError("content")`. Otherwise the error is the first failing lookup in the earlier messages. |
| `LlmClient.ConvertHistoryForLangChain` | app/llm_client.py:66-89 | The loop over `messages[:-1]`, appending pairs, computes exactly `ConvertHistory`, including which `KeyError` it raises. |
| `LlmClient.ConvertHistoryRoundTrip` | app/llm_client.py:66-89 | Consider a frontend conversation: messages with exactly `role` and `content`, roles `user`/`assistant`, and a last turn from the user. Converting it succeeds, and mapping the history and latest input back gives the original messages. |
| `LlmClient.Join` | app/llm_client.py:105 | Python's `sep.join(parts)`. No parts gives `""`. Otherwise the result starts with the first part. Its full layout is in `JoinEnd`, `JoinPartAt` and `JoinLength`. |
| `LlmClient.JoinEnd` | app/llm_client.py:105 | The joined string ends where the last part ends: its length is the last part's offset plus that part's length. |
| `LlmClient.JoinPartAt` | app/llm_client.py:105 | Part i sits at its offset in the joined string. Every part but the first has the separator immediately before it. |
| `LlmClient.JoinLength` | app/llm_client.py:105 | For n >= 1 parts, the joined string's length is the total length of the parts plus exactly n - 1 separators. |
| `LlmClient.BuildContext` | app/llm_client.py:100-106 | The context is the documents' page contents, in retrieval order, joined with `"\n\n---\n\n"`. No documents gives `""`. One document gives its content unchanged. |

## Left out

- FAISS is not modelled.
  - Similarity search, index construction and embedding of chunks (`FAISS.from_documents`) are foreign library code over floats. A built store records only the chunks it was built from.
  - (De)serialisation (`load_local`, `save_local`) is foreign library code too. A loaded store records only that it came from disk.
  - `get_retriever` and `as_retriever(k=4)` are left out for the same reason.
- `HFEmbeddings` encoding (SentenceTransformer) is a foreign model call. The embedder is an object with a model name.
- `DirectoryLoader`/`PyPDFLoader` and `RecursiveCharacterTextSplitter` are opaque library code. The loader's result is a field of the file system. The splitter (800/150, its separators) is an uninterpreted total function. Only the emptiness checks on their results are modelled.
- I/O failures are not modelled. `os.makedirs` failing because FAISS_DIR is a plain file, permission errors and a crash during `save_local` are all left out. In the code `_vectorstore` is set before saving, so such an error would leave the global set.
- Path computation and environment checks are configuration and OS calls. This covers FAISS_DIR and KB_PATH, and the GEMINI_API_KEY check at import time.
- The prompt template, the system prompt and the Gemini call in `get_qa_response` are string constants and a network call.
- `ConvertHistoryForLangChain`: models messages as `Dict[str, str]`. A list element that is not a dict, or a dict with non-string values, would raise `TypeError` or behave differently in Python; these cases are not modelled.
- `BuildContext`: takes the retriever's documents as input. It does not model the retriever call or the exceptions `build_or_load_vectorstore` can raise from inside `build_context`.
- `app/app.py` and `app/__init__.py` are HTTP plumbing. This includes the `isinstance(messages, list)` 400 check and the catch-all 500.
- Concurrency is not modelled. The code has no lock, so two first calls racing to build are not modelled.
