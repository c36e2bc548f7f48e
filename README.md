# norgopolis-breeze: the `parse-query` handler

This project models the core of the `Breeze` norgopolis module (`src/main.rs`):

- **Routing** in `Breeze::call`: the function name `parse-query` is served; any
  other name is answered with a `NotFound` status and no stream.
- **Per-file outcome** in the `parse_files` callback: every file that `parse_files`
  hands to the callback produces exactly one stream element. It is an
  `InvalidArgument` status carrying the compiler's message when `Query::new` fails. Otherwise it is a `{file, captures}` record.
- **Capture aggregation** inside the callback: a fresh `HashMap<String, Vec<String>>`
  is updated in place for every capture of every match the query cursor yields.
  Each capture's text is the source sliced at the capture's byte range. It is filed
  under `capture_names()[ix]` with `entry(..).and_modify(push).or_default()`.

The aggregation keeps the code's behaviour exactly. The first time a key is met,
`or_default` inserts an empty sequence, and that capture's text is dropped. Every
capture of one yielded match is filed under the single key `names[ix]`.

Files:

- `captures.dfy` (module `Captures`): the fold as specification functions
  (`Entry`, `FoldCaptures`, `Aggregate`); the handler's loop as the method
  `CollectCaptures`, proved equal to `Aggregate`; and a reference description of
  the result. The reference is the flat stream of (key, snippet) filings in
  traversal order (`Filings`, `Under`, `Keys`). `AggregateShape` relates the map
  to it.
- `breeze.dfy` (module `Breeze`): request routing (`Call`), the callback
  (`ParseFileCallback`, specified by `FileOutcome`) and the emitted elements.

External collaborators are parameters. These are the decoded arguments or the
decoding error (`Decoded`), the outcome of `Query::new` (`CompiledQuery`), and, for
each file that `parse_files` hands to the callback, its path, its text and the
matches the cursor yields on its tree (`SourceFile`). Throughout, "files" means
these files. Whether every workspace file reaches the callback, an unreadable one
for instance, is decided by `parse_files`, which is not part of this model. The
result stream is the sequence of emitted elements.

Two behaviours of the code that a reader may not expect:

- A name `x` matching `"a"` and then `"b"` in two yielded matches gives
  `x -> ["b"]`. The first text is dropped by `or_default` (`FirstSnippetDropped`).
- `Query::new` runs inside the per-file callback. So a query that fails to compile
  gives one `InvalidArgument` element per file, on a stream that is already open
  (`CompileErrorOnEveryFile`).

The code has no per-file read or syntax error outcome, and its channel is unbounded.

## Model

| member | source | states |
|---|---|---|
| Captures.Snippet | src/main.rs:80-81 | a capture's text is the source between its start and end byte, so a zero-width range gives `""` |
| Captures.Entry | src/main.rs:83-86 | one `entry().and_modify(push).or_default()`: a present key gets the text appended at the end; an absent key gets an empty sequence and the text is dropped; the key set grows by exactly that key; every other key keeps its sequence |
| Captures.CollectCaptures | src/main.rs:71-90 | the handler's nested loop, updating a map in place, computes exactly the fold `Aggregate` |
| Captures.FoldCapturesEffect | src/main.rs:77-89 | one yielded match changes only the entry for `names[ix]`: an existing sequence grows by all the match's snippets in order, a new key gets all of them but the first, every other key and sequence is untouched, and a match with no captures changes nothing |
| Captures.MatchFilings | src/main.rs:74-84 | every capture of one yielded match is filed under the single name `names[ix]`, in order, with its own slice of the source |
| Captures.FoldCapturesFiles | src/main.rs:77-89 | the inner `fold` over one match equals applying the entry update to that match's filings in order |
| Captures.AggregateFiles | src/main.rs:74-90 | the whole loop equals applying the entry update to the file's flat stream of filings in traversal order, starting from an empty map |
| Captures.FoldFilingsAt | src/main.rs:83-86 | after a stream of entry updates, a key is present iff it was present or was filed; a present key gets all its filed snippets appended in order; a new key gets its filed snippets except the first |
| Captures.FilingKeys | src/main.rs:74-86 | a key is filed iff some yielded match with at least one capture has it as `names[ix]` |
| Captures.AggregateShape | src/main.rs:72-90 | after the loop the key set is exactly the `names[ix]` of yielded matches with captures, and each key holds every snippet filed under it in traversal order except the first (its length is the number of its captures minus one) |
| Captures.AggregateAppends | src/main.rs:74-87 | a further yielded match appends its snippets at the end of an existing key's sequence, gives a new key all its snippets but the first, adds or removes no other key and leaves every other key's sequence unchanged |
| Captures.FirstSnippetDropped | src/main.rs:83-86 | `x` matching `"a"` then `"b"` in two yielded matches yields `x -> ["b"]` |
| Breeze.FileOutcome | src/main.rs:62-97 | a file's element is an error iff the query fails to compile; the error is `InvalidArgument` with the compiler's message; a record names that file |
| Breeze.ParseFileCallback | src/main.rs:61-98 | the callback emits exactly the element `FileOutcome` describes, and its record's captures are the aggregated map of that file |
| Breeze.Emitted | src/main.rs:57-99 | the stream holds exactly one element per file, the callback's element for that file |
| Breeze.Call | src/main.rs:40-103 | the result is a `NotFound` error iff the function name is not `parse-query`, with the fixed message; a decoding error gives `InvalidArgument`; otherwise a stream with one callback element per file |
| Breeze.CompileErrorOnEveryFile | src/main.rs:62-68 | when the query fails to compile, the stream still opens, has one element per file, and every element is the `InvalidArgument` compile error; no captures are computed |
| Breeze.CompiledRecordsPerFile | src/main.rs:92-97 | when the query compiles, every element is a record naming its file and carrying that file's aggregated captures, and the recorded paths are the input paths, each once |

## Left out

- Module startup and the RPC service runtime (`main`, the `Service` plumbing): process and transport, not logic.
- MessagePack decoding and encoding: done by a library that is not part of this model. Decoding is a given outcome (`Decoded`). The `unwrap` of a missing argument payload and the `unwrap`s on encoding and on `send` panic; they are not modelled.
- Workspace file enumeration (`neorg_dirman`): file-system I/O. The files arrive as data.
- `ts_breeze::breeze::parse_files`, its worker pool and `num_jobs`: concurrency inside a crate that is not part of this model. `num_jobs` is carried in the arguments but has no effect in the model.
- Breeze.Emitted: lists the elements in file order. The real unbounded channel delivers them in completion order, which the model does not fix; `CompiledRecordsPerFile` states the path property as a multiset so that it holds for any order.
- Tree-sitter parsing, `Query::new` and `QueryCursor::captures`: foreign calls. Their results are inputs. The index yielded with each match is used as given. Which index the cursor yields, and how often a match is yielded, are properties of the cursor, which is not part of this model. The cursor yields a match once per capture, with `ix` that capture's position in the match; an input where one yielded element carries two captures under `ix` 0 (the first clause of `FirstSnippetDropped`) shows the fold, not a stream the cursor produces.
- One `Query::new` per file: a single compile outcome (`CompiledQuery`) stands for all files, while the code runs `Query::new` again in every callback. The two agree because `Query::new` depends only on the process's language and the request's query string, which are the same for every file.
- `to_string_lossy` on the file path: the path is an opaque string.
- Text encoding: the source is one character per byte. A Rust slice that does not fall on a UTF-8 character boundary panics; that case is not modelled. Slicing out of bounds and a capture-name index out of range panic; they are preconditions (`Indexable`, `CallbackSafe`).
