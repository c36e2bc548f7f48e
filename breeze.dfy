/**
 The `Breeze` service's `call`: routing on the function name and, for
 `parse-query`, the one stream element the `parse_files` callback emits per file.

 What lies outside the handler is given as data: the decoded arguments (or the
 decoding error), the outcome of compiling the request's query for the
 process's language, and the files `parse_files` hands to the callback, each
 with what the query cursor yields on its syntax tree. The result stream is
 modelled as the sequence of emitted elements, one per file, in file order.
 */
module Breeze {
  import opened Captures

  datatype Option<T> = None | Some(value: T)

  /** The status codes the service uses. */
  datatype Code = InvalidArgument | NotFound

  datatype Status = Status(code: Code, message: string)

  /** `Result<_, Status>`. */
  datatype Result<T> = Ok(value: T) | Err(status: Status)

  /** The arguments of a `parse-query` request. */
  datatype ParseQueryArguments = ParseQueryArguments(path: string, query: string, numJobs: Option<nat>)

  /** Outcome of decoding the request's arguments. */
  datatype Decoded = Decoded(args: ParseQueryArguments) | DecodeError(message: string)

  /** Outcome of `Query::new` for the process's language and the request's query. */
  datatype CompiledQuery = Compiled(captureNames: seq<string>) | CompileError(message: string)

  /** A file as the callback receives it: its path, its text, and the matches
      the query cursor yields on its tree. */
  datatype SourceFile = SourceFile(path: string, src: string, yielded: seq<YieldedMatch>)

  /** The record emitted for a file whose query compiled. */
  datatype ParseQueryResult = ParseQueryResult(file: string, captures: CaptureMap)

  type StreamElement = Result<ParseQueryResult>

  const ParseQueryName: string := "parse-query"
  const NotFoundMessage: string := "Requested function not found!"

  /** The callback only slices and indexes within bounds when the query compiled. */
  predicate CallbackSafe(query: CompiledQuery, file: SourceFile) {
    query.Compiled? ==> Indexable(file.yielded, query.captureNames, file.src)
  }

  /** The element the callback emits for one file: the compile error as an
      `InvalidArgument` status, or the file's record with its captures. */
  function FileOutcome(query: CompiledQuery, file: SourceFile): (e: StreamElement)
    requires CallbackSafe(query, file)
    ensures e.Err? <==> query.CompileError?
    ensures e.Err? ==> e.status == Status(InvalidArgument, query.message)
    ensures e.Ok? ==> e.value.file == file.path
  {
    match query
    case CompileError(message) => Err(Status(InvalidArgument, message))
    case Compiled(names) => Ok(ParseQueryResult(file.path, Aggregate(file.yielded, names, file.src)))
  }

  /** The `parse_files` callback for one file: on a compile error it emits the
      error and returns; otherwise it runs the capture loop and emits the
      record. */
  method ParseFileCallback(query: CompiledQuery, file: SourceFile) returns (sent: StreamElement)
    requires CallbackSafe(query, file)
    ensures sent == FileOutcome(query, file)
    ensures sent.Ok? ==> sent.value.captures == Aggregate(file.yielded, query.captureNames, file.src)
  {
    if query.CompileError? {
      sent := Err(Status(InvalidArgument, query.message));
      return;
    }
    var hashmap := CollectCaptures(file.yielded, query.captureNames, file.src);
    sent := Ok(ParseQueryResult(file.path, hashmap));
  }

  /** The elements of the result stream: one per file. */
  function Emitted(query: CompiledQuery, files: seq<SourceFile>): (s: seq<StreamElement>)
    requires forall i :: 0 <= i < |files| ==> CallbackSafe(query, files[i])
    ensures |s| == |files|
    ensures forall i :: 0 <= i < |files| ==> s[i] == FileOutcome(query, files[i])
  {
    seq(|files|, i requires 0 <= i < |files| => FileOutcome(query, files[i]))
  }

  /** `Breeze::call`: any function other than `parse-query` is `NotFound` and
      opens no stream; an argument decoding error is `InvalidArgument`;
      otherwise the stream carries the callback's element for every file. */
  function Call(name: string, decoded: Decoded, query: CompiledQuery, files: seq<SourceFile>)
    : (r: Result<seq<StreamElement>>)
    requires name == ParseQueryName && decoded.Decoded? ==>
               forall i :: 0 <= i < |files| ==> CallbackSafe(query, files[i])
    ensures r.Err? && r.status.code == NotFound <==> name != ParseQueryName
    ensures name != ParseQueryName ==> r == Err(Status(NotFound, NotFoundMessage))
    ensures name == ParseQueryName && decoded.DecodeError? ==>
              r == Err(Status(InvalidArgument, decoded.message))
    ensures name == ParseQueryName && decoded.Decoded? ==>
              r.Ok? && |r.value| == |files| &&
              forall i :: 0 <= i < |files| ==> r.value[i] == FileOutcome(query, files[i])
  {
    if name == ParseQueryName then
      match decoded
      case DecodeError(message) => Err(Status(InvalidArgument, message))
      case Decoded(_) => Ok(Emitted(query, files))
    else
      Err(Status(NotFound, NotFoundMessage))
  }

  /** A query that does not compile yields, for every file, an `InvalidArgument`
      element with the compiler's message, and no captures at all. */
  lemma CompileErrorOnEveryFile(name: string, decoded: Decoded, message: string, files: seq<SourceFile>)
    requires name == ParseQueryName && decoded.Decoded?
    ensures Call(name, decoded, CompileError(message), files).Ok?
    ensures forall e :: e in Call(name, decoded, CompileError(message), files).value ==>
              e == Err(Status(InvalidArgument, message))
    ensures |Call(name, decoded, CompileError(message), files).value| == |files|
  {
  }

  /** A query that compiles yields, for every file in order, a record naming
      that file and carrying its aggregated captures; so each file's path
      appears exactly once among the records, in the multiset sense. */
  lemma CompiledRecordsPerFile(name: string, decoded: Decoded, names: seq<string>, files: seq<SourceFile>)
    requires name == ParseQueryName && decoded.Decoded?
    requires forall i :: 0 <= i < |files| ==> Indexable(files[i].yielded, names, files[i].src)
    ensures Call(name, decoded, Compiled(names), files).Ok?
    ensures forall i :: 0 <= i < |files| ==>
              var e := Call(name, decoded, Compiled(names), files).value[i];
              e.Ok? && e.value.file == files[i].path &&
              e.value.captures == Aggregate(files[i].yielded, names, files[i].src)
    ensures multiset(Paths(Call(name, decoded, Compiled(names), files).value)) ==
              multiset(seq(|files|, i requires 0 <= i < |files| => files[i].path))
  {
    var s := Call(name, decoded, Compiled(names), files).value;
    assert Paths(s) == seq(|files|, i requires 0 <= i < |files| => files[i].path);
  }

  /** The file named by each record of a stream (the empty path for an error element). */
  function Paths(s: seq<StreamElement>): (ps: seq<string>)
    ensures |ps| == |s|
    ensures forall i :: 0 <= i < |s| && s[i].Ok? ==> ps[i] == s[i].value.file
  {
    seq(|s|, i requires 0 <= i < |s| => if s[i].Ok? then s[i].value.file else "")
  }
}
