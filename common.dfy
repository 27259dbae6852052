/** Failure-carrying values shared by every module of the model, and the one
    error taxonomy the Swift sources throw (each module's private `Error`
    enum, Foundation's errors and the concurrency runtime's cancellation). */
module Common {

  datatype Option<+T> = None | Some(value: T)

  /** What a throwing Swift function produces: a value, or the error it threw. */
  datatype Result<+T> = Ok(value: T) | Err(error: Error)

  /** What a throwing Swift function returning `Void` produces. */
  datatype Outcome = Pass | Fail(error: Error)

  datatype Error =
    // FileManagerExtension.swift
    | NoBundleIdentifier
    | FileExistsAt(path: seq<string>)
    // Foundation's FileManager, reduced to why it refuses
    | DirectoryLookupFailed
    | IntermediateIsFile(path: seq<string>)
    | NoSuchItem(path: seq<string>)
    | ItemAlreadyExists(path: seq<string>)
    | NoParentDirectory(path: seq<string>)
    // URLSessionDownloadTaskExtension.swift, and URLSession's own failures
    | NoResponse
    | HttpStatus(statusCode: int)
    | Transport(code: int)
    // TranslatorService.swift and MainService.swift
    | NoModelAvailable
    // the concurrency runtime and the inference engine
    | Cancelled
    | ConstructionFailed
    | CompletionFailed
    // the purge operation Model.swift calls but CachedModel.swift does not define
    | PurgeFailed

  /** The optional value as a sequence of at most one element. */
  function OptionToSeq<T>(o: Option<T>): (s: seq<T>)
    ensures |s| <= 1
    ensures |s| == 1 <==> o.Some?
    ensures o.Some? ==> s[0] == o.value
  {
    match o
    case None => []
    case Some(v) => [v]
  }

  /** The fragments of a stream joined in order. */
  function Concat(fragments: seq<string>): string {
    if fragments == [] then "" else Concat(fragments[..|fragments| - 1]) + fragments[|fragments| - 1]
  }

  /** Joining one more fragment appends it. */
  lemma ConcatSnoc(fragments: seq<string>, fragment: string)
    ensures Concat(fragments + [fragment]) == Concat(fragments) + fragment
  {
    assert (fragments + [fragment])[..|fragments|] == fragments;
  }

  /** Joining is associative over a split of the fragments. */
  lemma {:induction false} ConcatAppend(a: seq<string>, b: seq<string>)
    ensures Concat(a + b) == Concat(a) + Concat(b)
    decreases |b|
  {
    if b == [] {
      assert a + b == a;
    } else {
      var init, last := b[..|b| - 1], b[|b| - 1];
      assert b == init + [last];
      assert a + b == (a + init) + [last];
      ConcatSnoc(a + init, last);
      ConcatAppend(a, init);
      ConcatSnoc(init, last);
    }
  }
}
