/** Value types and string helpers shared by the loader, the vector store and the chain. */
module Common {

  datatype Option<T> = None | Some(value: T)

  /** The outcome of an operation that may raise; `Err` carries the exception raised. */
  datatype Result<T> = Ok(value: T) | Err(error: Error)

  /** The exceptions the modelled code raises or lets through. */
  datatype Error =
    | UnsupportedFileType(suffix: string)        // ValueError from load_document
    | LoadFailed                                 // a format loader raised
    | CountMismatch(documents: nat, ids: nat)    // ValueError from add_documents
    | ZeroBatchSize                              // ValueError from range() with a zero step
    | EmbeddingFailed                            // the embedding provider raised
    | DuplicateIds                               // the engine refused an id repeated in one batch
    | IdsAlreadyStored                           // the engine refused an id that is already stored
    | MissingIds                                 // the engine refused to delete an id it does not hold
    | NoUploadFile                               // ValueError from save_uploaded_file

  type Metadata = map<string, string>

  /** A LangChain document: its page text and its metadata. */
  datatype Document = Document(pageContent: string, metadata: Metadata)

  /** Python's `s.startswith(prefix)`. */
  predicate StartsWith(s: string, prefix: string) {
    |prefix| <= |s| && s[..|prefix|] == prefix
  }

  /** Python's `sep.join(parts)`. */
  function JoinWith(sep: string, parts: seq<string>): string {
    if parts == [] then ""
    else if |parts| == 1 then parts[0]
    else parts[0] + sep + JoinWith(sep, parts[1..])
  }

  predicate Distinct<T(==)>(s: seq<T>) {
    forall i, j :: 0 <= i < j < |s| ==> s[i] != s[j]
  }

  /** The concatenation of a sequence of sequences. */
  function Concat<T>(ss: seq<seq<T>>): seq<T> {
    if ss == [] then [] else ss[0] + Concat(ss[1..])
  }

  function Min(a: int, b: int): int { if a <= b then a else b }
}
