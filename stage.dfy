/** Shared vocabulary of the stage signature builders: results, errors and
    the collaborators every instruction kind calls. */
module Stage {

  datatype Option<+T> = None | Some(value: T)

  datatype Result<+T, +E> = Success(value: T) | Failure(error: E)

  /** The errors a signature computation can end with. Causes reported by
      collaborators outside this core are kept as their message text; each
      failure of the glob checksum pipeline has a constructor of its own, so
      a caller can tell them apart without parsing messages. */
  datatype Error =
    | Upstream(cause: string)                      // reported by the shared base getDependencies
    | ContextDirFailed(cause: string)              // "unable to get build context dir"
    | StatGlobsFailed(cause: string)               // "unable to stat globs"
    | NoGlobMatches(globs: seq<string>)            // "no glob matches for globs"
    | StatGlobFailed(glob: string, cause: string)  // "unable to stat glob"
    | PathsChecksumFailed(cause: string)           // "unable to calculate build context paths checksum"
    | GlobsChecksumFailed(inner: Error)            // "unable to calculate build context globs checksum"

  /** The output of the shared base getDependencies: the leading tokens every
      instruction kind starts from, or the error it reported. */
  type BaseTokens = Result<seq<string>, Error>

  /** util.Sha256Hash: an uninterpreted function of the whole token sequence.
      Nothing is assumed about it beyond being a function. */
  type Hasher = seq<string> -> string

  /** The digest a GetDependencies returns for a token sequence (or its error). */
  function Digest(args: Result<seq<string>, Error>, hash: Hasher): Result<string, Error>
  {
    match args
    case Failure(e) => Failure(e)
    case Success(t) => Success(hash(t))
  }

  /** A failed token sequence is returned as that very error and no hash
      enters the result: any two hashers give the same outcome. */
  lemma FailureSkipsHash(args: Result<seq<string>, Error>, hash1: Hasher, hash2: Hasher)
    requires args.Failure?
    ensures Digest(args, hash1) == Failure(args.error)
    ensures Digest(args, hash1) == Digest(args, hash2)
  {
  }

  /** strings.HasPrefix */
  predicate HasPrefix(s: string, prefix: string)
  {
    |prefix| <= |s| && s[..|prefix|] == prefix
  }
}
