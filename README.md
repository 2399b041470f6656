# Stage signatures of ADD, ENTRYPOINT and STOPSIGNAL instructions

werf builds an image from a Dockerfile one stage per instruction. Each stage
has a signature, which is its cache key. For three instruction kinds this
project models how that signature is built in
`pkg/build/stage/instruction/`. Each kind takes the shared base tokens, appends
an `"Instruction"` discriminator, the instruction's name and its own labelled
fields in a fixed order, and hashes the whole token sequence.

- **ADD** (`add.dfy`, module `Add`) also splits its sources into local globs
  and remote `http://` / `https://` URLs. When at least one source is local,
  it appends `"SrcChecksum"` and the checksum of the build context for the
  local globs. That checksum comes from the pipeline of
  `calculateBuildContextGlobsChecksum`:
  1. get the extracted build-context directory;
  2. `Stat` the globs in that directory, with archive checking on;
  3. reject a failed `Stat`, an empty stat list, and the first stat that
     reports an error;
  4. flatten the matches in stat order;
  5. ask for the paths checksum of those matches.
- **ENTRYPOINT** (`entrypoint.dfy`) appends the command line and the
  shell-prepend flag, written as `"true"` or `"false"`.
- **STOPSIGNAL** (`stop_signal.dfy`) appends the signal.

`stage.dfy` holds the shared types. Errors are a structured `Error` datatype
with one constructor per failure, so the failures can be told apart. The
collaborators are parameters, and nothing is assumed about them:

- the shared base `getDependencies` is a value `BaseTokens` (tokens or error);
- `util.Sha256Hash` is a function `Hasher` of the token sequence;
- `ExtractOrGetExtractedDir` and `CalculatePathsChecksum` are the fields of
  `BuildContextArchive`;
- `copier.Stat` is a function `Stat`;
- the instruction's `Name()` is the `name` field of its data.

The hash is not assumed to be injective. "The provider is never called" is
stated as: the result is the same whatever that provider is. Each
`GetDependencies` method builds its token sequence by successive appends, as
the Go code does, and is proved equal to the hash of a specification
function `Args`. The properties are lemmas about `Args` and `GlobsChecksum`.
Identical inputs give identical digests because each `Args` is a function of
its inputs.

`kinds.dfy` proves that, over the same base tokens, the three kinds never
produce the same token sequence.

The checksum fails with `NoGlobMatches` only when `Stat` returns an empty
list (`len(globStats) == 0`, add.go:73). Stats that all succeed but match no
path still reach `CalculatePathsChecksum`, which is then given an empty list.
`Add.EmptyMatchesReachPathsChecksum` states that behaviour.

## Model

| member | source | states |
|---|---|---|
| `Add.GetDependencies` | pkg/build/stage/instruction/add.go:27-61 | The returned digest is the base error as it is, the wrapped glob-checksum error, or the hash of exactly the token sequence `Add.Args` describes. The filtering loop builds exactly `LocalGlobs(Src)`. |
| `Add.ArgsLayout` | pkg/build/stage/instruction/add.go:33-53 | On success the sequence is `base ++ ["Instruction", name, "Raw", raw, "Src"] ++ Src ++ ["Dst", dst, "Chown", chown, "Chmod", chmod]`. `["SrcChecksum", cs]` follows exactly when some source is local. `cs` is the glob checksum of the local sources with archive checking on. |
| `Add.SourcesVerbatim` | pkg/build/stage/instruction/add.go:35 | Every source, remote URLs included, appears verbatim at its original position right after the `"Src"` label. The base tokens stay an unchanged prefix. |
| `Add.LocalGlobsIsFilter` | pkg/build/stage/instruction/add.go:40-45 | `fileGlobSrc` is the subsequence of `Src` at strictly increasing positions. Those positions are exactly the sources that start with neither `http://` nor `https://`. |
| `Add.NoLocalGlobsIffAllRemote` | pkg/build/stage/instruction/add.go:40-47 | There is no local glob exactly when every source is a remote URL. |
| `Add.ChecksumIffLocalSource` | pkg/build/stage/instruction/add.go:47-53 | The sequence ends with a `"SrcChecksum"` pair iff some source is local. Its length is `|base| + 11 + |Src|`, plus 2 when the pair is present. |
| `Add.AllRemoteIgnoresBuildContext` | pkg/build/stage/instruction/add.go:47-53 | When every source is remote, the result is the same, for the same base tokens, for any build context archive and any `Stat`, so the checksum pipeline is never consulted. No checksum pair is appended. |
| `Add.ArgsErrors` | pkg/build/stage/instruction/add.go:28-49 | A base failure is returned as it is. Otherwise the result fails iff some source is local and the glob checksum fails, and the error is then that failure wrapped. |
| `Add.ArgsInjective` | pkg/build/stage/instruction/add.go:33-51 | Over one base, equal token sequences come from equal ADD fields and, when some source is local, from equal glob checksums. Changing any field, or the build-context checksum, changes the sequence that is hashed. |
| `Add.DecodeTokens` | pkg/build/stage/instruction/add.go:33-51 | The instruction's token contribution decodes back to its fields and to the optional checksum. The layout is unambiguous even though the number of sources is not written. |
| `Add.CalculateBuildContextGlobsChecksum` | pkg/build/stage/instruction/add.go:63-94 | The method, with its early returns and its nested match-collecting loop, returns exactly `GlobsChecksum`. |
| `Add.EarlyFailures` | pkg/build/stage/instruction/add.go:64-81 | A failed extraction, a failed `Stat`, an empty stat list and a per-glob error each give their own error. In each case the result is the same for any paths checksum provider, so `CalculatePathsChecksum` is never reached. |
| `Add.FirstStatErrorAborts` | pkg/build/stage/instruction/add.go:78-81 | When stat `k` is the first that reports an error, the result is that stat's glob and error, whatever the later stats say. |
| `Add.FirstFailedStat` | pkg/build/stage/instruction/add.go:78-81 | Gives the first position whose stat has an error, or the number of stats: every earlier stat has no error. |
| `Add.FirstFailedStatAt` | pkg/build/stage/instruction/add.go:78-81 | The first failing position is unique: any position with an error and no error before it is the one found. |
| `Add.GlobsChecksumSucceeds` | pkg/build/stage/instruction/add.go:64-93 | The pre-checks are: the context dir is available, `Stat` succeeds with at least one entry, and no entry reports an error. The result succeeds iff the pre-checks pass and the paths checksum of the flattened matches succeeds. A success carries that paths checksum unchanged. When the pre-checks pass and the paths checksum fails, its error is returned as `PathsChecksumFailed`. |
| `Add.FlattenAppend` | pkg/build/stage/instruction/add.go:77-86 | Flattening joins the `Globbed` lists in stat order: flattening a concatenation of stat lists concatenates their flattenings. |
| `Add.FlattenIsConcatenation` | pkg/build/stage/instruction/add.go:77-86 | Stat `k` contributes its whole `Globbed` list, duplicates kept, between the matches of the stats before it and those after it. |
| `Add.EmptyMatchesReachPathsChecksum` | pkg/build/stage/instruction/add.go:73-88 | Stats that all succeed but match nothing are not rejected. The result is then the paths checksum of the empty list. |
| `Add.NothingGlobbedFlattensToEmpty` | pkg/build/stage/instruction/add.go:83-85 | When no stat matched a path, the flattened matches are empty. |
| `Stage.FailureSkipsHash` | pkg/build/stage/instruction/entrypoint.go:26-34 | A failed token sequence is returned as that very error, and the result is the same for any hasher, so no hash enters it. This is the shared tail of all three `GetDependencies`. |
| `Entrypoint.GetDependencies` | pkg/build/stage/instruction/entrypoint.go:25-35 | The result is the base error as it is, with no hash computed, or the hash of exactly the sequence `Entrypoint.Args` describes. |
| `Entrypoint.ArgsLayout` | pkg/build/stage/instruction/entrypoint.go:26-33 | A base error passes through. On success the base is a prefix, followed by `"Instruction", name, "Entrypoint"`, the command line verbatim and in order, `"PrependShell"`, and `"true"` iff the flag is set (`"false"` iff it is not). The length is `|base| + 5 + |CmdLine|`. |
| `Entrypoint.FlipShellChangesOnlyLastToken` | pkg/build/stage/instruction/entrypoint.go:33 | Flipping `PrependShell` keeps the length and every token except the last, and changes the last. |
| `Entrypoint.ArgsInjective` | pkg/build/stage/instruction/entrypoint.go:31-33 | Over one base, equal token sequences come from equal name, command line and flag. |
| `Entrypoint.DecodeTokens` | pkg/build/stage/instruction/entrypoint.go:31-33 | The instruction's token contribution decodes back to its fields. |
| `StopSignal.GetDependencies` | pkg/build/stage/instruction/stop_signal.go:24-33 | The result is the base error as it is, with no hash computed, or the hash of exactly the sequence `StopSignal.Args` describes. |
| `StopSignal.ArgsLayout` | pkg/build/stage/instruction/stop_signal.go:25-31 | A base error passes through. On success the sequence is `base ++ ["Instruction", name, "Signal", signal]`, exactly 4 tokens longer than the base. |
| `StopSignal.SignalsDifferOnlyInLastToken` | pkg/build/stage/instruction/stop_signal.go:31 | Two signals give sequences that agree except in the final token, and differ there iff the signals differ. |
| `StopSignal.ArgsInjective` | pkg/build/stage/instruction/stop_signal.go:30-31 | Equal token sequences come from equal base, name and signal, because the suffix has a fixed length. |
| `Kinds.KindsNeverCollide` | pkg/build/stage/instruction/add.go:33-34 | Over one base, ADD, ENTRYPOINT and STOPSIGNAL sequences always differ: the token after the name is `"Raw"` (add.go:34), `"Entrypoint"` (entrypoint.go:31-32) or `"Signal"` (stop_signal.go:30-31). |

## Left out

- `util.Sha256Hash`, `copier.Stat`, `ExtractOrGetExtractedDir` and `CalculatePathsChecksum` are uninterpreted parameters. Their source is not part of this model, and they do filesystem I/O and hashing. In particular the model does not claim the hash is injective, and does not claim the paths checksum ignores the order of its input.
- `Base.getDependencies`, `NewBase`, `NewAdd`, `NewEntrypoint`, `NewStopSignal` and the backend instruction constructors are not part of this model. The base is an abstract token prefix or error. The base `getDependencies` also receives the build context archive (add.go:28); the model takes its outcome as given and does not relate it to the archive the checksum pipeline uses.
- The `Name()` methods of the parsed instructions are not part of this model. Each name is an opaque string field.
- Memoisation and concurrency of build-context extraction are not modelled. `ExtractOrGetExtractedDir` is one outcome value.
- The `context.Context` parameters carry cancellation only, and are left out.
- The text of error messages (`fmt.Errorf` formatting) is not modelled. Each error is a structured constructor that carries its cause. This includes `"unable to stat glob %q: %w"` applied to a string `Error`, which Go does not wrap as an error.
- Go strings are byte strings and need not be valid UTF-8; they become Dafny `string`. The model only compares strings for equality and tests the ASCII prefixes `http://` and `https://` in `Add.IsRemote`, so no behaviour is lost.
- The stage chain (linking a stage to its predecessor) is not in these files. The predecessor's influence is part of the abstract base tokens.
