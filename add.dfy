/** The ADD instruction's stage signature: its token layout, the split of its
    sources into local globs and remote URLs, and the build-context glob
    checksum that is folded in when some source is local. */
module Add {
  import opened Stage

  /** The fields of a parsed ADD instruction that enter its signature;
      `name` is what the instruction's Name() reports. */
  datatype AddData = AddData(
    name: string, raw: string, src: seq<string>,
    dst: string, chown: string, chmod: string)

  /** One entry of what copier.Stat reports per requested glob. */
  datatype GlobStat = GlobStat(glob: string, error: string, globbed: seq<string>)

  /** The build context archive as this core sees it: the outcome of
      ExtractOrGetExtractedDir and the CalculatePathsChecksum provider. */
  datatype BuildContextArchive = BuildContextArchive(
    extractedDir: Result<string, string>,
    pathsChecksum: seq<string> -> Result<string, string>)

  /** copier.Stat(root, directory, {CheckForArchives}, globs). */
  type Stat = (string, string, bool, seq<string>) -> Result<seq<GlobStat>, string>

  // ---------------------------------------------------------------------
  // Local and remote sources

  predicate IsRemote(src: string)
  {
    HasPrefix(src, "http://") || HasPrefix(src, "https://")
  }

  /** The local glob sources, in their original order. */
  function LocalGlobs(src: seq<string>): seq<string>
  {
    if src == [] then []
    else
      var last := src[|src| - 1];
      LocalGlobs(src[..|src| - 1]) + (if IsRemote(last) then [] else [last])
  }

  /** The positions in `src` of the local sources, in increasing order. */
  function LocalIndices(src: seq<string>): seq<nat>
  {
    if src == [] then []
    else
      var n := |src| - 1;
      LocalIndices(src[..n]) + (if IsRemote(src[n]) then [] else [n])
  }

  /** LocalGlobs(src) is exactly the subsequence of `src` taken at the
      increasing positions LocalIndices(src), and those positions are
      precisely the local ones. */
  lemma {:induction false} LocalGlobsIsFilter(src: seq<string>)
    ensures |LocalIndices(src)| == |LocalGlobs(src)|
    ensures forall k :: 0 <= k < |LocalIndices(src)| ==>
      LocalIndices(src)[k] < |src| && LocalGlobs(src)[k] == src[LocalIndices(src)[k]]
    ensures forall k, l :: 0 <= k < l < |LocalIndices(src)| ==>
      LocalIndices(src)[k] < LocalIndices(src)[l]
    ensures forall j :: 0 <= j < |src| ==> (j in LocalIndices(src) <==> !IsRemote(src[j]))
  {
    if src != [] {
      var n := |src| - 1;
      var init := src[..n];
      LocalGlobsIsFilter(init);
      assert forall j :: 0 <= j < n ==> init[j] == src[j];
      assert forall k :: 0 <= k < |LocalIndices(init)| ==> LocalIndices(init)[k] < n;
    }
  }

  /** There is no local source exactly when every source is a remote URL. */
  lemma NoLocalGlobsIffAllRemote(src: seq<string>)
    ensures LocalGlobs(src) == [] <==> forall j :: 0 <= j < |src| ==> IsRemote(src[j])
  {
    LocalGlobsIsFilter(src);
    if LocalGlobs(src) != [] {
      assert LocalIndices(src)[0] in LocalIndices(src);
    } else {
      forall j | 0 <= j < |src| ensures IsRemote(src[j]) {
        assert j !in LocalIndices(src);
      }
    }
  }

  // ---------------------------------------------------------------------
  // The build-context glob checksum

  /** All matched paths, stat by stat, in stat order, duplicates kept. */
  function Flatten(stats: seq<GlobStat>): seq<string>
  {
    if stats == [] then []
    else Flatten(stats[..|stats| - 1]) + stats[|stats| - 1].globbed
  }

  /** Flattening distributes over concatenation of stat lists. */
  lemma {:induction false} FlattenAppend(a: seq<GlobStat>, b: seq<GlobStat>)
    ensures Flatten(a + b) == Flatten(a) + Flatten(b)
  {
    if b == [] {
      assert a + b == a;
    } else {
      var n := |b| - 1;
      assert (a + b)[..|a + b| - 1] == a + b[..n];
      assert (a + b)[|a + b| - 1] == b[n];
      FlattenAppend(a, b[..n]);
    }
  }

  lemma {:induction false} FlattenSingle(s: GlobStat)
    ensures Flatten([s]) == s.globbed
  {
    assert [s][..0] == [];
  }

  /** Flatten is the concatenation of the Globbed lists: one stat gives its
      own list, and lists join in stat order. */
  lemma {:induction false} FlattenIsConcatenation(stats: seq<GlobStat>, k: nat)
    requires k < |stats|
    ensures Flatten([stats[k]]) == stats[k].globbed
    ensures Flatten(stats) == Flatten(stats[..k]) + stats[k].globbed + Flatten(stats[k + 1..])
  {
    var single, pre, post := [stats[k]], stats[..k], stats[k + 1..];
    assert stats == (pre + single) + post;
    calc {
      Flatten(stats);
      Flatten((pre + single) + post);
      { FlattenAppend(pre + single, post); }
      Flatten(pre + single) + Flatten(post);
      { FlattenAppend(pre, single); }
      Flatten(pre) + Flatten(single) + Flatten(post);
      { FlattenSingle(stats[k]); }
      Flatten(pre) + stats[k].globbed + Flatten(post);
    }
    FlattenSingle(stats[k]);
  }

  /** The first failing stat is the unique position with an error that has
      no error before it. */
  lemma {:induction false} FirstFailedStatAt(stats: seq<GlobStat>, k: nat)
    requires k <= |stats|
    requires forall j :: 0 <= j < k ==> stats[j].error == ""
    requires k < |stats| ==> stats[k].error != ""
    ensures FirstFailedStat(stats) == k
  {
    if k > 0 {
      assert stats[0].error == "";
      FirstFailedStatAt(stats[1..], k - 1);
    }
  }

  /** The position of the first stat that reports an error, or |stats|. */
  function FirstFailedStat(stats: seq<GlobStat>): (k: nat)
    ensures k <= |stats|
    ensures forall j :: 0 <= j < k ==> stats[j].error == ""
    ensures k < |stats| ==> stats[k].error != ""
  {
    if stats == [] then 0
    else if stats[0].error != "" then 0
    else 1 + FirstFailedStat(stats[1..])
  }

  /** What calculateBuildContextGlobsChecksum computes. */
  function GlobsChecksum(
    fileGlobs: seq<string>, checkForArchives: bool,
    archive: BuildContextArchive, stat: Stat): Result<string, Error>
  {
    match archive.extractedDir
    case Failure(e) => Failure(ContextDirFailed(e))
    case Success(dir) =>
      match stat(dir, dir, checkForArchives, fileGlobs)
      case Failure(e) => Failure(StatGlobsFailed(e))
      case Success(stats) =>
        if |stats| == 0 then Failure(NoGlobMatches(fileGlobs))
        else
          var k := FirstFailedStat(stats);
          if k < |stats| then Failure(StatGlobFailed(stats[k].glob, stats[k].error))
          else
            match archive.pathsChecksum(Flatten(stats))
            case Failure(e) => Failure(PathsChecksumFailed(e))
            case Success(sum) => Success(sum)
  }

  /** The failures that are decided before the paths checksum is asked for. */
  predicate FailsBeforePathsChecksum(
    fileGlobs: seq<string>, checkForArchives: bool,
    archive: BuildContextArchive, stat: Stat)
  {
    match archive.extractedDir
    case Failure(_) => true
    case Success(dir) =>
      match stat(dir, dir, checkForArchives, fileGlobs)
      case Failure(_) => true
      case Success(stats) => |stats| == 0 || FirstFailedStat(stats) < |stats|
  }

  /** The three early failures (no context dir, Stat failed, no stats) and a
      per-glob error each give their own error, and in each of them the
      result does not depend on the paths checksum provider at all. */
  lemma EarlyFailures(
    fileGlobs: seq<string>, checkForArchives: bool,
    archive: BuildContextArchive, stat: Stat,
    otherChecksum: seq<string> -> Result<string, string>)
    requires FailsBeforePathsChecksum(fileGlobs, checkForArchives, archive, stat)
    ensures var r := GlobsChecksum(fileGlobs, checkForArchives, archive, stat);
      && r.Failure?
      && r == GlobsChecksum(fileGlobs, checkForArchives,
                            archive.(pathsChecksum := otherChecksum), stat)
      && (archive.extractedDir.Failure? ==> r.error == ContextDirFailed(archive.extractedDir.error))
      && (archive.extractedDir.Success? ==>
            var dir := archive.extractedDir.value;
            var st := stat(dir, dir, checkForArchives, fileGlobs);
            && (st.Failure? ==> r.error == StatGlobsFailed(st.error))
            && (st.Success? && |st.value| == 0 ==> r.error == NoGlobMatches(fileGlobs))
            && (st.Success? && |st.value| > 0 ==> r.error.StatGlobFailed?))
  {
  }

  /** Stats are checked in order: the first stat that reports an error
      decides the failure, whatever the stats after it say. */
  lemma FirstStatErrorAborts(
    fileGlobs: seq<string>, checkForArchives: bool,
    archive: BuildContextArchive, stat: Stat, k: nat)
    requires archive.extractedDir.Success?
    requires
      var dir := archive.extractedDir.value;
      var st := stat(dir, dir, checkForArchives, fileGlobs);
      && st.Success? && k < |st.value| && st.value[k].error != ""
      && forall j :: 0 <= j < k ==> st.value[j].error == ""
    ensures
      var dir := archive.extractedDir.value;
      var stats := stat(dir, dir, checkForArchives, fileGlobs).value;
      GlobsChecksum(fileGlobs, checkForArchives, archive, stat)
        == Failure(StatGlobFailed(stats[k].glob, stats[k].error))
  {
    var dir := archive.extractedDir.value;
    FirstFailedStatAt(stat(dir, dir, checkForArchives, fileGlobs).value, k);
  }

  /** The checks made before the paths checksum is asked for: the build
      context dir is available, Stat succeeds with at least one entry and no
      entry reports an error. */
  predicate PreChecksPass(
    fileGlobs: seq<string>, checkForArchives: bool,
    archive: BuildContextArchive, stat: Stat)
  {
    && archive.extractedDir.Success?
    && var dir := archive.extractedDir.value;
       var st := stat(dir, dir, checkForArchives, fileGlobs);
       && st.Success? && |st.value| > 0
       && forall j :: 0 <= j < |st.value| ==> st.value[j].error == ""
  }

  /** The matches handed to the paths checksum once the checks pass. */
  function Matches(
    fileGlobs: seq<string>, checkForArchives: bool,
    archive: BuildContextArchive, stat: Stat): seq<string>
    requires PreChecksPass(fileGlobs, checkForArchives, archive, stat)
  {
    var dir := archive.extractedDir.value;
    Flatten(stat(dir, dir, checkForArchives, fileGlobs).value)
  }

  /** Once the checks pass, the paths checksum of all matches decides the
      outcome: its value is returned unchanged, its error is returned
      wrapped. The checksum succeeds exactly when the checks pass and the
      paths checksum succeeds. */
  lemma GlobsChecksumSucceeds(
    fileGlobs: seq<string>, checkForArchives: bool,
    archive: BuildContextArchive, stat: Stat)
    ensures
      var r := GlobsChecksum(fileGlobs, checkForArchives, archive, stat);
      r.Success? <==>
        && PreChecksPass(fileGlobs, checkForArchives, archive, stat)
        && archive.pathsChecksum(Matches(fileGlobs, checkForArchives, archive, stat)).Success?
    ensures
      var r := GlobsChecksum(fileGlobs, checkForArchives, archive, stat);
      r.Success? ==>
        && PreChecksPass(fileGlobs, checkForArchives, archive, stat)
        && r.value == archive.pathsChecksum(Matches(fileGlobs, checkForArchives, archive, stat)).value
    ensures
      PreChecksPass(fileGlobs, checkForArchives, archive, stat) ==>
        var pc := archive.pathsChecksum(Matches(fileGlobs, checkForArchives, archive, stat));
        pc.Failure? ==>
          GlobsChecksum(fileGlobs, checkForArchives, archive, stat) == Failure(PathsChecksumFailed(pc.error))
  {
    if archive.extractedDir.Success? {
      var dir := archive.extractedDir.value;
      var st := stat(dir, dir, checkForArchives, fileGlobs);
      if st.Success? && |st.value| > 0 {
        if PreChecksPass(fileGlobs, checkForArchives, archive, stat) {
          FirstFailedStatAt(st.value, |st.value|);
        } else {
          var k := FirstFailedStat(st.value);
          assert k < |st.value|;
        }
      }
    }
  }

  /** Only an empty stat list counts as "no glob matches": stats that all
      report success but match nothing still reach the paths checksum, which
      is then asked for the empty list of paths. */
  lemma EmptyMatchesReachPathsChecksum(
    fileGlobs: seq<string>, checkForArchives: bool,
    archive: BuildContextArchive, stat: Stat)
    requires archive.extractedDir.Success?
    requires
      var dir := archive.extractedDir.value;
      var st := stat(dir, dir, checkForArchives, fileGlobs);
      && st.Success? && |st.value| > 0
      && forall j :: 0 <= j < |st.value| ==> st.value[j].error == "" && st.value[j].globbed == []
    ensures
      var r := GlobsChecksum(fileGlobs, checkForArchives, archive, stat);
      match archive.pathsChecksum([])
      case Failure(e) => r == Failure(PathsChecksumFailed(e))
      case Success(sum) => r == Success(sum)
  {
    var dir := archive.extractedDir.value;
    var stats := stat(dir, dir, checkForArchives, fileGlobs).value;
    FirstFailedStatAt(stats, |stats|);
    NothingGlobbedFlattensToEmpty(stats);
  }

  lemma {:induction false} NothingGlobbedFlattensToEmpty(stats: seq<GlobStat>)
    requires forall j :: 0 <= j < |stats| ==> stats[j].globbed == []
    ensures Flatten(stats) == []
  {
    if stats != [] {
      NothingGlobbedFlattensToEmpty(stats[..|stats| - 1]);
    }
  }

  /** calculateBuildContextGlobsChecksum: extract the context, stat the
      globs, reject failures, flatten the matches and checksum them. */
  method CalculateBuildContextGlobsChecksum(
    fileGlobs: seq<string>, checkForArchives: bool,
    archive: BuildContextArchive, stat: Stat) returns (r: Result<string, Error>)
    ensures r == GlobsChecksum(fileGlobs, checkForArchives, archive, stat)
  {
    var contextDir := archive.extractedDir;
    if contextDir.Failure? {
      return Failure(ContextDirFailed(contextDir.error));
    }
    var dir := contextDir.value;

    var globStats := stat(dir, dir, checkForArchives, fileGlobs);
    if globStats.Failure? {
      return Failure(StatGlobsFailed(globStats.error));
    }
    var stats := globStats.value;
    if |stats| == 0 {
      return Failure(NoGlobMatches(fileGlobs));
    }

    var matches: seq<string> := [];
    for i := 0 to |stats|
      invariant matches == Flatten(stats[..i])
      invariant forall j :: 0 <= j < i ==> stats[j].error == ""
    {
      if stats[i].error != "" {
        FirstFailedStatAt(stats, i);
        return Failure(StatGlobFailed(stats[i].glob, stats[i].error));
      }
      var globbed := stats[i].globbed;
      for j := 0 to |globbed|
        invariant matches == Flatten(stats[..i]) + globbed[..j]
      {
        matches := matches + [globbed[j]];
      }
      assert stats[..i + 1][..i] == stats[..i];
      assert globbed[..|globbed|] == globbed;
    }
    assert stats[..|stats|] == stats;
    FirstFailedStatAt(stats, |stats|);

    var pathsChecksum := archive.pathsChecksum(matches);
    if pathsChecksum.Failure? {
      return Failure(PathsChecksumFailed(pathsChecksum.error));
    }
    return Success(pathsChecksum.value);
  }

  // ---------------------------------------------------------------------
  // The ADD token layout

  /** The instruction's own contribution, with the optional source checksum. */
  datatype AddFields = AddFields(data: AddData, srcChecksum: Option<string>)

  function Tokens(f: AddFields): seq<string>
  {
    var d := f.data;
    ["Instruction", d.name, "Raw", d.raw, "Src"] + d.src
      + ["Dst", d.dst, "Chown", d.chown, "Chmod", d.chmod]
      + (match f.srcChecksum
         case None => []
         case Some(sum) => ["SrcChecksum", sum])
  }

  /** Reads an instruction contribution back from its tokens. */
  function Decode(t: seq<string>): Option<AddFields>
  {
    if |t| < 11 || t[0] != "Instruction" || t[2] != "Raw" || t[4] != "Src" then None
    else
      var sum := if t[|t| - 2] == "SrcChecksum" then Some(t[|t| - 1]) else None;
      var n := if sum.Some? then |t| - 2 else |t|;
      if n < 11 || t[n - 6] != "Dst" || t[n - 4] != "Chown" || t[n - 2] != "Chmod" then None
      else Some(AddFields(AddData(t[1], t[3], t[5..n - 6], t[n - 5], t[n - 3], t[n - 1]), sum))
  }

  /** Decoding the tokens gives back exactly the fields they came from. */
  lemma DecodeTokens(f: AddFields)
    ensures Decode(Tokens(f)) == Some(f)
  {
    var d := f.data;
    var t := Tokens(f);
    var core := ["Instruction", d.name, "Raw", d.raw, "Src"] + d.src
      + ["Dst", d.dst, "Chown", d.chown, "Chmod", d.chmod];
    var n := |core|;
    assert n == |d.src| + 11;
    assert t[..n] == core;
    assert core[5..n - 6] == d.src;
    if f.srcChecksum.None? {
      assert t == core;
      assert t[|t| - 2] == "Chmod";
    } else {
      assert t == core + ["SrcChecksum", f.srcChecksum.value];
      assert t[|t| - 2] == "SrcChecksum";
      assert t[5..n - 6] == d.src;
      assert t[n - 6] == "Dst" && t[n - 4] == "Chown" && t[n - 2] == "Chmod";
    }
  }

  /** The token sequence of an ADD stage (before hashing), or the error. */
  function Args(d: AddData, base: BaseTokens, archive: BuildContextArchive, stat: Stat)
    : Result<seq<string>, Error>
  {
    match base
    case Failure(e) => Failure(e)
    case Success(b) =>
      if |LocalGlobs(d.src)| == 0 then Success(b + Tokens(AddFields(d, None)))
      else
        match GlobsChecksum(LocalGlobs(d.src), true, archive, stat)
        case Failure(e) => Failure(GlobsChecksumFailed(e))
        case Success(sum) => Success(b + Tokens(AddFields(d, Some(sum))))
  }

  /** On success the sequence is the base tokens, then the labelled fields in
      their fixed order, then the checksum pair exactly when some source is
      local; the checksum is that of the local globs, stat'ed with archive
      checking on. */
  lemma ArgsLayout(d: AddData, base: BaseTokens, archive: BuildContextArchive, stat: Stat)
    requires Args(d, base, archive, stat).Success?
    ensures base.Success?
    ensures var b, t := base.value, Args(d, base, archive, stat).value;
      var fields := ["Instruction", d.name, "Raw", d.raw, "Src"] + d.src
        + ["Dst", d.dst, "Chown", d.chown, "Chmod", d.chmod];
      && (LocalGlobs(d.src) == [] ==> t == b + fields)
      && (LocalGlobs(d.src) != [] ==>
            t == b + fields + ["SrcChecksum", GlobsChecksum(LocalGlobs(d.src), true, archive, stat).value])
  {
  }

  /** Every source, remote URLs included, appears verbatim at its own
      position right after the "Src" label; the base tokens are a prefix. */
  lemma SourcesVerbatim(d: AddData, base: BaseTokens, archive: BuildContextArchive, stat: Stat)
    requires Args(d, base, archive, stat).Success?
    ensures base.Success?
    ensures var b, t := base.value, Args(d, base, archive, stat).value;
      && |t| >= |b| + 11 + |d.src|
      && t[..|b|] == b
      && t[|b| + 4] == "Src"
      && forall j :: 0 <= j < |d.src| ==> t[|b| + 5 + j] == d.src[j]
  {
    var b, t := base.value, Args(d, base, archive, stat).value;
    var sum := if LocalGlobs(d.src) == [] then None
               else Some(GlobsChecksum(LocalGlobs(d.src), true, archive, stat).value);
    assert t == b + Tokens(AddFields(d, sum));
    forall j | 0 <= j < |d.src|
      ensures t[|b| + 5 + j] == d.src[j]
    {
      assert Tokens(AddFields(d, sum))[5 + j] == d.src[j];
    }
  }

  /** The checksum pair closes the sequence exactly when some source is a
      local glob, and the length is fixed by the number of sources. */
  lemma ChecksumIffLocalSource(d: AddData, base: BaseTokens, archive: BuildContextArchive, stat: Stat)
    requires Args(d, base, archive, stat).Success?
    ensures base.Success?
    ensures var b, t := base.value, Args(d, base, archive, stat).value;
      && (t[|t| - 2] == "SrcChecksum" <==> exists j :: 0 <= j < |d.src| && !IsRemote(d.src[j]))
      && |t| == |b| + 11 + |d.src| + (if LocalGlobs(d.src) == [] then 0 else 2)
  {
    NoLocalGlobsIffAllRemote(d.src);
  }

  /** When every source is a remote URL, neither the build context archive
      nor Stat is consulted: any two of them give the same result. */
  lemma AllRemoteIgnoresBuildContext(
    d: AddData, base: BaseTokens,
    archive1: BuildContextArchive, stat1: Stat,
    archive2: BuildContextArchive, stat2: Stat)
    requires forall j :: 0 <= j < |d.src| ==> IsRemote(d.src[j])
    ensures Args(d, base, archive1, stat1) == Args(d, base, archive2, stat2)
    ensures base.Success? ==> Args(d, base, archive1, stat1) == Success(base.value + Tokens(AddFields(d, None)))
  {
    NoLocalGlobsIffAllRemote(d.src);
  }

  /** A failure of the base tokens is returned as it is; a failure of the
      glob checksum is returned wrapped, and nothing else fails. */
  lemma ArgsErrors(d: AddData, base: BaseTokens, archive: BuildContextArchive, stat: Stat)
    ensures base.Failure? ==> Args(d, base, archive, stat) == Failure(base.error)
    ensures base.Success? ==>
      var sum := GlobsChecksum(LocalGlobs(d.src), true, archive, stat);
      (Args(d, base, archive, stat).Failure? <==> LocalGlobs(d.src) != [] && sum.Failure?)
      && (Args(d, base, archive, stat).Failure? ==>
            Args(d, base, archive, stat).error == GlobsChecksumFailed(sum.error))
  {
  }

  /** Over one base, the token sequence determines every field of the
      instruction and the source checksum: two ADD stages whose fields
      differ, or whose build-context checksums differ, never produce the
      same sequence. */
  lemma ArgsInjective(
    d1: AddData, d2: AddData, base: BaseTokens,
    archive1: BuildContextArchive, stat1: Stat,
    archive2: BuildContextArchive, stat2: Stat)
    requires Args(d1, base, archive1, stat1).Success?
    requires Args(d1, base, archive1, stat1) == Args(d2, base, archive2, stat2)
    ensures d1 == d2
    ensures LocalGlobs(d1.src) != [] ==>
      GlobsChecksum(LocalGlobs(d1.src), true, archive1, stat1)
        == GlobsChecksum(LocalGlobs(d2.src), true, archive2, stat2)
  {
    var b := base.value;
    var t := Args(d1, base, archive1, stat1).value;
    var s1 := if LocalGlobs(d1.src) == [] then None
              else Some(GlobsChecksum(LocalGlobs(d1.src), true, archive1, stat1).value);
    var s2 := if LocalGlobs(d2.src) == [] then None
              else Some(GlobsChecksum(LocalGlobs(d2.src), true, archive2, stat2).value);
    assert t == b + Tokens(AddFields(d1, s1));
    assert t == b + Tokens(AddFields(d2, s2));
    assert t[|b|..] == Tokens(AddFields(d1, s1)) == Tokens(AddFields(d2, s2));
    DecodeTokens(AddFields(d1, s1));
    DecodeTokens(AddFields(d2, s2));
  }

  /** Add.GetDependencies: the base tokens, then the instruction's fields by
      successive appends, then the checksum of the local sources when there
      is any; the result is the hash of the whole sequence. */
  method GetDependencies(
    stg: AddData, base: BaseTokens,
    archive: BuildContextArchive, stat: Stat, hash: Hasher) returns (r: Result<string, Error>)
    ensures r == Digest(Args(stg, base, archive, stat), hash)
  {
    if base.Failure? {
      return Failure(base.error);
    }
    var args := base.value;

    args := args + ["Instruction", stg.name];
    args := args + ["Raw", stg.raw];
    args := args + (["Src"] + stg.src);
    args := args + ["Dst", stg.dst];
    args := args + ["Chown", stg.chown];
    args := args + ["Chmod", stg.chmod];
    assert args == base.value + Tokens(AddFields(stg, None));

    var fileGlobSrc: seq<string> := [];
    for i := 0 to |stg.src|
      invariant fileGlobSrc == LocalGlobs(stg.src[..i])
    {
      assert stg.src[..i + 1][..i] == stg.src[..i];
      if !HasPrefix(stg.src[i], "http://") && !HasPrefix(stg.src[i], "https://") {
        fileGlobSrc := fileGlobSrc + [stg.src[i]];
      }
    }
    assert stg.src[..|stg.src|] == stg.src;

    if |fileGlobSrc| > 0 {
      var srcChecksum := CalculateBuildContextGlobsChecksum(fileGlobSrc, true, archive, stat);
      if srcChecksum.Failure? {
        return Failure(GlobsChecksumFailed(srcChecksum.error));
      }
      args := args + ["SrcChecksum", srcChecksum.value];
      assert args == base.value + Tokens(AddFields(stg, Some(srcChecksum.value)));
    }

    return Success(hash(args));
  }
}
