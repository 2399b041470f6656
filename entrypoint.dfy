/** The ENTRYPOINT instruction's stage signature. */
module Entrypoint {
  import opened Stage

  /** The fields of a parsed ENTRYPOINT instruction that enter its
      signature; `name` is what the instruction's Name() reports. */
  datatype EntrypointData = EntrypointData(name: string, cmdLine: seq<string>, prependShell: bool)

  /** fmt.Sprintf("%v", b) for a bool. */
  function BoolText(b: bool): string
  {
    if b then "true" else "false"
  }

  /** The instruction's own contribution to the token sequence. */
  function Tokens(d: EntrypointData): seq<string>
  {
    ["Instruction", d.name, "Entrypoint"] + d.cmdLine + ["PrependShell", BoolText(d.prependShell)]
  }

  /** Reads an instruction contribution back from its tokens. */
  function Decode(t: seq<string>): Option<EntrypointData>
  {
    if |t| < 5 || t[0] != "Instruction" || t[2] != "Entrypoint" || t[|t| - 2] != "PrependShell"
       || (t[|t| - 1] != "true" && t[|t| - 1] != "false")
    then None
    else Some(EntrypointData(t[1], t[3..|t| - 2], t[|t| - 1] == "true"))
  }

  /** Decoding the tokens gives back exactly the fields they came from. */
  lemma DecodeTokens(d: EntrypointData)
    ensures Decode(Tokens(d)) == Some(d)
  {
    var t := Tokens(d);
    assert t[3..|t| - 2] == d.cmdLine;
  }

  /** The token sequence of an ENTRYPOINT stage (before hashing), or the error. */
  function Args(d: EntrypointData, base: BaseTokens): Result<seq<string>, Error>
  {
    match base
    case Failure(e) => Failure(e)
    case Success(b) => Success(b + Tokens(d))
  }

  /** On success the sequence is the base tokens, the discriminator and
      name, the "Entrypoint" label with the command line verbatim and in
      order, and the shell flag as "true" or "false"; a failure of the base
      tokens is returned as it is. */
  lemma ArgsLayout(d: EntrypointData, base: BaseTokens)
    ensures base.Failure? ==> Args(d, base) == Failure(base.error)
    ensures base.Success? ==>
      var b, t := base.value, Args(d, base).value;
      && |t| == |b| + 5 + |d.cmdLine|
      && t[..|b|] == b
      && t[|b|..|b| + 3] == ["Instruction", d.name, "Entrypoint"]
      && (forall j :: 0 <= j < |d.cmdLine| ==> t[|b| + 3 + j] == d.cmdLine[j])
      && t[|t| - 2] == "PrependShell"
      && (t[|t| - 1] == "true" <==> d.prependShell)
      && (t[|t| - 1] == "false" <==> !d.prependShell)
  {
    if base.Success? {
      var b, t := base.value, Args(d, base).value;
      forall j | 0 <= j < |d.cmdLine| ensures t[|b| + 3 + j] == d.cmdLine[j] {
        assert Tokens(d)[3 + j] == d.cmdLine[j];
      }
    }
  }

  /** Flipping the shell flag changes the last token and nothing else. */
  lemma FlipShellChangesOnlyLastToken(d: EntrypointData, base: BaseTokens)
    requires base.Success?
    ensures var t1 := Args(d, base).value;
      var t2 := Args(d.(prependShell := !d.prependShell), base).value;
      && |t1| == |t2|
      && t1[..|t1| - 1] == t2[..|t2| - 1]
      && t1[|t1| - 1] != t2[|t2| - 1]
  {
    var d2 := d.(prependShell := !d.prependShell);
    var t1, t2 := Args(d, base).value, Args(d2, base).value;
    var common := base.value + ["Instruction", d.name, "Entrypoint"] + d.cmdLine + ["PrependShell"];
    assert t1 == common + [BoolText(d.prependShell)];
    assert t2 == common + [BoolText(d2.prependShell)];
    assert t1[..|t1| - 1] == common == t2[..|t2| - 1];
  }

  /** Over one base, the token sequence determines the name, the command
      line and the shell flag: different instructions never share one. */
  lemma ArgsInjective(d1: EntrypointData, d2: EntrypointData, base: BaseTokens)
    requires base.Success?
    requires Args(d1, base) == Args(d2, base)
    ensures d1 == d2
  {
    var b := base.value;
    assert (b + Tokens(d1))[|b|..] == Tokens(d1);
    assert (b + Tokens(d2))[|b|..] == Tokens(d2);
    DecodeTokens(d1);
    DecodeTokens(d2);
  }

  /** Entrypoint.GetDependencies: the base tokens, then three appends, then
      the hash of the whole sequence. */
  method GetDependencies(stg: EntrypointData, base: BaseTokens, hash: Hasher)
    returns (r: Result<string, Error>)
    ensures r == Digest(Args(stg, base), hash)
  {
    if base.Failure? {
      return Failure(base.error);
    }
    var args := base.value;

    args := args + ["Instruction", stg.name];
    args := args + (["Entrypoint"] + stg.cmdLine);
    args := args + ["PrependShell", BoolText(stg.prependShell)];
    assert args == base.value + Tokens(stg);
    return Success(hash(args));
  }
}
