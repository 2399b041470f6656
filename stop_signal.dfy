/** The STOPSIGNAL instruction's stage signature. */
module StopSignal {
  import opened Stage

  /** The fields of a parsed STOPSIGNAL instruction that enter its
      signature; `name` is what the instruction's Name() reports. */
  datatype StopSignalData = StopSignalData(name: string, signal: string)

  /** The instruction's own contribution to the token sequence. */
  function Tokens(d: StopSignalData): seq<string>
  {
    ["Instruction", d.name, "Signal", d.signal]
  }

  /** The token sequence of a STOPSIGNAL stage (before hashing), or the error. */
  function Args(d: StopSignalData, base: BaseTokens): Result<seq<string>, Error>
  {
    match base
    case Failure(e) => Failure(e)
    case Success(b) => Success(b + Tokens(d))
  }

  /** On success the sequence is exactly four tokens longer than the base,
      which it keeps as a prefix; a failure of the base tokens is returned
      as it is. */
  lemma ArgsLayout(d: StopSignalData, base: BaseTokens)
    ensures base.Failure? ==> Args(d, base) == Failure(base.error)
    ensures base.Success? ==>
      var b, t := base.value, Args(d, base).value;
      && |t| == |b| + 4
      && t[..|b|] == b
      && t[|b|..] == ["Instruction", d.name, "Signal", d.signal]
  {
  }

  /** Two signals give sequences that agree everywhere but in the last
      token, and differ there exactly when the signals differ. */
  lemma SignalsDifferOnlyInLastToken(d: StopSignalData, other: string, base: BaseTokens)
    requires base.Success?
    ensures var t1 := Args(d, base).value;
      var t2 := Args(d.(signal := other), base).value;
      && |t1| == |t2|
      && t1[..|t1| - 1] == t2[..|t2| - 1]
      && (t1[|t1| - 1] == t2[|t2| - 1] <==> d.signal == other)
  {
    var t1, t2 := Args(d, base).value, Args(d.(signal := other), base).value;
    var common := base.value + ["Instruction", d.name, "Signal"];
    assert t1 == common + [d.signal];
    assert t2 == common + [other];
    assert t1[..|t1| - 1] == common == t2[..|t2| - 1];
  }

  /** The token sequence determines the base, the name and the signal: the
      layout has a fixed length, so not even a different base can give the
      same sequence. */
  lemma ArgsInjective(d1: StopSignalData, d2: StopSignalData, base1: BaseTokens, base2: BaseTokens)
    requires base1.Success? && base2.Success?
    requires Args(d1, base1) == Args(d2, base2)
    ensures base1 == base2 && d1 == d2
  {
    var t := Args(d1, base1).value;
    var n := |t| - 4;
    assert t == base1.value + Tokens(d1) == base2.value + Tokens(d2);
    assert base1.value == t[..n] == base2.value;
    assert t[n + 1] == d1.name == d2.name;
    assert t[n + 3] == d1.signal == d2.signal;
  }

  /** StopSignal.GetDependencies: the base tokens, then two appends, then
      the hash of the whole sequence. */
  method GetDependencies(stg: StopSignalData, base: BaseTokens, hash: Hasher)
    returns (r: Result<string, Error>)
    ensures r == Digest(Args(stg, base), hash)
  {
    if base.Failure? {
      return Failure(base.error);
    }
    var args := base.value;

    args := args + ["Instruction", stg.name];
    args := args + ["Signal", stg.signal];
    assert args == base.value + Tokens(stg);
    return Success(hash(args));
  }
}
