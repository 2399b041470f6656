/** Facts relating the instruction kinds to one another. */
module Kinds {
  import opened Stage
  import Add
  import Entrypoint
  import StopSignal

  /** Over one base, ADD, ENTRYPOINT and STOPSIGNAL stages never produce the
      same token sequence, whatever their names and fields: the token after
      the name is "Raw", "Entrypoint" or "Signal" respectively. */
  lemma KindsNeverCollide(
    base: BaseTokens,
    a: Add.AddData, archive: Add.BuildContextArchive, stat: Add.Stat,
    e: Entrypoint.EntrypointData, s: StopSignal.StopSignalData)
    requires base.Success?
    ensures Add.Args(a, base, archive, stat).Success? ==>
      && Add.Args(a, base, archive, stat) != Entrypoint.Args(e, base)
      && Add.Args(a, base, archive, stat) != StopSignal.Args(s, base)
    ensures Entrypoint.Args(e, base) != StopSignal.Args(s, base)
  {
    var n := |base.value|;
    if Add.Args(a, base, archive, stat).Success? {
      Add.SourcesVerbatim(a, base, archive, stat);
      var t := Add.Args(a, base, archive, stat).value;
      assert t[..n] == base.value;
      Add.ArgsLayout(a, base, archive, stat);
      assert t[n + 2] == "Raw";
    }
    Entrypoint.ArgsLayout(e, base);
    StopSignal.ArgsLayout(s, base);
    assert Entrypoint.Args(e, base).value[n + 2] == "Entrypoint";
    assert StopSignal.Args(s, base).value[n + 2] == "Signal";
  }
}
