/**
  The start-up of the exporter (`main`): read the configuration file, start
  the loop of every accepted host entry, then serve the metrics, or stop
  with an exit code.
*/
module Startup {
  import opened Wrappers
  import opened Config

  /** What reading the configuration file gives. */
  datatype ConfigFile =
    | Missing
      /** `yaml.load` raised `YAMLError`. */
    | Unparsable
      /** The `checks` list of the document (empty when the key is absent). */
    | Parsed(checks: seq<Entry>)

  const ExitMissingConfig: int := 1
  const ExitUnparsableConfig: int := 2
  const ExitWrongConfig: int := 3

  /** The settings of the accepted entries, in file order. */
  function Accepted(checks: seq<Entry>): seq<HostSettings>
  {
    if checks == [] then []
    else
      var n := |checks| - 1;
      Accepted(checks[..n]) + (if Check(checks[n]).Ok? then [Check(checks[n]).value] else [])
  }

  /** The position of the first entry `check` rejects, if any. */
  function FirstRejected(checks: seq<Entry>): Option<nat>
  {
    if checks == [] then None
    else if Check(checks[0]).Err? then Some(0)
    else
      match FirstRejected(checks[1..])
      case None => None
      case Some(k) => Some(k + 1)
  }

  /**
    `main` from the configuration file on. Without `--skip-wrong-config` the
    first rejected entry ends the loading with exit code 3, and the loops of
    the entries before it have already been started; with it, rejected
    entries are passed over. The metrics are served only when the loop over
    the entries ran to its end.
  */
  method LoadAndServe(file: ConfigFile, skipWrongConfig: bool) returns (exitCode: int, started: seq<HostSettings>, serving: bool)
    ensures file.Missing? ==> exitCode == ExitMissingConfig && started == [] && !serving
    ensures file.Unparsable? ==> exitCode == ExitUnparsableConfig && started == [] && !serving
    ensures file.Parsed? && skipWrongConfig ==> exitCode == 0 && serving && started == Accepted(file.checks)
    ensures file.Parsed? && !skipWrongConfig ==>
              match FirstRejected(file.checks)
              case None => exitCode == 0 && serving && started == Accepted(file.checks)
              case Some(k) => k < |file.checks| && exitCode == ExitWrongConfig && !serving
                              && started == Accepted(file.checks[..k])
  {
    started, serving := [], false;
    match file {
      case Missing => exitCode := ExitMissingConfig;
      case Unparsable => exitCode := ExitUnparsableConfig;
      case Parsed(checks) =>
        exitCode := 0;
        var i := 0;
        while i < |checks|
          invariant 0 <= i <= |checks|
          invariant started == Accepted(checks[..i])
          invariant !skipWrongConfig ==> forall j | 0 <= j < i :: Check(checks[j]).Ok?
        {
          assert checks[..i + 1][..i] == checks[..i];
          var r := Check(checks[i]);
          if r.Err? {
            if skipWrongConfig {
              i := i + 1;
              continue;
            }
            exitCode := ExitWrongConfig;
            FirstRejectedAt(checks, i);
            break;
          }
          started := started + [r.value];
          i := i + 1;
        }
        if exitCode == 0 {
          assert checks[..i] == checks;
          if !skipWrongConfig {
            NoneRejected(checks);
          }
          serving := true;
        }
    }
  }

  // ------------------------------------------------------------ properties

  /** The first rejected position is rejected, and every entry before it is accepted. */
  lemma {:induction false} FirstRejectedIsFirst(checks: seq<Entry>)
    ensures FirstRejected(checks).None? ==> forall i | 0 <= i < |checks| :: Check(checks[i]).Ok?
    ensures FirstRejected(checks).Some? ==>
              var k := FirstRejected(checks).value;
              k < |checks| && Check(checks[k]).Err? && forall i | 0 <= i < k :: Check(checks[i]).Ok?
  {
    if checks != [] && Check(checks[0]).Ok? {
      FirstRejectedIsFirst(checks[1..]);
      assert forall i | 1 <= i < |checks| :: checks[1..][i - 1] == checks[i];
    }
  }

  lemma {:induction false} FirstRejectedAt(checks: seq<Entry>, k: nat)
    requires k < |checks| && Check(checks[k]).Err?
    requires forall i | 0 <= i < k :: Check(checks[i]).Ok?
    ensures FirstRejected(checks) == Some(k)
  {
    if k > 0 {
      assert forall i | 0 <= i < k - 1 :: checks[1..][i] == checks[i + 1];
      FirstRejectedAt(checks[1..], k - 1);
    }
  }

  lemma {:induction false} NoneRejected(checks: seq<Entry>)
    requires forall i | 0 <= i < |checks| :: Check(checks[i]).Ok?
    ensures FirstRejected(checks) == None
  {
    if checks != [] {
      assert forall i | 0 <= i < |checks| - 1 :: checks[1..][i] == checks[i + 1];
      NoneRejected(checks[1..]);
    }
  }

  /** Exactly the settings of the accepted entries are started. */
  lemma {:induction false} AcceptedMembers(checks: seq<Entry>, h: HostSettings)
    ensures h in Accepted(checks) <==> exists i | 0 <= i < |checks| :: Check(checks[i]) == Ok(h)
    decreases |checks|
  {
    if checks != [] {
      var n := |checks| - 1;
      AcceptedMembers(checks[..n], h);
      if exists i | 0 <= i < |checks| :: Check(checks[i]) == Ok(h) {
        var i :| 0 <= i < |checks| && Check(checks[i]) == Ok(h);
        if i < n {
          assert checks[..n][i] == checks[i];
        }
      }
      if h in Accepted(checks[..n]) {
        var i :| 0 <= i < n && Check(checks[..n][i]) == Ok(h);
        assert checks[i] == checks[..n][i];
      }
    }
  }

  /** When every entry is accepted, one loop is started per entry, in file order. */
  lemma {:induction false} AllAcceptedStartsEvery(checks: seq<Entry>)
    requires forall i | 0 <= i < |checks| :: Check(checks[i]).Ok?
    ensures |Accepted(checks)| == |checks|
    ensures forall i | 0 <= i < |checks| :: Accepted(checks)[i] == Check(checks[i]).value
    decreases |checks|
  {
    if checks != [] {
      var n := |checks| - 1;
      assert forall i | 0 <= i < n :: checks[..n][i] == checks[i];
      AllAcceptedStartsEvery(checks[..n]);
    }
  }

  /** An entry is rejected at some position iff some entry fails `check`. */
  lemma SomeRejectedIff(checks: seq<Entry>)
    ensures FirstRejected(checks).Some? <==> exists i | 0 <= i < |checks| :: Check(checks[i]).Err?
  {
    FirstRejectedIsFirst(checks);
  }
}
