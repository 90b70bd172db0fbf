/**
 * MainLaunch of the core module: `dispatch` takes the environment from the first
 * "-active=" argument, `beforeStartingVertx` falls back to production when none is set,
 * and `beforeDeployingVerticle` forces one highly-available instance. The Hazelcast and
 * event-bus options, the logging and the launcher's own dispatch are not modelled; the
 * arguments handed on to it are recorded.
 */
module MainLaunch {
  import opened Wrappers
  import opened Text

  const ActivePrefix := "-active="

  /** EnvEnum.PROD.env. */
  const Prod := "prod"

  /** The position of the first argument starting with "-active=", if any. */
  function FirstActiveArg(args: seq<string>): (r: Option<nat>)
    ensures r.Some? ==> r.value < |args| && StartsWith(args[r.value], ActivePrefix)
    ensures r.Some? ==> forall i :: 0 <= i < r.value ==> !StartsWith(args[i], ActivePrefix)
    ensures r.None? ==> forall i :: 0 <= i < |args| ==> !StartsWith(args[i], ActivePrefix)
    decreases |args|
  {
    if |args| == 0 then None
    else if StartsWith(args[0], ActivePrefix) then Some(0)
    else
      match FirstActiveArg(args[1..])
      case None => None
      case Some(i) => Some(i + 1)
  }

  /** The environment dispatch leaves: the first "-active=" argument's suffix, or the old one. */
  function DispatchedActive(active: string, args: seq<string>): string {
    match FirstActiveArg(args)
    case None => active
    case Some(i) => args[i][|ActivePrefix|..]
  }

  /** beforeStartingVertx's fallback: a blank environment becomes "prod". */
  function StartingActive(active: string): (r: string)
    ensures IsBlank(active) ==> r == Prod
    ensures !IsBlank(active) ==> r == active
    ensures !IsBlank(r)
  {
    assert !IsWhitespace(Prod[0]);
    if IsBlank(active) then Prod else active
  }

  /** The first "-active=" argument decides, whatever follows it. */
  lemma FirstActiveWins(active: string, args: seq<string>, later: seq<string>, env: string)
    requires forall i :: 0 <= i < |args| ==> !StartsWith(args[i], ActivePrefix)
    ensures DispatchedActive(active, args + [ActivePrefix + env] + later) == env
  {
    var all := args + [ActivePrefix + env] + later;
    assert all[|args|] == ActivePrefix + env;
    assert all[|args|][..|ActivePrefix|] == ActivePrefix;
    assert forall i :: 0 <= i < |args| ==> all[i] == args[i];
    FirstActiveAt(all, |args|);
  }

  /** Without an "-active=" argument the environment is kept. */
  lemma NoActiveArgKeeps(active: string, args: seq<string>)
    requires forall i :: 0 <= i < |args| ==> !StartsWith(args[i], ActivePrefix)
    ensures DispatchedActive(active, args) == active
  {
  }

  /** "-active=" with nothing after it clears the environment, which then starts as "prod". */
  lemma EmptyActiveStartsProd(active: string)
    ensures DispatchedActive(active, [ActivePrefix]) == ""
    ensures StartingActive(DispatchedActive(active, [ActivePrefix])) == Prod
  {
    assert StartsWith(ActivePrefix, ActivePrefix);
  }

  /** The launcher and the global `active` it sets. */
  class Launcher {
    var active: string
    /** The arguments handed to VertxCommandLauncher.dispatch, once dispatch has run. */
    var forwarded: Option<seq<string>>

    constructor(active: string)
      ensures this.active == active && forwarded == None
    {
      this.active := active;
      forwarded := None;
    }

    /** dispatch: scan left to right, stop at the first "-active=", forward the arguments unchanged. */
    method Dispatch(args: seq<string>)
      modifies this
      ensures active == DispatchedActive(old(active), args)
      ensures forwarded == Some(args)
    {
      var k := 0;
      while k < |args|
        invariant 0 <= k <= |args|
        invariant active == old(active)
        invariant forall i :: 0 <= i < k ==> !StartsWith(args[i], ActivePrefix)
      {
        if StartsWith(args[k], ActivePrefix) {
          active := args[k][|ActivePrefix|..];
          assert FirstActiveArg(args) == Some(k) by {
            FirstActiveAt(args, k);
          }
          break;
        }
        k := k + 1;
      }
      forwarded := Some(args);
    }

    /** beforeStartingVertx: a blank environment becomes "prod". */
    method BeforeStartingVertx()
      modifies this
      ensures active == StartingActive(old(active))
      ensures forwarded == old(forwarded)
    {
      if IsBlank(active) {
        active := Prod;
      }
    }
  }

  /** The position found is the first match. */
  lemma FirstActiveAt(args: seq<string>, k: nat)
    requires k < |args| && StartsWith(args[k], ActivePrefix)
    requires forall i :: 0 <= i < k ==> !StartsWith(args[i], ActivePrefix)
    ensures FirstActiveArg(args) == Some(k)
  {
  }

  /** The DeploymentOptions the launcher hands to each deployment. */
  class DeploymentOptions {
    var instances: int
    var ha: bool
    var worker: bool

    constructor(instances: int, ha: bool, worker: bool)
      ensures this.instances == instances && this.ha == ha && this.worker == worker
    {
      this.instances, this.ha, this.worker := instances, ha, worker;
    }
  }

  /** beforeDeployingVerticle: one instance, high availability on, the rest untouched. */
  method BeforeDeployingVerticle(options: DeploymentOptions)
    modifies options
    ensures options.instances == 1 && options.ha
    ensures options.worker == old(options.worker)
  {
    options.instances := 1;
    options.ha := true;
  }
}
