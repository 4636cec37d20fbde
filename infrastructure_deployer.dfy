/** The infrastructure deployer resource: the `infrastructure_id` validator, the diff hook
    that raises the `edited` flag, Read, Create, Update and Delete with the decisions on when
    a deploy is issued, and the status classification used while waiting for a deploy to
    finish. The platform is not modelled: what it answers is passed in, and the calls that
    change it are appended to a log. */
module InfrastructureDeployer {
  import opened Values
  import opened Text
  import opened CustomVariables

  const DEPLOY_STATUS_FINISHED := "finished"
  const DEPLOY_STATUS_ONGOING := "ongoing"
  const DEPLOY_STATUS_DELETED := "deleted"
  const DEPLOY_STATUS_NOT_STARTED := "not_started"
  const SERVICE_STATUS_ACTIVE := "active"
  const SERVICE_STATUS_DELETED := "deleted"

  /** Schema defaults of the optional flags. */
  const DEFAULT_PREVENT_DEPLOY := true
  const DEFAULT_AWAIT_DEPLOY_FINISHED := true
  const DEFAULT_AWAIT_DELETE_FINISHED := false
  const DEFAULT_HARD_SHUTDOWN_AFTER_TIMEOUT := true
  const DEFAULT_ATTEMPT_SOFT_SHUTDOWN := true
  const DEFAULT_SOFT_SHUTDOWN_TIMEOUT_SECONDS := 30
  const DEFAULT_ALLOW_DATA_LOSS := false

  // ---------------------------------------------------------------------------
  // The `infrastructure_id` validator

  /** The warnings and errors a schema validator returns. */
  datatype Validation = Validation(warns: seq<string>, errs: seq<string>)

  /** Go's `%q` of a key made of printable characters without quotes or backslashes. */
  function Quote(s: string): string
  {
    "\"" + s + "\""
  }

  function RequiredMessage(key: string, v: int): string
  {
    Quote(key) + " is required. Provided value: " + Itoa(v)
  }

  /** Zero is the only rejected identifier; no value draws a warning. */
  function ValidateInfrastructureId(key: string, v: int): (r: Validation)
    ensures r.warns == []
    ensures r.errs != [] <==> v == 0
    ensures r.errs != [] ==> r.errs == [RequiredMessage(key, 0)]
  {
    if v == 0 then Validation([], [RequiredMessage(key, v)]) else Validation([], [])
  }

  /** The error message names the offending key, quoted, right at its start. */
  lemma RequiredMessageNamesKey(key: string)
    ensures var msg := ValidateInfrastructureId(key, 0).errs[0];
      |msg| >= |key| + 2 && msg[1..|key| + 1] == key
  {
    var msg := ValidateInfrastructureId(key, 0).errs[0];
    assert msg == "\"" + key + "\"" + " is required. Provided value: " + Itoa(0);
    assert msg[1..|key| + 1] == key;
  }

  // ---------------------------------------------------------------------------
  // Waiting for a deploy status

  /** One answer of `InfrastructureGet` while polling: the operation's deploy status, or a
      failed call. */
  datatype Fetch = Status(deployStatus: string) | FetchError

  /** How one poll is judged: still pending, at the target, a status that is neither, or a
      failure. */
  datatype Step = Pending | Reached | Unexpected(status: string) | Failed

  /** The `Refresh` function together with the state-change rule: the target status is
      checked before the pending ones, and a failed fetch counts as the target when waiting
      for `deleted`. */
  function Classify(target: string, f: Fetch): (s: Step)
    ensures s == Reached <==>
      (f.FetchError? && target == DEPLOY_STATUS_DELETED) || (f.Status? && f.deployStatus == target)
    ensures s == Pending <==>
      f.Status? && f.deployStatus != target &&
      (f.deployStatus == DEPLOY_STATUS_NOT_STARTED || f.deployStatus == DEPLOY_STATUS_ONGOING)
    ensures s == Failed <==> f.FetchError? && target != DEPLOY_STATUS_DELETED
    ensures s.Unexpected? ==> f.Status? && s.status == f.deployStatus
  {
    match f
    case FetchError =>
      if target == DEPLOY_STATUS_DELETED then Reached else Failed
    case Status(status) =>
      if status == target then Reached
      else if status == DEPLOY_STATUS_NOT_STARTED || status == DEPLOY_STATUS_ONGOING then Pending
      else Unexpected(status)
  }

  /** How a wait ends: the target was seen, the polls ran out (the timeout), or a poll was
      unexpected or failed. */
  datatype WaitOutcome = Done | TimedOut | WaitError

  /** The outcome of waiting on the given sequence of polls. */
  function WaitResult(target: string, polls: seq<Fetch>): WaitOutcome
  {
    if polls == [] then TimedOut
    else match Classify(target, polls[0])
      case Pending => WaitResult(target, polls[1..])
      case Reached => Done
      case _ => WaitError
  }

  /** A prefix of pending polls. */
  predicate AllPending(target: string, polls: seq<Fetch>, n: int)
    requires 0 <= n <= |polls|
  {
    forall j :: 0 <= j < n ==> Classify(target, polls[j]) == Pending
  }

  /** The wait succeeds exactly when some poll reaches the target and every poll before it
      is pending. */
  lemma {:induction false} WaitDoneIff(target: string, polls: seq<Fetch>)
    ensures WaitResult(target, polls) == Done <==>
      exists i :: 0 <= i < |polls| && Classify(target, polls[i]) == Reached && AllPending(target, polls, i)
  {
    if polls == [] {
    } else {
      WaitDoneIff(target, polls[1..]);
      var s := Classify(target, polls[0]);
      if WaitResult(target, polls) == Done {
        if s == Reached {
          assert Classify(target, polls[0]) == Reached && AllPending(target, polls, 0);
        } else {
          var i :| 0 <= i < |polls[1..]| && Classify(target, polls[1..][i]) == Reached
            && AllPending(target, polls[1..], i);
          assert Classify(target, polls[i + 1]) == Reached;
          forall j | 0 <= j < i + 1
            ensures Classify(target, polls[j]) == Pending
          {
            if j > 0 {
              assert polls[j] == polls[1..][j - 1];
            }
          }
        }
      } else {
        forall i | 0 <= i < |polls| && Classify(target, polls[i]) == Reached
          ensures !AllPending(target, polls, i)
        {
          if i > 0 && s == Pending {
            assert polls[1..][i - 1] == polls[i];
            assert !AllPending(target, polls[1..], i - 1);
            var j :| 0 <= j < i - 1 && Classify(target, polls[1..][j]) != Pending;
            assert polls[j + 1] == polls[1..][j];
          }
        }
      }
    }
  }

  /** `WaitForState`: polls until the status is not pending or the polls run out. */
  method WaitForState(target: string, polls: seq<Fetch>) returns (outcome: WaitOutcome)
    ensures outcome == WaitResult(target, polls)
  {
    var i := 0;
    while i < |polls|
      invariant 0 <= i <= |polls|
      invariant WaitResult(target, polls) == WaitResult(target, polls[i..])
    {
      assert polls[i..][1..] == polls[i + 1..];
      var step := Classify(target, polls[i]);
      if step == Reached {
        return Done;
      } else if step != Pending {
        return WaitError;
      }
      i := i + 1;
    }
    return TimedOut;
  }

  // ---------------------------------------------------------------------------
  // Resource state

  /** The shutdown and deploy options passed with every deploy. */
  datatype DeployOptions = DeployOptions(
    hardShutdownAfterTimeout: bool,
    attemptSoftShutdown: bool,
    softShutdownTimeoutSeconds: int,
    allowDataLoss: bool,
    skipAnsible: bool)

  /** The calls that change the platform, with the identifier they are given. */
  datatype Call =
    | InfrastructureEdit(infrastructureId: int, customVariables: map<string, string>)
    | InfrastructureDeploy(infrastructureId: int, options: DeployOptions)
    | InfrastructureDelete(infrastructureId: int)

  /** What `InfrastructureGet` answers when it succeeds, as far as Read uses it. */
  datatype Infrastructure = Infrastructure(serviceStatus: string, customVariables: CustomVariables)

  /** Why an operation returned an error. */
  datatype Cause = InvalidId | FetchFailed | DeployFailed | DeleteFailed | WaitFailed

  /** The diagnostics an operation returns: none, one warning, or one error. */
  datatype Diagnostic = NoDiagnostic | Warning(summary: string) | Error(cause: Cause)

  /** The resource's stored attributes and the log of platform-changing calls. */
  datatype Resource = Resource(
    id: string,
    infrastructureId: int,
    customVariables: map<string, string>,
    serviceStatus: string,
    preventDeploy: bool,
    edited: bool,
    awaitDeployFinished: bool,
    awaitDeleteFinished: bool,
    options: DeployOptions,
    calls: seq<Call>)

  function DeployWarning(infrastructureId: int): string
  {
    "The deploy could not finish for infrastructure #" + Itoa(infrastructureId)
      + ". Correct the configuration and try again."
  }

  /** Read: the service status is stored, and custom variables sent as an array become the
      empty map while a map is stored as strings. */
  function ReadSpec(r: Resource, fetched: Option<Infrastructure>): (Resource, Diagnostic)
    requires fetched.Some? ==> WellTyped(fetched.value.customVariables)
  {
    match fetched
    case None => (r, Error(FetchFailed))
    case Some(inf) =>
      (r.(serviceStatus := inf.serviceStatus, customVariables := StateOf(inf.customVariables)),
       NoDiagnostic)
  }

  /** `waitForInfrastructureFinished`: a successful wait is followed by a Read unless the
      target is `deleted`. */
  function WaitSpec(r: Resource, target: string, polls: seq<Fetch>, fetched: Option<Infrastructure>)
    : (Resource, Diagnostic)
    requires fetched.Some? ==> WellTyped(fetched.value.customVariables)
  {
    if WaitResult(target, polls) != Done then (r, Error(WaitFailed))
    else if target == DEPLOY_STATUS_DELETED then (r, NoDiagnostic)
    else ReadSpec(r, fetched)
  }

  /** Read succeeds exactly when the fetch does; a failed fetch changes nothing, and a
      successful one changes only the service status and the custom variables. */
  lemma ReadSpecOutcome(r: Resource, fetched: Option<Infrastructure>)
    requires fetched.Some? ==> WellTyped(fetched.value.customVariables)
    ensures var (r', d) := ReadSpec(r, fetched);
      (d == NoDiagnostic <==> fetched.Some?) && (fetched.None? ==> (r', d) == (r, Error(FetchFailed))) &&
      r'.(serviceStatus := r.serviceStatus, customVariables := r.customVariables) == r
  {
  }

  /** The wait reports its own error exactly when the polls do not reach the target; waiting
      for `deleted` leaves the state alone, and otherwise only the final Read changes it. */
  lemma WaitSpecOutcome(r: Resource, target: string, polls: seq<Fetch>, fetched: Option<Infrastructure>)
    requires fetched.Some? ==> WellTyped(fetched.value.customVariables)
    ensures var (r', d) := WaitSpec(r, target, polls, fetched);
      (d == Error(WaitFailed) <==> WaitResult(target, polls) != Done) &&
      (target == DEPLOY_STATUS_DELETED ==> r' == r) &&
      r'.(serviceStatus := r.serviceStatus, customVariables := r.customVariables) == r
  {
  }

  /** CustomizeDiff: a configuration that allows deploys is marked as edited. */
  function CustomizeDiffSpec(r: Resource): Resource
  {
    if !r.preventDeploy then r.(edited := true) else r
  }

  /** The custom-variable push made by Update; its outcome is never looked at. */
  function PushSpec(r: Resource, push: bool): Resource
  {
    if push then r.(calls := r.calls + [InfrastructureEdit(r.infrastructureId, r.customVariables)])
    else r
  }

  /** The state Update reaches before its final Read or wait, once the id `n` parsed from
      the resource id is known: the id reset, the custom-variable push and, when
      `edited && !prevent_deploy`, the deploy with `edited` cleared. */
  function Prepared(r: Resource, n: int, push: bool): Resource
  {
    var r1 := if n != r.infrastructureId then r.(id := Itoa(r.infrastructureId)) else r;
    var r2 := PushSpec(r1, push);
    if r2.edited && !r2.preventDeploy then
      r2.(edited := false, calls := r2.calls + [InfrastructureDeploy(r2.infrastructureId, r2.options)])
    else r2
  }

  /** Update, given whether the custom variables are pushed, whether the deploy call fails,
      the polls of the wait and the answer to the final Read. */
  function UpdateSpec(r: Resource, push: bool, deployFails: bool, polls: seq<Fetch>,
                      fetched: Option<Infrastructure>): (res: (Resource, Diagnostic))
    requires fetched.Some? ==> WellTyped(fetched.value.customVariables)
    ensures Atoi(r.id).None? ==> res == (r, Error(InvalidId))
  {
    match Atoi(r.id)
    case None => (r, Error(InvalidId))
    case Some(n) =>
      var p := Prepared(r, n, push);
      if r.edited && !r.preventDeploy then
        if deployFails then
          var (r', d) := ReadSpec(p, fetched);
          if d.Error? then (r', d) else (r', Warning(DeployWarning(p.infrastructureId)))
        else if p.awaitDeployFinished then WaitSpec(p, DEPLOY_STATUS_FINISHED, polls, fetched)
        else ReadSpec(p, fetched)
      else ReadSpec(p, fetched)
  }

  /** Apart from what the final Read stores, Update leaves the prepared state. */
  lemma UpdateReachesPrepared(r: Resource, push: bool, deployFails: bool, polls: seq<Fetch>,
                              fetched: Option<Infrastructure>)
    requires fetched.Some? ==> WellTyped(fetched.value.customVariables)
    requires Atoi(r.id).Some?
    ensures var (r', _) := UpdateSpec(r, push, deployFails, polls, fetched);
      var p := Prepared(r, Atoi(r.id).value, push);
      r'.(serviceStatus := p.serviceStatus, customVariables := p.customVariables) == p
  {
  }

  /** Create: the infrastructure must already exist; its identifier becomes the resource id
      and the rest is Update. */
  function CreateSpec(r: Resource, found: Option<int>, push: bool, deployFails: bool,
                      polls: seq<Fetch>, fetched: Option<Infrastructure>): (res: (Resource, Diagnostic))
    requires fetched.Some? ==> WellTyped(fetched.value.customVariables)
    ensures found.None? ==> res == (r, Error(FetchFailed))
    ensures found.Some? && IsInt64(found.value) ==> res.1 != Error(InvalidId)
  {
    match found
    case None => (r, Error(FetchFailed))
    case Some(n) =>
      var r1 := r.(id := Itoa(n));
      assert IsInt64(n) ==> Atoi(r1.id).Some? by {
        if IsInt64(n) {
          AtoiOfItoa(n);
        }
      }
      UpdateSpec(r1, push, deployFails, polls, fetched)
  }

  /** Delete, given whether the delete call fails, whether the deploy call fails and the
      polls of the wait. */
  function DeleteSpec(r: Resource, deleteFails: bool, deployFails: bool, polls: seq<Fetch>)
    : (res: (Resource, Diagnostic))
    ensures res.0.(id := r.id, calls := r.calls) == r
    ensures res.0.id == "" || res.0.id == r.id
    ensures Atoi(r.id).None? ==> res == (r, Error(InvalidId))
  {
    match Atoi(r.id)
    case None => (r, Error(InvalidId))
    case Some(n) =>
      var r1 := r.(calls := r.calls + [InfrastructureDelete(n)]);
      if deleteFails then (r1, Error(DeleteFailed))
      else if !r1.preventDeploy && r1.serviceStatus == SERVICE_STATUS_ACTIVE then
        var r2 := r1.(calls := r1.calls + [InfrastructureDeploy(n, r1.options)]);
        if deployFails then (r2, Error(DeployFailed))
        else if r2.awaitDeleteFinished then
          var (r3, d) := WaitSpec(r2, DEPLOY_STATUS_DELETED, polls, None);
          if d.Error? then (r3, d) else (r3.(id := ""), NoDiagnostic)
        else (r2.(id := ""), NoDiagnostic)
      else (r1.(id := ""), NoDiagnostic)
  }

  // ---------------------------------------------------------------------------
  // Properties of the operations

  /** The number of deploys in a call log. */
  function Deploys(calls: seq<Call>): nat
  {
    if calls == [] then 0
    else Deploys(calls[..|calls| - 1]) + (if calls[|calls| - 1].InfrastructureDeploy? then 1 else 0)
  }

  lemma {:induction false} DeploysConcat(a: seq<Call>, b: seq<Call>)
    ensures Deploys(a + b) == Deploys(a) + Deploys(b)
    decreases |b|
  {
    if b == [] {
      assert a + b == a;
    } else {
      assert (a + b)[..|a + b| - 1] == a + b[..|b| - 1];
      DeploysConcat(a, b[..|b| - 1]);
    }
  }

  /** The preparation issues one deploy when `edited && !prevent_deploy`, and none otherwise. */
  lemma PreparedDeploys(r: Resource, n: int, push: bool)
    ensures Deploys(Prepared(r, n, push).calls) == Deploys(r.calls) + (if r.edited && !r.preventDeploy then 1 else 0)
  {
    var r1 := if n != r.infrastructureId then r.(id := Itoa(r.infrastructureId)) else r;
    var edits := if push then [InfrastructureEdit(r.infrastructureId, r.customVariables)] else [];
    assert PushSpec(r1, push).calls == r.calls + edits;
    DeploysConcat(r.calls, edits);
    assert Deploys(edits) == 0;
    if r.edited && !r.preventDeploy {
      var deploy := InfrastructureDeploy(r.infrastructureId, r.options);
      DeploysConcat(r.calls + edits, [deploy]);
      assert Deploys([deploy]) == 1;
    }
  }

  /** Update issues one deploy when the id parses and `edited && !prevent_deploy`, and no
      deploy otherwise. */
  lemma UpdateDeploysIff(r: Resource, push: bool, deployFails: bool, polls: seq<Fetch>,
                         fetched: Option<Infrastructure>)
    requires fetched.Some? ==> WellTyped(fetched.value.customVariables)
    ensures var (r', _) := UpdateSpec(r, push, deployFails, polls, fetched);
      Deploys(r'.calls) == Deploys(r.calls) +
        (if Atoi(r.id).Some? && r.edited && !r.preventDeploy then 1 else 0)
  {
    if Atoi(r.id).Some? {
      var p := Prepared(r, Atoi(r.id).value, push);
      assert UpdateSpec(r, push, deployFails, polls, fetched).0.calls == p.calls by {
        UpdateReachesPrepared(r, push, deployFails, polls, fetched);
      }
      PreparedDeploys(r, Atoi(r.id).value, push);
    }
  }

  /** A deploy clears `edited`; without one the flag is left as it was. The flags that
      configure the resource are never touched. */
  lemma UpdateEditedFlag(r: Resource, push: bool, deployFails: bool, polls: seq<Fetch>,
                         fetched: Option<Infrastructure>)
    requires fetched.Some? ==> WellTyped(fetched.value.customVariables)
    ensures var (r', _) := UpdateSpec(r, push, deployFails, polls, fetched);
      r'.edited == (r.edited && !(Atoi(r.id).Some? && !r.preventDeploy)) &&
      r'.preventDeploy == r.preventDeploy && r'.infrastructureId == r.infrastructureId &&
      r'.awaitDeployFinished == r.awaitDeployFinished &&
      r'.awaitDeleteFinished == r.awaitDeleteFinished && r'.options == r.options
  {
    if Atoi(r.id).Some? {
      UpdateReachesPrepared(r, push, deployFails, polls, fetched);
    }
  }

  /** Once Update has run, the id is the decimal form of `infrastructure_id`; an id that does
      not parse is left alone. */
  lemma UpdateResetsId(r: Resource, push: bool, deployFails: bool, polls: seq<Fetch>,
                       fetched: Option<Infrastructure>)
    requires fetched.Some? ==> WellTyped(fetched.value.customVariables)
    requires IsInt64(r.infrastructureId)
    ensures var (r', _) := UpdateSpec(r, push, deployFails, polls, fetched);
      (Atoi(r.id).Some? ==> Atoi(r'.id) == Some(r.infrastructureId)) &&
      (Atoi(r.id).None? ==> r' == r)
  {
    AtoiOfItoa(r.infrastructureId);
    if Atoi(r.id).Some? {
      UpdateReachesPrepared(r, push, deployFails, polls, fetched);
    }
  }

  /** A second Update with no diff in between issues no deploy. */
  lemma SecondUpdateDoesNotDeploy(r: Resource, push: bool, deployFails: bool, polls: seq<Fetch>,
                                  fetched: Option<Infrastructure>,
                                  push2: bool, deployFails2: bool, polls2: seq<Fetch>,
                                  fetched2: Option<Infrastructure>)
    requires fetched.Some? ==> WellTyped(fetched.value.customVariables)
    requires fetched2.Some? ==> WellTyped(fetched2.value.customVariables)
    ensures var (r1, _) := UpdateSpec(r, push, deployFails, polls, fetched);
      var (r2, _) := UpdateSpec(r1, push2, deployFails2, polls2, fetched2);
      Deploys(r2.calls) == Deploys(r1.calls)
  {
    var (r1, _) := UpdateSpec(r, push, deployFails, polls, fetched);
    UpdateEditedFlag(r, push, deployFails, polls, fetched);
    UpdateDeploysIff(r1, push2, deployFails2, polls2, fetched2);
    if Atoi(r.id).None? {
      assert r1 == r;
    }
  }

  /** A diff between two Updates of a resource that allows deploys arms the next deploy. */
  lemma DiffRearmsDeploy(r: Resource, push: bool, deployFails: bool, polls: seq<Fetch>,
                         fetched: Option<Infrastructure>,
                         push2: bool, deployFails2: bool, polls2: seq<Fetch>,
                         fetched2: Option<Infrastructure>)
    requires fetched.Some? ==> WellTyped(fetched.value.customVariables)
    requires fetched2.Some? ==> WellTyped(fetched2.value.customVariables)
    requires IsInt64(r.infrastructureId) && Atoi(r.id).Some? && !r.preventDeploy
    ensures var (r1, _) := UpdateSpec(r, push, deployFails, polls, fetched);
      var (r2, _) := UpdateSpec(CustomizeDiffSpec(r1), push2, deployFails2, polls2, fetched2);
      Deploys(r2.calls) == Deploys(r1.calls) + 1
  {
    var (r1, _) := UpdateSpec(r, push, deployFails, polls, fetched);
    UpdateEditedFlag(r, push, deployFails, polls, fetched);
    UpdateResetsId(r, push, deployFails, polls, fetched);
    UpdateDeploysIff(CustomizeDiffSpec(r1), push2, deployFails2, polls2, fetched2);
  }

  /** A failed deploy is reported as a warning, unless the Read that follows it fails. */
  lemma UpdateDeployFailureWarns(r: Resource, push: bool, polls: seq<Fetch>,
                                 fetched: Option<Infrastructure>)
    requires fetched.Some? ==> WellTyped(fetched.value.customVariables)
    requires Atoi(r.id).Some? && r.edited && !r.preventDeploy
    ensures var (_, d) := UpdateSpec(r, push, true, polls, fetched);
      d == if fetched.Some? then Warning(DeployWarning(r.infrastructureId)) else Error(FetchFailed)
  {
  }

  /** A deploy that goes through is awaited when `await_deploy_finished` is set: the result
      is then the outcome of waiting for `finished`. */
  lemma UpdateAwaitsFinished(r: Resource, push: bool, polls: seq<Fetch>,
                             fetched: Option<Infrastructure>)
    requires fetched.Some? ==> WellTyped(fetched.value.customVariables)
    requires Atoi(r.id).Some? && r.edited && !r.preventDeploy && r.awaitDeployFinished
    ensures var (_, d) := UpdateSpec(r, push, false, polls, fetched);
      (WaitResult(DEPLOY_STATUS_FINISHED, polls) != Done ==> d == Error(WaitFailed)) &&
      (WaitResult(DEPLOY_STATUS_FINISHED, polls) == Done ==>
        d == if fetched.Some? then NoDiagnostic else Error(FetchFailed))
  {
  }

  /** Update never reports an error because a deploy call failed, and never warns for any
      other reason. */
  lemma UpdateErrorCauses(r: Resource, push: bool, deployFails: bool, polls: seq<Fetch>,
                          fetched: Option<Infrastructure>)
    requires fetched.Some? ==> WellTyped(fetched.value.customVariables)
    ensures var (_, d) := UpdateSpec(r, push, deployFails, polls, fetched);
      (d.Error? ==> d.cause != DeployFailed && d.cause != DeleteFailed) &&
      (d.Warning? ==> deployFails && r.edited && !r.preventDeploy)
  {
  }

  /** Delete issues the delete call first whenever the id parses. */
  lemma DeleteDeletesFirst(r: Resource, deleteFails: bool, deployFails: bool, polls: seq<Fetch>)
    requires Atoi(r.id).Some?
    ensures var (r', _) := DeleteSpec(r, deleteFails, deployFails, polls);
      |r'.calls| > |r.calls| && r'.calls[..|r.calls|] == r.calls &&
      r'.calls[|r.calls|] == InfrastructureDelete(Atoi(r.id).value)
  {
  }

  /** Delete deploys exactly when the delete call succeeded, `prevent_deploy` is false and
      the stored service status is `active`. */
  lemma DeleteDeploysIff(r: Resource, deleteFails: bool, deployFails: bool, polls: seq<Fetch>)
    ensures var (r', _) := DeleteSpec(r, deleteFails, deployFails, polls);
      Deploys(r'.calls) == Deploys(r.calls) +
        (if Atoi(r.id).Some? && !deleteFails && !r.preventDeploy
            && r.serviceStatus == SERVICE_STATUS_ACTIVE then 1 else 0)
  {
    var (r', _) := DeleteSpec(r, deleteFails, deployFails, polls);
    if Atoi(r.id).Some? {
      var n := Atoi(r.id).value;
      DeploysConcat(r.calls, [InfrastructureDelete(n)]);
      assert Deploys([InfrastructureDelete(n)]) == 0;
      if !deleteFails && !r.preventDeploy && r.serviceStatus == SERVICE_STATUS_ACTIVE {
        var deploy := InfrastructureDeploy(n, r.options);
        DeploysConcat(r.calls + [InfrastructureDelete(n)], [deploy]);
        assert Deploys([deploy]) == 1;
        assert r'.calls == r.calls + [InfrastructureDelete(n)] + [deploy];
      } else {
        assert r'.calls == r.calls + [InfrastructureDelete(n)];
      }
    }
  }

  /** A successful Delete clears the id; a failed one keeps it. Delete never reads the
      platform back, so the stored attributes other than the id stay as they were. */
  lemma DeleteClearsId(r: Resource, deleteFails: bool, deployFails: bool, polls: seq<Fetch>)
    ensures var (r', d) := DeleteSpec(r, deleteFails, deployFails, polls);
      (d == NoDiagnostic ==> r'.id == "") && (d != NoDiagnostic ==> d.Error? && r'.id == r.id) &&
      r'.(id := r.id, calls := r.calls) == r
  {
  }

  /** Waiting for `deleted` succeeds on a failed fetch and never reads afterwards. */
  lemma WaitForDeletedIgnoresRead(r: Resource, polls: seq<Fetch>, fetched: Option<Infrastructure>)
    requires fetched.Some? ==> WellTyped(fetched.value.customVariables)
    ensures WaitSpec(r, DEPLOY_STATUS_DELETED, polls, fetched) == WaitSpec(r, DEPLOY_STATUS_DELETED, polls, None)
    ensures WaitResult(DEPLOY_STATUS_DELETED, [FetchError]) == Done
  {
  }

  // ---------------------------------------------------------------------------
  // The resource

  /** The resource data of one deployer, updated in place by the operations. */
  class Deployer {
    var id: string
    var infrastructureId: int
    var customVariables: map<string, string>
    var serviceStatus: string
    var preventDeploy: bool
    var edited: bool
    var awaitDeployFinished: bool
    var awaitDeleteFinished: bool
    var options: DeployOptions
    var calls: seq<Call>

    /** A freshly planned resource: the configured attributes, no id and no calls yet. */
    constructor (infrastructureId: int, customVariables: map<string, string>, preventDeploy: bool,
                 awaitDeployFinished: bool, awaitDeleteFinished: bool, options: DeployOptions)
      ensures State() == Resource("", infrastructureId, customVariables, "", preventDeploy, false,
                                  awaitDeployFinished, awaitDeleteFinished, options, [])
    {
      this.id := "";
      this.infrastructureId := infrastructureId;
      this.customVariables := customVariables;
      this.serviceStatus := "";
      this.preventDeploy := preventDeploy;
      this.edited := false;
      this.awaitDeployFinished := awaitDeployFinished;
      this.awaitDeleteFinished := awaitDeleteFinished;
      this.options := options;
      this.calls := [];
    }

    function State(): Resource
      reads this
    {
      Resource(id, infrastructureId, customVariables, serviceStatus, preventDeploy, edited,
               awaitDeployFinished, awaitDeleteFinished, options, calls)
    }

    method CustomizeDiff()
      modifies this
      ensures State() == CustomizeDiffSpec(old(State()))
    {
      if !preventDeploy {
        edited := true;
      }
    }

    method Read(fetched: Option<Infrastructure>) returns (d: Diagnostic)
      requires fetched.Some? ==> WellTyped(fetched.value.customVariables)
      modifies this
      ensures (State(), d) == ReadSpec(old(State()), fetched)
    {
      if fetched.None? {
        return Error(FetchFailed);
      }
      serviceStatus := fetched.value.serviceStatus;
      customVariables := FlattenCustomVariables(fetched.value.customVariables);
      d := NoDiagnostic;
    }

    method WaitForInfrastructureFinished(target: string, polls: seq<Fetch>,
                                         fetched: Option<Infrastructure>) returns (d: Diagnostic)
      requires fetched.Some? ==> WellTyped(fetched.value.customVariables)
      modifies this
      ensures (State(), d) == WaitSpec(old(State()), target, polls, fetched)
    {
      var outcome := WaitForState(target, polls);
      if outcome != Done {
        return Error(WaitFailed);
      }
      if target == DEPLOY_STATUS_DELETED {
        return NoDiagnostic;
      }
      d := Read(fetched);
    }

    /** `updateInfrastructureCustomVariables`: its result is dropped by the caller. */
    method PushCustomVariables(push: bool)
      modifies this
      ensures State() == PushSpec(old(State()), push)
    {
      if push {
        calls := calls + [InfrastructureEdit(infrastructureId, customVariables)];
      }
    }

    method Update(push: bool, deployFails: bool, polls: seq<Fetch>, fetched: Option<Infrastructure>)
      returns (d: Diagnostic)
      requires fetched.Some? ==> WellTyped(fetched.value.customVariables)
      modifies this
      ensures (State(), d) == UpdateSpec(old(State()), push, deployFails, polls, fetched)
    {
      var parsed := Atoi(id);
      if parsed.None? {
        return Error(InvalidId);
      }
      if parsed.value != infrastructureId {
        id := Itoa(infrastructureId);
      }
      PushCustomVariables(push);
      if edited && !preventDeploy {
        edited := false;
        calls := calls + [InfrastructureDeploy(infrastructureId, options)];
        if deployFails {
          var dg := Read(fetched);
          if dg.Error? {
            return dg;
          }
          return Warning(DeployWarning(infrastructureId));
        }
        if awaitDeployFinished {
          d := WaitForInfrastructureFinished(DEPLOY_STATUS_FINISHED, polls, fetched);
          return;
        }
      }
      d := Read(fetched);
    }

    method Create(found: Option<int>, push: bool, deployFails: bool, polls: seq<Fetch>,
                  fetched: Option<Infrastructure>) returns (d: Diagnostic)
      requires fetched.Some? ==> WellTyped(fetched.value.customVariables)
      modifies this
      ensures (State(), d) == CreateSpec(old(State()), found, push, deployFails, polls, fetched)
    {
      if found.None? {
        return Error(FetchFailed);
      }
      id := Itoa(found.value);
      d := Update(push, deployFails, polls, fetched);
    }

    method Delete(deleteFails: bool, deployFails: bool, polls: seq<Fetch>) returns (d: Diagnostic)
      modifies this
      ensures (State(), d) == DeleteSpec(old(State()), deleteFails, deployFails, polls)
    {
      var parsed := Atoi(id);
      if parsed.None? {
        return Error(InvalidId);
      }
      var n := parsed.value;
      calls := calls + [InfrastructureDelete(n)];
      if deleteFails {
        return Error(DeleteFailed);
      }
      if !preventDeploy && serviceStatus == SERVICE_STATUS_ACTIVE {
        calls := calls + [InfrastructureDeploy(n, options)];
        if deployFails {
          return Error(DeployFailed);
        }
        if awaitDeleteFinished {
          var dg := WaitForInfrastructureFinished(DEPLOY_STATUS_DELETED, polls, None);
          if dg.Error? {
            return dg;
          }
        }
      }
      id := "";
      d := NoDiagnostic;
    }
  }
}
