/**
 * `run()` (src/index.ts, lines 14-86): read the inputs, expand them into secret ids,
 * fetch and inject each secret, collect the injected names and export them once
 * for the cleanup step.
 *
 * Its side effects are returned instead of performed: the ids handed to
 * `getSecretValue`, the names collected in `secretsToCleanup`, the ids reported
 * through `setFailed`, the list handed to `exportVariable` (if it is reached)
 * and whether the run was marked failed.
 */
module Orchestrator {
  import opened Wrappers
  import opened Utils
  import opened SecretIdInputs
  import opened AliasResolution

  /** How one secret ended inside the per-secret `try`: injected under the returned
      names, or caught. `secretId` is the id after alias extraction. */
  datatype SecretOutcome =
    | Injected(secretId: string, names: seq<string>)
    | Caught(secretId: string, error: Thrown)

  /** The loop's state after some prefix of the ids; `aborted` is what escaped the
      per-secret `try` and ended the loop. */
  datatype LoopState = LoopState(
    fetched: seq<string>,
    secretsToCleanup: seq<string>,
    failedIds: seq<string>,
    aborted: Option<Thrown>)

  /** The observable result of one `run()`. */
  datatype RunOutcome = RunOutcome(
    fetched: seq<string>,
    secretsToCleanup: seq<string>,
    failedIds: seq<string>,
    exported: Option<seq<string>>,
    abortedBy: Option<Thrown>,
    failed: bool)

  /** The call at line 68: `injectSecret` under the resolved name, for the secret `ref`
      names and the `response` the store gave for it. */
  function InjectResolved<Tr>(u: Helpers<Tr>, parseJson: bool, tr: Tr,
                              ref: SecretReference, response: SecretValueResponse): (r: Result<seq<string>, Thrown>)
    ensures ref.alias.Some? && ref.alias.value != "" ==>
              r == u.injectSecret(ref.alias.value, response.secretValue, parseJson, tr)
    ensures ref.alias == Some("") && parseJson && u.isJSONString(response.secretValue) ==>
              r == u.injectSecret("", response.secretValue, parseJson, tr)
    ensures ref.alias.None? || (ref.alias == Some("") && !(parseJson && u.isJSONString(response.secretValue))) ==>
              r == u.injectSecret(if u.isSecretArn(ref.secretId) then response.name else ref.secretId,
                                  response.secretValue, parseJson, tr)
  {
    var name := ResolveAlias(ref.alias, ref.secretId, u.isSecretArn(ref.secretId), response.name,
                             parseJson, u.isJSONString(response.secretValue));
    u.injectSecret(name, response.secretValue, parseJson, tr)
  }

  /**
   * One pass of the loop body for the configured line `input` (lines 45-74).
   * A failure of `extractAliasAndSecretIdFromInput`, which stands outside the inner
   * `try`, is returned as `Failure`; everything the inner `try` catches is `Caught`.
   */
  function ProcessSecret<Tr>(u: Helpers<Tr>, parseJson: bool, tr: Tr, input: string)
    : (r: Result<SecretOutcome, Thrown>)
    ensures r.Failure? <==> u.extractAliasAndSecretIdFromInput(input, tr).Failure?
    ensures r.Failure? ==> r.error == u.extractAliasAndSecretIdFromInput(input, tr).error
    ensures r.Success? ==> r.value.secretId == u.extractAliasAndSecretIdFromInput(input, tr).value.secretId
  {
    match u.extractAliasAndSecretIdFromInput(input, tr)
    case Failure(e) => Failure(e)
    case Success(ref) =>
      Success(
        match u.getSecretValue(ref.secretId)
        case Failure(e) => Caught(ref.secretId, e)
        case Success(response) =>
          match InjectResolved(u, parseJson, tr, ref, response)
          case Failure(e) => Caught(ref.secretId, e)
          case Success(names) => Injected(ref.secretId, names))
  }

  /**
   * The outcome of a pass whose alias extraction succeeded: injected with `names`
   * exactly when the fetch succeeded and `injectSecret`, under the resolved name,
   * returned `names`; caught with the error of the fetch or of `injectSecret` otherwise.
   */
  lemma ProcessSecretOutcome<Tr>(u: Helpers<Tr>, parseJson: bool, tr: Tr, input: string, ref: SecretReference)
    requires u.extractAliasAndSecretIdFromInput(input, tr) == Success(ref)
    ensures var r := ProcessSecret(u, parseJson, tr, input);
      var fetch := u.getSecretValue(ref.secretId);
      && r.Success?
      && (forall names: seq<string> :: r.value == Injected(ref.secretId, names) <==>
            fetch.Success? && InjectResolved(u, parseJson, tr, ref, fetch.value) == Success(names))
      && (forall e: Thrown :: r.value == Caught(ref.secretId, e) <==>
            || fetch == Failure(e)
            || (fetch.Success? && InjectResolved(u, parseJson, tr, ref, fetch.value) == Failure(e)))
  {
  }

  /** The state after a completed pass. */
  function Record(s: LoopState, o: SecretOutcome): (r: LoopState)
    ensures r.fetched == s.fetched + [o.secretId] && r.aborted == s.aborted
    ensures o.Injected? ==> r.secretsToCleanup == s.secretsToCleanup + o.names && r.failedIds == s.failedIds
    ensures o.Caught? ==> r.secretsToCleanup == s.secretsToCleanup && r.failedIds == s.failedIds + [o.secretId]
  {
    match o
    case Injected(id, names) =>
      s.(fetched := s.fetched + [id], secretsToCleanup := s.secretsToCleanup + names)
    case Caught(id, _) =>
      s.(fetched := s.fetched + [id], failedIds := s.failedIds + [id])
  }

  /** The loop over `ids`, pass by pass; once something escapes the inner `try`
      the remaining ids are not visited. */
  function ProcessAll<Tr>(u: Helpers<Tr>, parseJson: bool, tr: Tr, ids: seq<string>): (s: LoopState)
    ensures |s.fetched| <= |ids|
    decreases |ids|
  {
    if ids == [] then LoopState([], [], [], None)
    else
      var prev := ProcessAll(u, parseJson, tr, ids[..|ids| - 1]);
      if prev.aborted.Some? then prev
      else match ProcessSecret(u, parseJson, tr, ids[|ids| - 1])
        case Failure(e) => prev.(aborted := Some(e))
        case Success(o) => Record(prev, o)
  }

  /**
   * Every visited id is fetched once and is either injected or reported failed: the
   * loop never reports more failed ids than it fetched, never fetches more ids than
   * it is given, fetches all of them when it runs to its end, and fewer when
   * something escaped. Names are collected only if some fetched id did not fail.
   */
  lemma {:induction false} ProcessAllCounts<Tr>(u: Helpers<Tr>, parseJson: bool, tr: Tr, ids: seq<string>)
    ensures var s := ProcessAll(u, parseJson, tr, ids);
      && |s.failedIds| <= |s.fetched| <= |ids|
      && (|s.secretsToCleanup| > 0 ==> |s.failedIds| < |s.fetched|)
      && (s.aborted.None? ==> |s.fetched| == |ids|)
      && (s.aborted.Some? ==> |s.fetched| < |ids|)
    decreases |ids|
  {
    if ids != [] {
      ProcessAllCounts(u, parseJson, tr, ids[..|ids| - 1]);
    }
  }

  /** The outer `catch` (lines 82-85): nothing is exported, and `setFailed` is called
      only when the thrown value is an `Error`. */
  function AbortedRun(s: LoopState, e: Thrown): (r: RunOutcome)
    ensures r.exported.None? && r.abortedBy == Some(e)
    ensures r.fetched == s.fetched && r.secretsToCleanup == s.secretsToCleanup && r.failedIds == s.failedIds
    ensures r.failed <==> s.failedIds != [] || e.ErrorInstance?
  {
    RunOutcome(s.fetched, s.secretsToCleanup, s.failedIds, None, Some(e),
               s.failedIds != [] || e.ErrorInstance?)
  }

  /** The whole of `run()` for the `secret-ids` lines, the `parse-json-secrets` flag
      and the `name-transformation` input. */
  function RunResult<Tr>(u: Helpers<Tr>, secretIdLines: seq<string>, parseJson: bool,
                         transformationInput: string): (r: RunOutcome)
    ensures r.exported.Some? <==> r.abortedBy.None?
    ensures r.exported.Some? ==> r.exported.value == r.secretsToCleanup
    ensures r.failedIds != [] ==> r.failed
    ensures r.failed ==> r.failedIds != [] || (r.abortedBy.Some? && r.abortedBy.value.ErrorInstance?)
    ensures |r.failedIds| <= |r.fetched|
  {
    var none := LoopState([], [], [], None);
    match u.parseTransformationFunction(transformationInput)
    case Failure(e) => AbortedRun(none, e)
    case Success(tr) =>
      match u.buildSecretsList(Dedup(secretIdLines), tr)
      case Failure(e) => AbortedRun(none, e)
      case Success(ids) =>
        var s := ProcessAll(u, parseJson, tr, ids);
        ProcessAllCounts(u, parseJson, tr, ids);
        match s.aborted
        case Some(e) => AbortedRun(s, e)
        case None =>
          RunOutcome(s.fetched, s.secretsToCleanup, s.failedIds, Some(s.secretsToCleanup), None,
                     s.failedIds != [])
  }

  /** Once the loop has been left, later ids change nothing. */
  lemma {:induction false} AbortIsFinal<Tr>(u: Helpers<Tr>, parseJson: bool, tr: Tr, ids: seq<string>, k: nat)
    requires k <= |ids|
    requires ProcessAll(u, parseJson, tr, ids[..k]).aborted.Some?
    ensures ProcessAll(u, parseJson, tr, ids) == ProcessAll(u, parseJson, tr, ids[..k])
    decreases |ids| - k
  {
    if k < |ids| {
      assert ids[..k + 1][..k] == ids[..k];
      AbortIsFinal(u, parseJson, tr, ids, k + 1);
    } else {
      assert ids[..k] == ids;
    }
  }

  /** One more id: the loop state after `ids[..i + 1]` is that after `ids[..i]`, with
      the pass for `ids[i]` recorded, or with what escaped it. */
  lemma ProcessAllStep<Tr>(u: Helpers<Tr>, parseJson: bool, tr: Tr, ids: seq<string>, i: nat)
    requires i < |ids|
    requires ProcessAll(u, parseJson, tr, ids[..i]).aborted.None?
    ensures var before, step := ProcessAll(u, parseJson, tr, ids[..i]), ProcessSecret(u, parseJson, tr, ids[i]);
      ProcessAll(u, parseJson, tr, ids[..i + 1])
      == if step.Failure? then before.(aborted := Some(step.error)) else Record(before, step.value)
  {
    assert ids[..i + 1][..i] == ids[..i];
  }

  /**
   * The `for` loop of `run()` (lines 41-75), statement by statement: the state it
   * leaves, including what escaped its per-secret `try`, is `ProcessAll` of the ids.
   */
  method RunLoop<Tr>(u: Helpers<Tr>, parseJson: bool, nameTransformation: Tr, secretIds: seq<string>)
    returns (state: LoopState)
    ensures state == ProcessAll(u, parseJson, nameTransformation, secretIds)
  {
    var fetched: seq<string> := [];
    var secretsToCleanup: seq<string> := [];
    var failedIds: seq<string> := [];
    var i := 0;
    while i < |secretIds|
      invariant 0 <= i <= |secretIds|
      invariant ProcessAll(u, parseJson, nameTransformation, secretIds[..i])
                == LoopState(fetched, secretsToCleanup, failedIds, None)
    {
      ghost var step := ProcessSecret(u, parseJson, nameTransformation, secretIds[i]);
      ProcessAllStep(u, parseJson, nameTransformation, secretIds, i);
      var extracted := u.extractAliasAndSecretIdFromInput(secretIds[i], nameTransformation);
      if extracted.Failure? {
        AbortIsFinal(u, parseJson, nameTransformation, secretIds, i + 1);
        return LoopState(fetched, secretsToCleanup, failedIds, Some(extracted.error));
      }
      var secretAlias := extracted.value.alias;
      var secretId := extracted.value.secretId;
      var isArn := u.isSecretArn(secretId);

      fetched := fetched + [secretId];
      var response := u.getSecretValue(secretId);
      if response.Failure? {
        assert step == Success(Caught(secretId, response.error));
        failedIds := failedIds + [secretId];
      } else {
        var secretValue := response.value.secretValue;
        var name := ResolveAlias(secretAlias, secretId, isArn, response.value.name,
                                 parseJson, u.isJSONString(secretValue));
        var injected := u.injectSecret(name, secretValue, parseJson, nameTransformation);
        assert injected == InjectResolved(u, parseJson, nameTransformation, extracted.value, response.value);
        if injected.Failure? {
          assert step == Success(Caught(secretId, injected.error));
          failedIds := failedIds + [secretId];
        } else {
          assert step == Success(Injected(secretId, injected.value));
          secretsToCleanup := secretsToCleanup + injected.value;
        }
      }
      i := i + 1;
    }
    assert secretIds[..i] == secretIds;
    state := LoopState(fetched, secretsToCleanup, failedIds, None);
  }

  /**
   * `run()` itself, statement by statement: its result is `RunResult`.
   */
  method Run<Tr>(u: Helpers<Tr>, secretIdLines: seq<string>, parseJson: bool,
                 transformationInput: string) returns (out: RunOutcome)
    ensures out == RunResult(u, secretIdLines, parseJson, transformationInput)
  {
    var secretConfigInputs := Dedup(secretIdLines);
    var parsed := u.parseTransformationFunction(transformationInput);
    if parsed.Failure? {
      return AbortedRun(LoopState([], [], [], None), parsed.error);
    }
    var nameTransformation := parsed.value;
    var built := u.buildSecretsList(secretConfigInputs, nameTransformation);
    if built.Failure? {
      return AbortedRun(LoopState([], [], [], None), built.error);
    }
    var secretIds := built.value;
    var state := RunLoop(u, parseJson, nameTransformation, secretIds);
    if state.aborted.Some? {
      return AbortedRun(state, state.aborted.value);
    }
    out := RunOutcome(state.fetched, state.secretsToCleanup, state.failedIds, Some(state.secretsToCleanup),
                      None, state.failedIds != []);
  }

}
