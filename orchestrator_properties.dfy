/**
 * What `run()` promises about its loop and its cleanup list, stated against an
 * independent description of a run: the sequence of per-secret outcomes.
 */
module OrchestratorProperties {
  import opened Wrappers
  import opened Utils
  import opened Orchestrator
  import SecretIdInputs

  /** No configured id makes something escape the per-secret `try`. */
  predicate AllPassesComplete<Tr>(u: Helpers<Tr>, parseJson: bool, tr: Tr, ids: seq<string>) {
    forall k :: 0 <= k < |ids| ==> ProcessSecret(u, parseJson, tr, ids[k]).Success?
  }

  /** The outcome of every id, in order. */
  function Outcomes<Tr>(u: Helpers<Tr>, parseJson: bool, tr: Tr, ids: seq<string>): (os: seq<SecretOutcome>)
    requires AllPassesComplete(u, parseJson, tr, ids)
    ensures |os| == |ids|
  {
    seq(|ids|, k requires 0 <= k < |ids| => ProcessSecret(u, parseJson, tr, ids[k]).value)
  }

  /** The ids of the outcomes, in order. */
  function SecretIds(os: seq<SecretOutcome>): seq<string> {
    seq(|os|, k requires 0 <= k < |os| => os[k].secretId)
  }

  /** The names `injectSecret` returned for the injected secrets, concatenated in order. */
  function InjectedNames(os: seq<SecretOutcome>): seq<string> {
    if os == [] then []
    else (if os[0].Injected? then os[0].names else []) + InjectedNames(os[1..])
  }

  /** The ids of the secrets whose fetch or injection threw, in order. */
  function CaughtIds(os: seq<SecretOutcome>): seq<string> {
    if os == [] then []
    else (if os[0].Caught? then [os[0].secretId] else []) + CaughtIds(os[1..])
  }

  lemma {:induction false} InjectedNamesAppend(os: seq<SecretOutcome>, o: SecretOutcome)
    ensures InjectedNames(os + [o]) == InjectedNames(os) + (if o.Injected? then o.names else [])
  {
    if os != [] {
      assert (os + [o])[1..] == os[1..] + [o];
      InjectedNamesAppend(os[1..], o);
    }
  }

  lemma {:induction false} CaughtIdsAppend(os: seq<SecretOutcome>, o: SecretOutcome)
    ensures CaughtIds(os + [o]) == CaughtIds(os) + (if o.Caught? then [o.secretId] else [])
  {
    if os != [] {
      assert (os + [o])[1..] == os[1..] + [o];
      CaughtIdsAppend(os[1..], o);
    }
  }

  /** Some secret was caught exactly when the list of caught ids is not empty. */
  lemma {:induction false} CaughtIdsEmpty(os: seq<SecretOutcome>)
    ensures CaughtIds(os) == [] <==> forall k :: 0 <= k < |os| ==> os[k].Injected?
  {
    if os != [] {
      CaughtIdsEmpty(os[1..]);
      assert forall k :: 1 <= k < |os| ==> os[k] == os[1..][k - 1];
    }
  }

  /**
   * For a fetched secret, the pass's outcome is the result of calling `injectSecret`
   * under the resolved name; `InjectResolved` states which name that is.
   */
  lemma NameHandedToInjectSecret<Tr>(u: Helpers<Tr>, parseJson: bool, tr: Tr, input: string,
                                     ref: SecretReference, response: SecretValueResponse)
    requires u.extractAliasAndSecretIdFromInput(input, tr) == Success(ref)
    requires u.getSecretValue(ref.secretId) == Success(response)
    ensures ProcessSecret(u, parseJson, tr, input)
            == Success(match InjectResolved(u, parseJson, tr, ref, response)
                       case Success(names) => Injected(ref.secretId, names)
                       case Failure(e) => Caught(ref.secretId, e))
  {
  }

  /**
   * The loop leaves early exactly when some id's alias extraction throws.
   */
  lemma {:induction false} LoopCompletesIffAllPassesComplete<Tr>(u: Helpers<Tr>, parseJson: bool, tr: Tr,
                                                                 ids: seq<string>)
    ensures ProcessAll(u, parseJson, tr, ids).aborted.None? <==> AllPassesComplete(u, parseJson, tr, ids)
    decreases |ids|
  {
    if ids != [] {
      var prefix := ids[..|ids| - 1];
      LoopCompletesIffAllPassesComplete(u, parseJson, tr, prefix);
      assert forall k :: 0 <= k < |prefix| ==> prefix[k] == ids[k];
    }
  }

  /**
   * When the loop runs to its end, every id is fetched in order, `secretsToCleanup`
   * is the in-order concatenation of the names returned by `injectSecret` for the
   * secrets whose fetch and injection both succeeded, and the failed ids are
   * exactly the others: a caught failure contributes no name and stops nothing.
   */
  lemma {:induction false} LoopCollectsEverySuccess<Tr>(u: Helpers<Tr>, parseJson: bool, tr: Tr,
                                                        ids: seq<string>)
    requires AllPassesComplete(u, parseJson, tr, ids)
    ensures var os := Outcomes(u, parseJson, tr, ids);
      ProcessAll(u, parseJson, tr, ids)
        == LoopState(SecretIds(os), InjectedNames(os), CaughtIds(os), None)
    decreases |ids|
  {
    if ids != [] {
      var prefix, last := ids[..|ids| - 1], ids[|ids| - 1];
      OutcomesOfPrefix(u, parseJson, tr, ids);
      LoopCollectsEverySuccess(u, parseJson, tr, prefix);
      var ps := Outcomes(u, parseJson, tr, prefix);
      var o := ProcessSecret(u, parseJson, tr, last).value;
      RecordAppends(ps, o);
    }
  }

  /** The outcomes of all ids are those of all ids but the last, then the last one's. */
  lemma OutcomesOfPrefix<Tr>(u: Helpers<Tr>, parseJson: bool, tr: Tr, ids: seq<string>)
    requires ids != []
    requires AllPassesComplete(u, parseJson, tr, ids)
    ensures AllPassesComplete(u, parseJson, tr, ids[..|ids| - 1])
    ensures Outcomes(u, parseJson, tr, ids)
            == Outcomes(u, parseJson, tr, ids[..|ids| - 1]) + [ProcessSecret(u, parseJson, tr, ids[|ids| - 1]).value]
  {
    var prefix := ids[..|ids| - 1];
    assert forall k :: 0 <= k < |prefix| ==> prefix[k] == ids[k];
  }

  /** Recording one more outcome extends each part of the description by that outcome. */
  lemma RecordAppends(ps: seq<SecretOutcome>, o: SecretOutcome)
    ensures Record(LoopState(SecretIds(ps), InjectedNames(ps), CaughtIds(ps), None), o)
            == LoopState(SecretIds(ps + [o]), InjectedNames(ps + [o]), CaughtIds(ps + [o]), None)
  {
    InjectedNamesAppend(ps, o);
    CaughtIdsAppend(ps, o);
    assert SecretIds(ps + [o]) == SecretIds(ps) + [o.secretId];
  }

  /**
   * When the alias extraction of the `k`-th id is the first to throw, the loop
   * stops there: the state is that of the first `k` ids, plus what was thrown.
   */
  lemma FirstEscapeEndsLoop<Tr>(u: Helpers<Tr>, parseJson: bool, tr: Tr, ids: seq<string>, k: nat)
    requires k < |ids|
    requires AllPassesComplete(u, parseJson, tr, ids[..k])
    requires ProcessSecret(u, parseJson, tr, ids[k]).Failure?
    ensures var os := Outcomes(u, parseJson, tr, ids[..k]);
      ProcessAll(u, parseJson, tr, ids)
        == LoopState(SecretIds(os), InjectedNames(os), CaughtIds(os),
                     Some(ProcessSecret(u, parseJson, tr, ids[k]).error))
  {
    LoopCollectsEverySuccess(u, parseJson, tr, ids[..k]);
    assert ids[..k + 1][..k] == ids[..k];
    AbortIsFinal(u, parseJson, tr, ids, k + 1);
  }

  /**
   * If the transformation input is rejected or the secrets list cannot be built,
   * no secret is fetched and no cleanup list is exported; the run is marked failed
   * exactly when an `Error` was thrown.
   */
  lemma ConfigErrorFetchesNothing<Tr>(u: Helpers<Tr>, secretIdLines: seq<string>, parseJson: bool,
                                      transformationInput: string)
    requires match u.parseTransformationFunction(transformationInput)
             case Failure(_) => true
             case Success(tr) => u.buildSecretsList(SecretIdInputs.Dedup(secretIdLines), tr).Failure?
    ensures var out := RunResult(u, secretIdLines, parseJson, transformationInput);
      && out.fetched == [] && out.secretsToCleanup == [] && out.exported.None?
      && out.abortedBy.Some? && (out.failed <==> out.abortedBy.value.ErrorInstance?)
  {
  }

  /**
   * A run whose loop completes exports, once, exactly the names injected for the
   * secrets that succeeded, in order, even if other secrets failed; it is marked
   * failed exactly when some secret's fetch or injection threw.
   */
  lemma CompleteRunExportsEverySuccess<Tr>(u: Helpers<Tr>, secretIdLines: seq<string>, parseJson: bool,
                                           transformationInput: string, tr: Tr, ids: seq<string>)
    requires u.parseTransformationFunction(transformationInput) == Success(tr)
    requires u.buildSecretsList(SecretIdInputs.Dedup(secretIdLines), tr) == Success(ids)
    requires AllPassesComplete(u, parseJson, tr, ids)
    ensures var out := RunResult(u, secretIdLines, parseJson, transformationInput);
      var os := Outcomes(u, parseJson, tr, ids);
      && out.fetched == SecretIds(os)
      && out.exported == Some(InjectedNames(os))
      && out.failedIds == CaughtIds(os)
      && out.abortedBy.None?
      && (out.failed <==> exists k :: 0 <= k < |os| && os[k].Caught?)
  {
    LoopCollectsEverySuccess(u, parseJson, tr, ids);
    CaughtIdsEmpty(Outcomes(u, parseJson, tr, ids));
  }

  /**
   * A run whose `k`-th id escapes the per-secret `try` exports nothing; the secrets
   * before it were still fetched and injected, and the run is marked failed when one
   * of them was caught or when the escaping value is an `Error`.
   */
  lemma EscapedRunExportsNothing<Tr>(u: Helpers<Tr>, secretIdLines: seq<string>, parseJson: bool,
                                     transformationInput: string, tr: Tr, ids: seq<string>, k: nat)
    requires u.parseTransformationFunction(transformationInput) == Success(tr)
    requires u.buildSecretsList(SecretIdInputs.Dedup(secretIdLines), tr) == Success(ids)
    requires k < |ids|
    requires AllPassesComplete(u, parseJson, tr, ids[..k])
    requires ProcessSecret(u, parseJson, tr, ids[k]).Failure?
    ensures var out := RunResult(u, secretIdLines, parseJson, transformationInput);
      var os := Outcomes(u, parseJson, tr, ids[..k]);
      var e := ProcessSecret(u, parseJson, tr, ids[k]).error;
      && out.fetched == SecretIds(os)
      && out.secretsToCleanup == InjectedNames(os)
      && out.exported.None?
      && out.abortedBy == Some(e)
      && (out.failed <==> CaughtIds(os) != [] || e.ErrorInstance?)
  {
    FirstEscapeEndsLoop(u, parseJson, tr, ids, k);
  }

  /**
   * The cleanup list is exported exactly when the run gets past its loop, and what is
   * exported is then the whole of `secretsToCleanup`.
   */
  lemma ExportedIffLoopCompletes<Tr>(u: Helpers<Tr>, secretIdLines: seq<string>, parseJson: bool,
                                     transformationInput: string)
    ensures var out := RunResult(u, secretIdLines, parseJson, transformationInput);
      && (out.exported.Some? <==>
            match u.parseTransformationFunction(transformationInput)
            case Failure(_) => false
            case Success(tr) =>
              match u.buildSecretsList(SecretIdInputs.Dedup(secretIdLines), tr)
              case Failure(_) => false
              case Success(ids) => AllPassesComplete(u, parseJson, tr, ids))
      && (out.exported.Some? ==> out.exported.value == out.secretsToCleanup)
      && (out.exported.Some? <==> out.abortedBy.None?)
  {
    match u.parseTransformationFunction(transformationInput)
    case Failure(_) =>
    case Success(tr) =>
      match u.buildSecretsList(SecretIdInputs.Dedup(secretIdLines), tr)
      case Failure(_) =>
      case Success(ids) => LoopCompletesIffAllPassesComplete(u, parseJson, tr, ids);
  }
}
