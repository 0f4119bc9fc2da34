# aws-secretsmanager-get-secrets: a verified model of `run()`

This project models the orchestrator of a GitHub Action. The action reads a list of
secret ids from the Secrets Manager store and exposes each secret as an environment
variable. It then records the names it injected so that a later cleanup step can unset
them. The model covers the three rules that `run()` in `src/index.ts` decides for
itself:

- **De-duplication of the configured lines.** `[...new Set(lines)]` keeps each
  distinct line once, in first-occurrence order (`SecretIdInputs`, `dedup.dfy`).
- **Alias resolution.** This is the choice of the name handed to `injectSecret`
  (`AliasResolution`, `alias.dfy`):
  - a blank alias survives only when JSON parsing is on and the value is JSON;
  - otherwise a blank alias becomes undefined;
  - an undefined alias falls back to the store's canonical name for an ARN, and to
    the id otherwise.
- **The per-secret loop with deferred failure** (`Orchestrator`, `orchestrator.dfy`):
  - each secret is fetched, its name resolved, and the secret injected;
  - the injected names are appended to `secretsToCleanup`;
  - anything thrown inside the per-secret `try` marks the run failed and the loop
    goes on, provided the thrown value converts to a string;
  - the list is exported once at the end.

  `Orchestrator.Run` follows the body of `run()` statement by statement, and its
  `for` loop is the method `Orchestrator.RunLoop`. `RunLoop` is proved equal to
  `ProcessAll`, which folds `ProcessSecret` over the ids. `Run` is proved equal to
  the function `RunResult`. `OrchestratorProperties` (`orchestrator_properties.dfy`) compares that
  fold with an independent description of the run, the in-order sequence of
  per-secret outcomes.

The helpers of `./utils` are not part of this model:

- `parseTransformationFunction`
- `buildSecretsList`
- `extractAliasAndSecretIdFromInput`
- `isSecretArn`
- `getSecretValue`
- `isJSONString`
- `injectSecret`

They are function-valued fields of the record `Utils.Helpers<Tr>`, so every property
holds for every choice of these functions. A helper that may throw returns a
`Result` whose failure is the thrown value. The network client is folded into
`buildSecretsList` and `getSecretValue`. The name-transformation value is the opaque
type parameter `Tr`, which `run()` only passes along.

Side effects are returned, not performed. `RunOutcome` holds:

- `fetched`: the ids handed to `getSecretValue`, in order;
- `secretsToCleanup`: the names collected in `secretsToCleanup`;
- `failedIds`: the ids reported through `setFailed`;
- `exported`: the list handed to `exportVariable`, or `None` when that call is never
  reached;
- `abortedBy`: what escaped to the outer `catch`, if anything;
- `failed`: whether `setFailed` was called at all.

Three facts about the code shape the error paths:

- The inner `try` (lines 51-74) covers the fetch, the alias resolution and
  `injectSecret`. A throwing `injectSecret` is therefore a per-secret failure, like a
  throwing fetch. The `catch` at line 73 puts the thrown value into a template
  string. The model covers only values for which that conversion succeeds.
- `extractAliasAndSecretIdFromInput` (line 46) stands outside the inner `try`. If it
  throws, the loop ends at the outer `catch`: later ids are not visited, and the
  cleanup list is not exported, although the secrets before it were already injected.
- The outer `catch` (line 84) calls `setFailed` only when the thrown value is an
  `Error`. A non-`Error` value thrown by a helper therefore ends the run without
  exporting and without the outer `catch` marking it failed (`Thrown.NonErrorValue`).
  The run is still failed if an earlier secret failed, because line 73 already
  called `setFailed`.

## Model

| member | source | states |
|---|---|---|
| `SecretIdInputs.Dedup` | src/index.ts:22 | The de-duplicated list has no repeated element, holds exactly the elements of the configured lines, and lists them in the order of their first occurrence |
| `SecretIdInputs.DedupIsUnique` | src/index.ts:22 | Any list that holds exactly the configured lines, in first-occurrence order, is the de-duplicated list: the three properties of `Dedup` determine its result |
| `SecretIdInputs.FirstOccurrenceOrderIsUnique` | src/index.ts:22 | Two lists with the same elements, both in first-occurrence order with respect to the input, are equal |
| `SecretIdInputs.DedupIdempotent` | src/index.ts:22 | De-duplicating an already de-duplicated list changes nothing |
| `AliasResolution.ResolveAlias` | src/index.ts:57-65 | A non-empty alias is passed on unchanged. A blank alias is passed on as blank when JSON parsing is on and the value is JSON. Otherwise a blank or undefined alias is replaced by the canonical name for an ARN and by the secret id for a plain name. The result is always a string, never undefined |
| `AliasResolution.BlankNameOnlyForUnprefixedJson` | src/index.ts:57-68 | When the id and the canonical name are not blank, the name handed to `injectSecret` is blank if and only if the alias was blank, JSON parsing is on and the value is JSON |
| `Orchestrator.ProcessSecret` | src/index.ts:45-74 | One pass of the loop body. It fails exactly when `extractAliasAndSecretIdFromInput` throws, and then with what it threw. Otherwise the outcome it records carries the extracted id, not the configured line |
| `Orchestrator.ProcessSecretOutcome` | src/index.ts:51-74 | After a successful extraction, the pass is `Injected` with `names` if and only if the fetch succeeded and `injectSecret`, called under the resolved name, returned `names`. It is `Caught` with `e` if and only if the fetch threw `e`, or the fetch succeeded and `injectSecret` threw `e` |
| `Orchestrator.ProcessAllCounts` | src/index.ts:41-75 | The loop over the ids never reports more failed ids than it fetched, and never fetches more ids than it is given. It fetches exactly one id per configured id when it runs to its end, and fewer when something escaped. A non-empty cleanup list implies some fetched id did not fail |
| `Orchestrator.AbortedRun` | src/index.ts:82-85 | When something escapes to the outer `catch`, nothing is exported, the loop's records are kept, and the run is marked failed exactly when some secret failed earlier or the thrown value is an `Error` |
| `Orchestrator.RunResult` | src/index.ts:14-86 | The whole run: the cleanup list is exported exactly when nothing escaped to the outer `catch`, and what is exported is `secretsToCleanup`. A failed secret marks the run failed. A run marked failed had a failed secret or an `Error` escaping. There are never more failed ids than fetched ids |
| `Orchestrator.InjectResolved` | src/index.ts:68 | The call to `injectSecret` under the resolved name. A non-empty alias is passed unchanged. A blank alias is passed as blank when JSON parsing is on and the value is JSON. Otherwise the canonical name is used for an ARN, and the id for a plain name. `NameHandedToInjectSecret` ties this call to the pass's outcome |
| `Orchestrator.Record` | src/index.ts:70-73 | A completed pass appends its id to the fetched ids and keeps `aborted`. An injected secret appends the names `injectSecret` returned to `secretsToCleanup` and leaves the failed ids alone (line 70). A caught one appends its id to the failed ids and leaves `secretsToCleanup` alone (lines 71-73) |
| `Orchestrator.ProcessAll` | src/index.ts:41-75 | The loop over the ids, folded pass by pass. Its own contract says it fetches no more ids than it is given. The rest of its contract is in `ProcessAllCounts` (bounds), `ProcessAllStep` (one more id), `AbortIsFinal` and `FirstEscapeEndsLoop` (an escape ends the loop), and `LoopCollectsEverySuccess` (the in-order outcome description) |
| `Orchestrator.ProcessAllStep` | src/index.ts:41-75 | One more id: the loop state after it is the state before it, with that id's pass recorded or with what escaped the pass |
| `Orchestrator.RunLoop` | src/index.ts:41-75 | The statement-by-statement `for` loop, with the inner `try` and its `catch`, leaves exactly the state `ProcessAll` gives for the ids, including what escaped to the outer `catch` |
| `Orchestrator.AbortIsFinal` | src/index.ts:41-46 | Once alias extraction has thrown, the remaining ids are not visited and the loop state no longer changes |
| `Orchestrator.Run` | src/index.ts:14-86 | The statement-by-statement `run()` (de-dup, transformation parsing, list building, the loop `RunLoop`, the export and the outer `catch`) returns exactly `RunResult` |
| `OrchestratorProperties.NameHandedToInjectSecret` | src/index.ts:51-74 | For a fetched secret, the pass's outcome is the result of calling `injectSecret` under the resolved name: `Injected` with the names it returned, or `Caught` with what it threw. Which name is resolved is stated by `InjectResolved` |
| `OrchestratorProperties.LoopCompletesIffAllPassesComplete` | src/index.ts:41-75 | The loop runs to its end if and only if no id's alias extraction throws |
| `OrchestratorProperties.LoopCollectsEverySuccess` | src/index.ts:35-75 | When the loop runs to its end: every id is fetched in order; `secretsToCleanup` is the in-order concatenation of the names `injectSecret` returned for exactly the secrets whose fetch and injection both succeeded; the failed ids are exactly the others, in order |
| `OrchestratorProperties.FirstEscapeEndsLoop` | src/index.ts:41-46 | When the `k`-th id is the first whose alias extraction throws, the loop state is that of the first `k` ids plus the thrown value |
| `OrchestratorProperties.ConfigErrorFetchesNothing` | src/index.ts:28-85 | If `parseTransformationFunction` or `buildSecretsList` throws, no secret is fetched, nothing is collected or exported, and the run is marked failed exactly when an `Error` was thrown |
| `OrchestratorProperties.CompleteRunExportsEverySuccess` | src/index.ts:35-78 | A run whose loop completes exports exactly the names injected for the successful secrets, in order, even when other secrets failed. It fetches every id and reports the failed ones. It is marked failed exactly when some secret's fetch or injection threw |
| `OrchestratorProperties.EscapedRunExportsNothing` | src/index.ts:41-85 | When the `k`-th id's alias extraction throws, nothing is exported. The ids before it were fetched and their names collected. The run is marked failed when one of them failed or when the thrown value is an `Error` |
| `OrchestratorProperties.ExportedIffLoopCompletes` | src/index.ts:28-78 | The cleanup list is exported if and only if the configuration steps succeed and the loop runs to its end. What is exported is then the whole of `secretsToCleanup`, and nothing escaped to the outer `catch` |

## Left out

- The `SecretsManagerClient` construction and its region (line 19) are foreign I/O. The client is folded into the helper functions that use it.
- The `@actions/core` input readers (lines 22, 25, 28) are left out. The `secret-ids` lines, the `parse-json-secrets` flag and the `name-transformation` string are parameters. The trimming and filtering done by `getMultilineInput` is not modelled. Nor is `getBooleanInput` throwing on a value that is not a boolean, which would end at the outer `catch`.
- The `debug` and `info` logging is left out because it has no effect on the result.
- `setFailed` and `exportVariable` are modelled as returned values (`failedIds`, `failed`, `exported`), not as changes to the process environment or exit code. The text of the failure messages is not modelled.
- `JSON.stringify` of the cleanup list (line 78) is library serialisation. The model exports the list itself.
- The internals of the `./utils` helpers are not part of this model: name transformation, alias and id splitting, ARN and JSON detection, JSON flattening, prefix expansion and pagination. `isSecretArn` and `isJSONString` are modelled as total predicates. A throw from either of them is not modelled.
- Orchestrator.ProcessSecret: a caught value that cannot be converted to a string (a Symbol, an object without `toString`) is not modelled. At line 73 the template literal then throws a `TypeError`. That error leaves the loop and ends the run at the outer `catch`, which marks the run failed, exports nothing and skips the later ids. The model records such a value as an ordinary per-secret failure, so `Thrown.NonErrorValue` stands only for values that convert to a string.
- Each helper's result depends only on its arguments. A result that depends on earlier calls is not modelled, such as a variable `injectSecret` already wrote or a store that throttles or changes between fetches.
- The environment variables that `injectSecret` itself writes are not modelled. Only the names it returns are. Writes made before a throw inside `injectSecret` are not modelled either.
- The promise that each expanded id is fetched only once depends on `buildSecretsList` removing duplicates after expansion. That code is not part of this model. The model proves only that the configured lines handed to it are distinct.
- `async`/`await` and the top-level `run()` call (lines 88-89) are left out. Execution is strictly sequential, so the model is an ordinary loop.
