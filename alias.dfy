/**
 * The choice of the name handed to `injectSecret` for one secret
 * (src/index.ts, lines 57-65).
 */
module AliasResolution {
  import opened Wrappers

  /**
   * The name `run()` passes to `injectSecret`. `alias` is what
   * `extractAliasAndSecretIdFromInput` returned, `isArn` is `isSecretArn(secretId)`,
   * `canonicalName` is the name in the store's response and `valueIsJson` is
   * `isJSONString` of the secret's value.
   *
   * A blank alias survives only as the signal that a JSON value is to be flattened
   * without a prefix; otherwise it is dropped. A missing alias falls back to the
   * store's canonical name for an ARN and to the id itself for a plain name.
   */
  function ResolveAlias(alias: Option<string>, secretId: string, isArn: bool,
                        canonicalName: string, parseJson: bool, valueIsJson: bool): (name: string)
    ensures alias.Some? && alias.value != "" ==> name == alias.value
    ensures alias == Some("") && parseJson && valueIsJson ==> name == ""
    ensures alias.None? || (alias == Some("") && !(parseJson && valueIsJson)) ==>
              name == (if isArn then canonicalName else secretId)
  {
    var kept := if alias == Some("") && !(parseJson && valueIsJson) then None else alias;
    match kept
    case Some(a) => a
    case None => if isArn then canonicalName else secretId
  }

  /**
   * When neither the id nor the canonical name is blank, the name handed on is blank
   * exactly when the alias was explicitly blank and the value is a JSON string that
   * is to be parsed: a blank name reaches `injectSecret` only as that signal.
   */
  lemma BlankNameOnlyForUnprefixedJson(alias: Option<string>, secretId: string, isArn: bool,
                                       canonicalName: string, parseJson: bool, valueIsJson: bool)
    requires secretId != "" && canonicalName != ""
    ensures ResolveAlias(alias, secretId, isArn, canonicalName, parseJson, valueIsJson) == ""
            <==> alias == Some("") && parseJson && valueIsJson
  {
  }
}
