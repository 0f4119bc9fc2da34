/**
 * The interface of the `./utils` helpers that `run()` calls. Their code is not
 * part of this model, so each helper is a function-valued field of `Helpers` and
 * every property proved about `run()` holds for every choice of these functions.
 * A helper that may throw returns a `Result` whose failure is the thrown value.
 */
module Utils {
  import opened Wrappers

  /** What a `throw` can carry: an `Error` instance (with its message) or any other
      value that converts to a string. */
  datatype Thrown = ErrorInstance(message: string) | NonErrorValue

  /** What `extractAliasAndSecretIdFromInput` returns: an alias that may be undefined,
      empty or non-empty, and the id (name or ARN) to fetch. */
  datatype SecretReference = SecretReference(alias: Option<string>, secretId: string)

  /** What `getSecretValue` returns: the store's canonical name and the secret's value. */
  datatype SecretValueResponse = SecretValueResponse(name: string, secretValue: string)

  /**
   * The helpers, with the network client folded into the two that use it.
   * `Tr` is the name-transformation value, which `run()` only passes along.
   */
  datatype Helpers<!Tr> = Helpers(
    parseTransformationFunction: string -> Result<Tr, Thrown>,
    buildSecretsList: (seq<string>, Tr) -> Result<seq<string>, Thrown>,
    extractAliasAndSecretIdFromInput: (string, Tr) -> Result<SecretReference, Thrown>,
    isSecretArn: string -> bool,
    getSecretValue: string -> Result<SecretValueResponse, Thrown>,
    isJSONString: string -> bool,
    injectSecret: (string, string, bool, Tr) -> Result<seq<string>, Thrown>
  )
}
