/** The in-memory secret provider (secrets/provider.py). Reference keys are freshly generated, so
    storing takes the new key as a parameter. */
module Secrets {
  import opened Common

  type SecretStore = map<string, string>

  datatype SecretError = SecretNotFound(referenceKey: string)

  function Resolved(secrets: SecretStore, referenceKey: string): Result<string, SecretError> {
    if referenceKey in secrets then Ok(secrets[referenceKey]) else Err(SecretNotFound(referenceKey))
  }

  class LocalDevSecretProvider {
    var secrets: SecretStore

    constructor ()
      ensures secrets == map[]
    {
      secrets := map[];
    }

    method Store(referenceKey: string, secretValue: string)
      requires referenceKey !in secrets
      modifies this
      ensures secrets == old(secrets)[referenceKey := secretValue]
      ensures Resolved(secrets, referenceKey) == Ok(secretValue)
    {
      secrets := secrets[referenceKey := secretValue];
    }

    method Resolve(referenceKey: string) returns (r: Result<string, SecretError>)
      ensures r == Resolved(secrets, referenceKey)
    {
      if referenceKey in secrets {
        return Ok(secrets[referenceKey]);
      }
      return Err(SecretNotFound(referenceKey));
    }

    method Delete(referenceKey: string)
      modifies this
      ensures secrets == old(secrets) - {referenceKey}
      ensures Resolved(secrets, referenceKey).Err?
    {
      secrets := secrets - {referenceKey};
    }
  }
}
