/**
 * The secret resolver: a parameter value read from the secret store, through the secret that
 * a stack (the invoking one, or the one at a configured path) declares under a name.
 */
module SecretResolver {
  import opened Wrappers

  type StackPath = string
  type SecretName = string
  type Region = string

  /** The credentials a stack's calls are made with, by identity. */
  type CredentialProvider = string

  datatype Secret = Secret(ssmParameterName: string)

  /** The part of a stack the resolver reads. */
  datatype Stack = Stack(path: StackPath, region: Region, credentialProvider: CredentialProvider,
                         secrets: map<SecretName, Secret>)

  /** The encrypted-parameter read the resolver ends with: whose credentials, which region, which parameter. */
  datatype EncryptedParameterRequest = EncryptedParameterRequest(
    credentialProvider: CredentialProvider,
    region: Region,
    ssmParameterName: string)

  /** A configured resolver: the optional path of the stack holding the secret, and the secret's name. */
  datatype SecretResolver = SecretResolver(stack: Option<StackPath>, secret: SecretName) {

    /** The resolved value is always confidential. */
    function Confidential(): (r: bool)
      ensures r
    {
      true
    }

    /** The stack at the configured path, when one is configured, must be handled first. */
    function Dependencies(): (r: seq<StackPath>)
      ensures |r| <= 1
      ensures r != [] <==> TruthyString(stack)
      ensures r != [] ==> r[0] == stack.value
    {
      if TruthyString(stack) then [stack.value] else []
    }

    /**
     * The stacks the configured path refers to (`ctx.getStacksByPath`), or the invoking stack
     * alone when no path is configured.
     */
    function ReferencedStacks(invoking: Stack, getStacksByPath: StackPath -> seq<Stack>): (r: seq<Stack>)
      ensures !TruthyString(stack) ==> r == [invoking]
      ensures TruthyString(stack) ==> r == getStacksByPath(stack.value)
    {
      if TruthyString(stack) then getStacksByPath(stack.value) else [invoking]
    }

    /**
     * `resolve`: the referenced stack must be found exactly once, then it must declare the
     * secret; the secret is then read with the referenced stack's credentials and region.
     */
    function Resolve(invoking: Stack, getStacksByPath: StackPath -> seq<Stack>): (r: Result<EncryptedParameterRequest, string>)
      ensures var matches := ReferencedStacks(invoking, getStacksByPath);
              (matches == [] ==> r == Err(StackNotFoundMessage(stack))) &&
              (|matches| > 1 ==> r == Err(MoreThanOneStackMessage(stack))) &&
              (|matches| == 1 && secret !in matches[0].secrets ==> r == Err(NoSuchSecretMessage(invoking.path, secret))) &&
              (r.Ok? <==> |matches| == 1 && secret in matches[0].secrets) &&
              (r.Ok? ==> r.value == EncryptedParameterRequest(matches[0].credentialProvider, matches[0].region,
                                                              matches[0].secrets[secret].ssmParameterName))
    {
      var matches := ReferencedStacks(invoking, getStacksByPath);
      if matches == [] then Err(StackNotFoundMessage(stack))
      else if |matches| > 1 then Err(MoreThanOneStackMessage(stack))
      else
        var referenced := matches[0];
        if secret !in referenced.secrets then Err(NoSuchSecretMessage(invoking.path, secret))
        else
          var s := referenced.secrets[secret];
          Ok(EncryptedParameterRequest(referenced.credentialProvider, referenced.region, s.ssmParameterName))
    }
  }

  /** The configured path as a template literal prints it. */
  function PathText(path: Option<StackPath>): string {
    if path.Some? then path.value else "undefined"
  }

  function StackNotFoundMessage(path: Option<StackPath>): string {
    "Stack not found with path: " + PathText(path)
  }

  function MoreThanOneStackMessage(path: Option<StackPath>): string {
    "More than one stack found with path: " + PathText(path)
  }

  /** Names the invoking stack, not the referenced one. */
  function NoSuchSecretMessage(invokingPath: StackPath, secret: SecretName): string {
    "Stack " + invokingPath + " does not have secret: " + secret
  }

  /** Without a configured path, the secret is the invoking stack's own and the lookup cannot fail. */
  lemma ResolveOwnSecret(resolver: SecretResolver, invoking: Stack, getStacksByPath: StackPath -> seq<Stack>)
    requires !TruthyString(resolver.stack)
    ensures resolver.Dependencies() == []
    ensures resolver.Resolve(invoking, getStacksByPath).Ok? <==> resolver.secret in invoking.secrets
    ensures resolver.Resolve(invoking, getStacksByPath).Ok? ==>
              resolver.Resolve(invoking, getStacksByPath).value ==
              EncryptedParameterRequest(invoking.credentialProvider, invoking.region,
                                        invoking.secrets[resolver.secret].ssmParameterName)
  {
  }

  /**
   * A resolver that reads another stack's secret declares that stack as its dependency, and
   * a successful read uses the one stack found at that dependency's path.
   */
  lemma ResolveReadsDependency(resolver: SecretResolver, invoking: Stack, getStacksByPath: StackPath -> seq<Stack>)
    requires resolver.Resolve(invoking, getStacksByPath).Ok?
    requires TruthyString(resolver.stack)
    ensures |resolver.Dependencies()| == 1
    ensures var found := getStacksByPath(resolver.Dependencies()[0]);
            |found| == 1 &&
            resolver.Resolve(invoking, getStacksByPath).value.credentialProvider == found[0].credentialProvider &&
            resolver.Resolve(invoking, getStacksByPath).value.region == found[0].region
  {
  }
}
