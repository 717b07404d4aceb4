/** The image-resolver configuration of the Jsonnet VM (`buildResolver` and
    `resolverErrorWrapper` in pkg/kubecfg/vm.go): an inner resolver chosen by
    type, wrapped by a policy that decides what becomes of its failures. */
module KubecfgResolver {
  import opened Wrappers
  import opened Errors

  // ResolverType, counted by iota
  const NoopResolver: int := 0
  const RegistryResolver: int := 1

  // ResolverFailureAction, counted by iota
  const IgnoreResolverError: int := 0
  const WarnResolverError: int := 1
  const ReportResolverError: int := 2

  /** The inner resolver: the identity resolver or the registry resolver. */
  datatype Inner = Identity | Registry

  /** `OnErr`: drop the error, log it and drop it, or pass it on. */
  datatype Policy = Ignore | Warn | Report

  /** `resolverErrorWrapper`. */
  datatype Wrapper = Wrapper(inner: Inner, onErr: Policy)

  /** `buildResolver`: the options are accepted exactly when both are among
      the defined constants, and the failure action is checked first, so a bad
      one is reported whatever the type. */
  function BuildResolver(resolverType: int, failureAction: int): (r: Result<Wrapper, Error>)
    ensures r.Ok? <==> 0 <= failureAction <= 2 && 0 <= resolverType <= 1
    ensures !(0 <= failureAction <= 2) ==> r == Err(BadFailureMode(failureAction))
    ensures 0 <= failureAction <= 2 && !(0 <= resolverType <= 1) ==> r == Err(BadResolverType(resolverType))
  {
    var policy :-
      if failureAction == IgnoreResolverError then Ok(Ignore)
      else if failureAction == WarnResolverError then Ok(Warn)
      else if failureAction == ReportResolverError then Ok(Report)
      else Err(BadFailureMode(failureAction));
    var inner :-
      if resolverType == NoopResolver then Ok(Identity)
      else if resolverType == RegistryResolver then Ok(Registry)
      else Err(BadResolverType(resolverType));
    Ok(Wrapper(inner, policy))
  }

  /** The option value that selects each inner resolver. */
  function TypeCode(i: Inner): int {
    match i
    case Identity => NoopResolver
    case Registry => RegistryResolver
  }

  /** The option value that selects each policy. */
  function ActionCode(p: Policy): int {
    match p
    case Ignore => IgnoreResolverError
    case Warn => WarnResolverError
    case Report => ReportResolverError
  }

  /** `OnErr` applied to an error of the inner resolver. */
  function OnErr(p: Policy, err: string): Option<string> {
    if p == Report then Some(err) else None
  }

  /** `Resolve`: the wrapper's outcome, given what the inner resolver returns
      for the image (`None` when it succeeds, otherwise its error). It never
      fails when the inner resolver succeeds; on an inner failure it fails
      under Report only, with the inner error unchanged. */
  function Resolve(w: Wrapper, innerResolve: (Inner, string) -> Option<string>, image: string): (r: Option<string>)
    ensures innerResolve(w.inner, image).None? ==> r.None?
    ensures r.Some? <==> w.onErr == Report && innerResolve(w.inner, image).Some?
    ensures r.Some? ==> r == innerResolve(w.inner, image)
  {
    var err := innerResolve(w.inner, image);
    if err.Some? then OnErr(w.onErr, err.value) else None
  }

  /** Every wrapper is built from the codes of its parts, and accepted codes
      determine the wrapper: building and encoding are inverse. */
  lemma BuildResolverCodes(w: Wrapper, resolverType: int, failureAction: int)
    ensures BuildResolver(TypeCode(w.inner), ActionCode(w.onErr)) == Ok(w)
    ensures BuildResolver(resolverType, failureAction) == Ok(w) ==>
              resolverType == TypeCode(w.inner) && failureAction == ActionCode(w.onErr)
  {
  }
}
