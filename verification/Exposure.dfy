/** Route intent and materialization evidence. */
module Exposure {
  import opened Wrappers
  import opened Text
  import opened Identity
  import opened Rendering
  import opened Deployment

  type DomainName = domain: string | IsDomain(domain) witness "a"

  type ConfigurationVersion = version: string | !IsBlank(version) witness (assert !IsWhitespace("v"[0]); "v")

  datatype Diagnostic = Diagnostic(code: string, message: string)

  predicate IsDiagnosticText(text: string) { text != "" && IsTrimmed(text) }

  type ExposureDiagnostic = d: Diagnostic | IsDiagnosticText(d.code) && IsDiagnosticText(d.message)
    witness Diagnostic("c", "m")

  datatype MaterializationState = NotMaterialized | Applying | Active | Removing | Failed | Diverged

  // How a route change that did not succeed ended: undone on the host, or not known to be.
  datatype ExposureOutcome = Failed | Diverged {
    function State(): MaterializationState {
      match this
      case Failed => MaterializationState.Failed
      case Diverged => MaterializationState.Diverged
    }
  }

  datatype Intent = Internal(optionalDomain: Option<DomainName>) | Public(domain: DomainName) {
    function DesiredVisibility(): Visibility {
      if Internal? then Visibility.Internal else Visibility.Public
    }
  }

  function NewIntent(visibility: Visibility, domain: Option<DomainName>): Option<Intent> {
    match (visibility, domain)
    case (Internal, _) => Some(Intent.Internal(domain))
    case (Public, Some(d)) => Some(Intent.Public(d))
    case (Public, None) => None
  }

  datatype ConfirmedRoute =
    ConfirmedRoute(runtimeId: RuntimeId, version: ConfigurationVersion, materializedAt: Timestamp)

  // The only legal combinations of route evidence and diagnostics.
  datatype Materialization =
    | NotMaterialized
    | Applying(route: Option<ConfirmedRoute>)
    | Active(confirmed: ConfirmedRoute)
    | Removing(route: Option<ConfirmedRoute>)
    | Failed(route: Option<ConfirmedRoute>, diagnostic: ExposureDiagnostic)
    | Diverged(route: Option<ConfirmedRoute>, diagnostic: ExposureDiagnostic)
  {
    function State(): MaterializationState {
      match this
      case NotMaterialized => MaterializationState.NotMaterialized
      case Applying(_) => MaterializationState.Applying
      case Active(_) => MaterializationState.Active
      case Removing(_) => MaterializationState.Removing
      case Failed(_, _) => MaterializationState.Failed
      case Diverged(_, _) => MaterializationState.Diverged
    }

    function Route(): Option<ConfirmedRoute> {
      match this
      case NotMaterialized => None
      case Active(route) => Some(route)
      case _ => route
    }
  }

  function HydrateMaterialization(
    state: MaterializationState, route: Option<ConfirmedRoute>, diagnostic: Option<ExposureDiagnostic>)
    : Option<Materialization>
  {
    match (state, route, diagnostic)
    case (NotMaterialized, None, None) => Some(Materialization.NotMaterialized)
    case (Applying, _, None) => Some(Materialization.Applying(route))
    case (Active, Some(confirmed), None) => Some(Materialization.Active(confirmed))
    case (Removing, _, None) => Some(Materialization.Removing(route))
    case (Failed, _, Some(d)) => Some(Materialization.Failed(route, d))
    case (Diverged, _, Some(d)) => Some(Materialization.Diverged(route, d))
    case _ => None
  }

  datatype Exposure = Exposure(intent: Intent, materialization: Materialization)
}
