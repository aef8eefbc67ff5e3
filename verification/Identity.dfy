/** Validated identities: store-generated identifiers, catalog names, ports and loopback endpoints. */
module Identity {
  import opened Text

  const ENTITY_ID_LENGTH := 32

  predicate IsEntityId(value: string) {
    |value| == ENTITY_ID_LENGTH && forall i :: 0 <= i < |value| ==> IsLowercaseHex(value[i])
  }

  type EntityText = value: string | IsEntityId(value) witness "00000000000000000000000000000000"

  // Equal texts in different wrappers are different identifiers.
  datatype ApplicationId = ApplicationId(text: EntityText)
  datatype DeploymentId = DeploymentId(text: EntityText)
  datatype ReleaseId = ReleaseId(text: EntityText)
  datatype RuntimeId = RuntimeId(text: EntityText)

  predicate IsCatalogName(value: string) {
    && 1 <= |value| <= 63
    && IsAlphanumeric(value[0]) && IsAlphanumeric(value[|value| - 1])
    && forall i :: 0 <= i < |value| ==> 'a' <= value[i] <= 'z' || IsDigit(value[i]) || value[i] == '-'
  }

  type CatalogName = value: string | IsCatalogName(value) witness "a"

  type Port = n: nat | 1 <= n <= 65535 witness 1

  datatype SocketAddr = SocketAddr(host: string, port: nat)

  // The single loopback rule shared by expected endpoints and running observations.
  predicate IsLoopback(endpoint: SocketAddr) {
    endpoint.host == "127.0.0.1" && 1 <= endpoint.port <= 65535
  }

  function Loopback(port: Port): (endpoint: SocketAddr)
    ensures IsLoopback(endpoint)
  {
    SocketAddr("127.0.0.1", port)
  }

  // External container identity: non-empty hexadecimal text of either case.
  predicate IsContainerId(value: string) {
    value != "" && forall i :: 0 <= i < |value| ==> IsDigit(value[i]) || 'a' <= value[i] <= 'f' || 'A' <= value[i] <= 'F'
  }

  // What a deployment of an application is called outside the database.
  function StableRuntimeName(application: CatalogName, deployment: DeploymentId): string {
    "pneuma-" + (application + "-" + deployment.text)
  }

  // Application names may contain hyphens and deployment identifiers have one length, so the
  // name still determines both identities.
  lemma StableRuntimeNameIsInjective(
    application: CatalogName, deployment: DeploymentId, application': CatalogName, deployment': DeploymentId)
    requires StableRuntimeName(application, deployment) == StableRuntimeName(application', deployment')
    ensures application == application' && deployment == deployment'
  {
    var tail, tail' := application + "-" + deployment.text, application' + "-" + deployment'.text;
    PrefixCancels("pneuma-", tail, tail');
    assert tail[|tail| - 32..] == deployment.text && tail'[|tail'| - 32..] == deployment'.text;
    assert tail[..|tail| - 33] == application && tail'[..|tail'| - 33] == application';
  }
}
