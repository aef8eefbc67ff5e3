/** The canonical Quadlet unit and Caddy route fragment that reconciliation compares byte for byte. */
module Rendering {
  import opened Text
  import opened Identity
  import opened Release

  predicate IsDomainLabel(component: string) {
    && 1 <= |component| <= 63
    && IsAlphanumeric(component[0]) && IsAlphanumeric(component[|component| - 1])
    && forall i :: 0 <= i < |component| ==> IsAlphanumeric(component[i]) || component[i] == '-'
  }

  predicate IsDomain(domain: string) {
    && 1 <= |domain| <= 253
    && (forall i :: 0 <= i < |domain| ==> domain[i] < '\U{80}')
    && forall i :: 0 <= i < |Split(domain, '.')| ==> IsDomainLabel(Split(domain, '.')[i])
  }

  // A unit file alternates fixed captions with one-line values.
  function UnitText(captions: seq<string>, values: seq<string>, tail: string): string
    requires |captions| == |values|
  {
    if values == [] then tail
    else captions[0] + (values[0] + "\n" + UnitText(captions[1..], values[1..], tail))
  }

  // Under the same captions, one-line values are determined by the text.
  lemma {:induction false} UnitTextIsInjective(
    captions: seq<string>, values: seq<string>, values': seq<string>, tail: string)
    requires |captions| == |values| == |values'|
    requires forall i :: 0 <= i < |values| ==> '\n' !in values[i] && '\n' !in values'[i]
    requires UnitText(captions, values, tail) == UnitText(captions, values', tail)
    ensures values == values'
  {
    if values != [] {
      var rest, rest' := UnitText(captions[1..], values[1..], tail), UnitText(captions[1..], values'[1..], tail);
      PrefixCancels(captions[0], values[0] + "\n" + rest, values'[0] + "\n" + rest');
      CutIsUnique(values[0], rest, values'[0], rest', '\n');
      UnitTextIsInjective(captions[1..], values[1..], values'[1..], tail);
      assert values == [values[0]] + values[1..] && values' == [values'[0]] + values'[1..];
    }
  }

  function PortPair(hostPort: Port, containerPort: Port): string {
    Decimal(hostPort) + ":" + Decimal(containerPort)
  }

  lemma PortPairIsInjective(hostPort: Port, containerPort: Port, hostPort': Port, containerPort': Port)
    requires PortPair(hostPort, containerPort) == PortPair(hostPort', containerPort')
    ensures hostPort == hostPort' && containerPort == containerPort'
  {
    CutIsUnique(Decimal(hostPort), Decimal(containerPort), Decimal(hostPort'), Decimal(containerPort'), ':');
    DecimalIsInjective(hostPort, hostPort');
    DecimalIsInjective(containerPort, containerPort');
  }

  const QUADLET_TAIL :=
    "\n" + "[Service]" + "\n" + "Restart=on-failure" + "\n" + "\n" + "[Install]" + "\n" + "WantedBy=default.target" + "\n"

  function QuadletCaptions(): (captions: seq<string>)
    ensures |captions| == 6
  {
    [ "[Unit]" + "\n" + "Description=Pneuma application ", "\n" + "[Container]" + "\n" + "ContainerName=", "Image=",
      "PublishPort=127.0.0.1:", "Label=io.pneuma.application=", "Label=io.pneuma.image-digest=" ]
  }

  function UnitValues(
    application: CatalogName, deployment: DeploymentId, artifact: OciArtifact,
    containerPort: Port, hostPort: Port): (values: seq<string>)
    ensures |values| == 6
  {
    [ application, StableRuntimeName(application, deployment), artifact.reference,
      PortPair(hostPort, containerPort), application, artifact.digest ]
  }

  // The bytes a unit file has exactly when it runs this artifact for this deployment on these ports.
  function CanonicalUnit(
    application: CatalogName, deployment: DeploymentId, artifact: OciArtifact,
    containerPort: Port, hostPort: Port): string
  {
    UnitText(QuadletCaptions(), UnitValues(application, deployment, artifact, containerPort, hostPort), QUADLET_TAIL)
  }

  lemma StableRuntimeNameIsOneLine(application: CatalogName, deployment: DeploymentId)
    ensures '\n' !in StableRuntimeName(application, deployment)
  {
  }

  lemma UnitValuesAreOneLine(
    application: CatalogName, deployment: DeploymentId, artifact: OciArtifact, containerPort: Port, hostPort: Port)
    requires IsArtifact(artifact)
    ensures forall i :: 0 <= i < 6 ==> '\n' !in UnitValues(application, deployment, artifact, containerPort, hostPort)[i]
  {
    ArtifactIsOneLine(artifact);
    StableRuntimeNameIsOneLine(application, deployment);
    PortPairIsOneLine(hostPort, containerPort);
    CatalogNameIsOneLine(application);
    OneLineValues(application, StableRuntimeName(application, deployment), artifact.reference,
                  PortPair(hostPort, containerPort), artifact.digest);
  }

  lemma OneLineValues(name: string, container: string, image: string, ports: string, digest: string)
    requires '\n' !in name && '\n' !in container && '\n' !in image && '\n' !in ports && '\n' !in digest
    ensures forall i :: 0 <= i < 6 ==> '\n' !in [name, container, image, ports, name, digest][i]
  {
  }

  lemma CatalogNameIsOneLine(name: CatalogName)
    ensures '\n' !in name
  {
  }

  lemma PortPairIsOneLine(hostPort: Port, containerPort: Port)
    ensures '\n' !in PortPair(hostPort, containerPort)
  {
  }

  lemma UnitValuesDetermineTheUnit(
    captions: seq<string>, tail: string,
    application: CatalogName, deployment: DeploymentId, artifact: OciArtifact, containerPort: Port, hostPort: Port,
    application': CatalogName, deployment': DeploymentId, artifact': OciArtifact, containerPort': Port, hostPort': Port)
    requires IsArtifact(artifact) && IsArtifact(artifact') && |captions| == 6
    requires UnitText(captions, UnitValues(application, deployment, artifact, containerPort, hostPort), tail)
          == UnitText(captions, UnitValues(application', deployment', artifact', containerPort', hostPort'), tail)
    ensures application == application' && deployment == deployment' && artifact == artifact'
    ensures containerPort == containerPort' && hostPort == hostPort'
  {
    var values := UnitValues(application, deployment, artifact, containerPort, hostPort);
    var values' := UnitValues(application', deployment', artifact', containerPort', hostPort');
    UnitValuesAreOneLine(application, deployment, artifact, containerPort, hostPort);
    UnitValuesAreOneLine(application', deployment', artifact', containerPort', hostPort');
    UnitTextIsInjective(captions, values, values', tail);
    assert forall i :: 0 <= i < 6 ==> values[i] == values'[i];
    StableRuntimeNameIsInjective(application, deployment, application', deployment');
    PortPairIsInjective(hostPort, containerPort, hostPort', containerPort');
  }

  // Two equal units describe the same application, deployment, artifact and ports.
  lemma CanonicalUnitIsInjective(
    application: CatalogName, deployment: DeploymentId, artifact: OciArtifact, containerPort: Port, hostPort: Port,
    application': CatalogName, deployment': DeploymentId, artifact': OciArtifact, containerPort': Port, hostPort': Port)
    requires IsArtifact(artifact) && IsArtifact(artifact')
    requires CanonicalUnit(application, deployment, artifact, containerPort, hostPort)
          == CanonicalUnit(application', deployment', artifact', containerPort', hostPort')
    ensures application == application' && deployment == deployment' && artifact == artifact'
    ensures containerPort == containerPort' && hostPort == hostPort'
  {
    UnitValuesDetermineTheUnit(QuadletCaptions(), QUADLET_TAIL,
      application, deployment, artifact, containerPort, hostPort,
      application', deployment', artifact', containerPort', hostPort');
  }

  function CanonicalFragment(domain: string, endpoint: SocketAddr): string {
    domain + " {\n    reverse_proxy " + (endpoint.host + ":" + Decimal(endpoint.port) + "\n}\n")
  }

  lemma DomainHasNoSpace(domain: string)
    requires IsDomain(domain)
    ensures ' ' !in domain
  {
    var allowed := (c: char) => '-' <= c <= 'z';
    forall part, c | part in Split(domain, '.') && c in part
      ensures allowed(c)
    {
      var i :| 0 <= i < |Split(domain, '.')| && Split(domain, '.')[i] == part;
      var j :| 0 <= j < |part| && part[j] == c;
    }
    SplitCoversEveryCharacter(domain, '.', allowed);
  }

  // Two equal route fragments publish the same domain on the same loopback endpoint.
  lemma CanonicalFragmentIsInjective(domain: string, endpoint: SocketAddr, domain': string, endpoint': SocketAddr)
    requires IsDomain(domain) && IsDomain(domain') && IsLoopback(endpoint) && IsLoopback(endpoint')
    requires CanonicalFragment(domain, endpoint) == CanonicalFragment(domain', endpoint')
    ensures domain == domain' && endpoint == endpoint'
  {
    DomainHasNoSpace(domain);
    DomainHasNoSpace(domain');
    var address, address' := endpoint.host + ":" + Decimal(endpoint.port) + "\n}\n",
                             endpoint'.host + ":" + Decimal(endpoint'.port) + "\n}\n";
    FragmentCut(domain, address);
    FragmentCut(domain', address');
    CutIsUnique(domain, "{\n    reverse_proxy " + address, domain', "{\n    reverse_proxy " + address', ' ');
    PrefixCancels("{\n    reverse_proxy ", address, address');
    AddressCut(endpoint);
    AddressCut(endpoint');
    PrefixCancels("127.0.0.1:", Decimal(endpoint.port) + "\n" + "}\n", Decimal(endpoint'.port) + "\n" + "}\n");
    CutIsUnique(Decimal(endpoint.port), "}\n", Decimal(endpoint'.port), "}\n", '\n');
    DecimalIsInjective(endpoint.port, endpoint'.port);
  }

  lemma FragmentCut(domain: string, address: string)
    ensures domain + " {\n    reverse_proxy " + address == domain + [' '] + ("{\n    reverse_proxy " + address)
  {
    assert " {\n    reverse_proxy " == [' '] + "{\n    reverse_proxy ";
  }

  lemma AddressCut(endpoint: SocketAddr)
    requires IsLoopback(endpoint)
    ensures endpoint.host + ":" + Decimal(endpoint.port) + "\n}\n"
         == "127.0.0.1:" + (Decimal(endpoint.port) + "\n" + "}\n")
  {
    assert "127.0.0.1" + ":" == "127.0.0.1:";
    assert "\n}\n" == "\n" + "}\n";
  }

  // A fragment is never blank, so it is always acceptable as a configuration version.
  lemma CanonicalFragmentIsNotBlank(domain: string, endpoint: SocketAddr)
    requires IsDomain(domain)
    ensures !IsBlank(CanonicalFragment(domain, endpoint))
  {
    assert IsDomainLabel(Split(domain, '.')[0]);
    match SplitOnce(domain, '.') {
      case None =>
      case Some((left, right)) => assert left == Split(domain, '.')[0]; assert domain[0] == left[0];
    }
    assert CanonicalFragment(domain, endpoint)[0] == domain[0];
  }
}
