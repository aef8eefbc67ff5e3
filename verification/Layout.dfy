/** The rendered texts read back line by line: what stands where in a unit, a fragment and a name. */
module Layout {
  import opened Text
  import opened Identity
  import opened Release
  import opened Rendering
  import opened Reconciliation

  // A stable name: the fixed prefix, the application, a hyphen, the deployment's 32 characters.
  lemma StableRuntimeNameReads(application: CatalogName, deployment: DeploymentId)
    ensures var name := StableRuntimeName(application, deployment);
            && |name| == 7 + |application| + 1 + 32
            && name[..7] == "pneuma-" && name[7..7 + |application|] == application
            && name[7 + |application|] == '-' && name[8 + |application|..] == deployment.text
  {
    var tail := application + "-" + deployment.text;
    var name := StableRuntimeName(application, deployment);
    assert name == "pneuma-" + tail;
    assert name[7..] == tail;
    assert name[7..7 + |application|] == tail[..|application|] == application;
    assert name[8 + |application|..] == tail[|application| + 1..] == deployment.text;
  }

  // ---- the unit ----

  // A caption that ends a line, then the line it starts.
  lemma KeyLine(text: string, key: string, value: string, rest: string)
    requires text == key + (value + "\n" + rest) && '\n' !in key && '\n' !in value
    ensures Split(text, '\n') == [key + value] + Split(rest, '\n')
  {
    assert text == (key + value) + ['\n'] + rest;
    FirstComponent(key + value, rest, '\n');
  }

  lemma WholeLine(text: string, line: string, rest: string)
    requires text == line + "\n" + rest && '\n' !in line
    ensures Split(text, '\n') == [line] + Split(rest, '\n')
  {
    FirstComponent(line, rest, '\n');
  }

  // A section's heading after an empty line.
  lemma SectionReads(heading: string, rest: string)
    requires '\n' !in heading
    ensures Split("\n" + heading + "\n" + rest, '\n') == ["", heading] + Split(rest, '\n')
  {
    var text := heading + "\n" + rest;
    assert "\n" + heading + "\n" + rest == "" + "\n" + text;
    WholeLine("" + "\n" + text, "", text);
    WholeLine(text, heading, rest);
  }

  // Two sections of one line each.
  lemma SectionsRead(heading: string, line: string, heading': string, line': string)
    requires '\n' !in heading && '\n' !in line && '\n' !in heading' && '\n' !in line'
    ensures Split("\n" + heading + "\n" + line + "\n" + "\n" + heading' + "\n" + line' + "\n", '\n') ==
            ["", heading, line, "", heading', line', ""]
  {
    hide Split;
    var last := line' + "\n" + "";
    var second := "\n" + heading' + "\n" + last;
    var first := line + "\n" + second;
    EmptyTextIsOneLine();
    WholeLine(last, line', "");
    SectionReads(heading', last);
    WholeLine(first, line, second);
    SectionReads(heading, first);
    assert "\n" + heading + "\n" + first ==
           "\n" + heading + "\n" + line + "\n" + "\n" + heading' + "\n" + line' + "\n";
  }

  lemma TailReads()
    ensures Split(QUADLET_TAIL, '\n') ==
            ["", "[Service]", "Restart=on-failure", "", "[Install]", "WantedBy=default.target", ""]
  {
    hide Split;
    SectionsRead("[Service]", "Restart=on-failure", "[Install]", "WantedBy=default.target");
  }

  function Prefixed(keys: seq<string>, values: seq<string>): seq<string>
    requires |keys| == |values|
  {
    seq(|keys|, i requires 0 <= i < |keys| => keys[i] + values[i])
  }

  // Captions that are keys put one line per value.
  lemma {:induction false} KeysRead(keys: seq<string>, values: seq<string>, tail: string)
    requires |keys| == |values|
    requires forall i :: 0 <= i < |keys| ==> '\n' !in keys[i] && '\n' !in values[i]
    ensures Split(UnitText(keys, values, tail), '\n') == Prefixed(keys, values) + Split(tail, '\n')
  {
    hide Split;
    if keys != [] {
      KeysRead(keys[1..], values[1..], tail);
      KeyLine(UnitText(keys, values, tail), keys[0], values[0], UnitText(keys[1..], values[1..], tail));
      assert Prefixed(keys, values) == [keys[0] + values[0]] + Prefixed(keys[1..], values[1..]);
    }
  }

  // A heading, its key, an empty line, a second heading, and the remaining keys.
  lemma UnitTextReads(
    heading: string, first: string, section: string, keys: seq<string>, captions: seq<string>, values: seq<string>, tail: string)
    requires |captions| == |values| == |keys| + 1 > 1
    requires captions[0] == heading + "\n" + first && captions[1] == "\n" + section + "\n" + keys[0]
    requires captions[2..] == keys[1..]
    requires '\n' !in heading && '\n' !in first && '\n' !in section && '\n' !in values[0]
    requires forall i :: 0 <= i < |keys| ==> '\n' !in keys[i] && '\n' !in values[i + 1]
    ensures Split(UnitText(captions, values, tail), '\n') ==
            [heading, first + values[0], "", section] + Prefixed(keys, values[1..]) + Split(tail, '\n')
  {
    hide Split;
    var keyed := UnitText(keys, values[1..], tail);
    KeysRead(keys, values[1..], tail);
    var rest := UnitText(captions[1..], values[1..], tail);
    assert captions[1..][1..] == keys[1..];
    assert rest == "\n" + section + "\n" + keyed;
    SectionReads(section, keyed);
    var named := first + (values[0] + "\n" + rest);
    KeyLine(named, first, values[0], rest);
    assert UnitText(captions, values, tail) == heading + "\n" + named;
    WholeLine(heading + "\n" + named, heading, named);
  }

  function UnitKeys(): (keys: seq<string>)
    ensures |keys| == 5
  {
    ["ContainerName=", "Image=", "PublishPort=127.0.0.1:", "Label=io.pneuma.application=", "Label=io.pneuma.image-digest="]
  }

  lemma KeysAreOneLine()
    ensures forall i :: 0 <= i < 5 ==> '\n' !in UnitKeys()[i]
    ensures '\n' !in "Description=Pneuma application "
  {
  }

  lemma CaptionsStartLines()
    ensures QuadletCaptions()[0] == "[Unit]" + "\n" + "Description=Pneuma application "
    ensures QuadletCaptions()[1] == "\n" + "[Container]" + "\n" + "ContainerName="
    ensures QuadletCaptions()[2..] == UnitKeys()[1..]
  {
  }

  // The canonical unit, line by line: the container runs the artifact under the stable name and
  // publishes the host port, on loopback only, to the container port.
  lemma UnitReadsLineByLine(
    application: CatalogName, deployment: DeploymentId, artifact: OciArtifact, containerPort: Port, hostPort: Port)
    requires IsArtifact(artifact)
    ensures Split(CanonicalUnit(application, deployment, artifact, containerPort, hostPort), '\n') ==
            [ "[Unit]",
              "Description=Pneuma application " + application,
              "",
              "[Container]",
              "ContainerName=" + StableRuntimeName(application, deployment),
              "Image=" + artifact.reference,
              "PublishPort=127.0.0.1:" + (Decimal(hostPort) + ":" + Decimal(containerPort)),
              "Label=io.pneuma.application=" + application,
              "Label=io.pneuma.image-digest=" + artifact.digest,
              "",
              "[Service]",
              "Restart=on-failure",
              "",
              "[Install]",
              "WantedBy=default.target",
              "" ]
  {
    hide Split, UnitText, Decimal, StableRuntimeName, IsArtifact, QuadletCaptions, Prefixed, UnitKeys;
    var values := UnitValues(application, deployment, artifact, containerPort, hostPort);
    UnitValuesAreOneLine(application, deployment, artifact, containerPort, hostPort);
    KeysAreOneLine();
    CaptionsStartLines();
    FirstUnitKey();
    UnitTextReads("[Unit]", "Description=Pneuma application ", "[Container]", UnitKeys(), QuadletCaptions(), values, QUADLET_TAIL);
    TailReads();
    PrefixedUnitKeys(values[1..]);
  }

  lemma FirstUnitKey()
    ensures UnitKeys()[0] == "ContainerName="
  {
  }

  lemma PrefixedUnitKeys(values: seq<string>)
    requires |values| == 5
    ensures Prefixed(UnitKeys(), values) ==
            [ "ContainerName=" + values[0], "Image=" + values[1], "PublishPort=127.0.0.1:" + values[2],
              "Label=io.pneuma.application=" + values[3], "Label=io.pneuma.image-digest=" + values[4] ]
  {
  }

  // ---- the fragment ----

  // The canonical fragment, line by line: the domain opens the site, requests go to the endpoint.
  lemma FragmentReadsLineByLine(domain: string, endpoint: SocketAddr)
    requires IsDomain(domain) && IsLoopback(endpoint)
    ensures Split(CanonicalFragment(domain, endpoint), '\n') ==
            [ domain + " {", "    reverse_proxy 127.0.0.1:" + Decimal(endpoint.port), "}", "" ]
  {
    hide Split, IsDomain, Decimal;
    DomainIsOneLine(domain);
    var port := Decimal(endpoint.port);
    var close := "}" + "\n" + "";
    var route := "    reverse_proxy 127.0.0.1:" + port + "\n" + close;
    assert " {\n    reverse_proxy " == " {" + "\n" + "    reverse_proxy ";
    assert "\n}\n" == "\n" + close;
    assert "    reverse_proxy 127.0.0.1:" == "    reverse_proxy " + ("127.0.0.1" + ":");
    assert CanonicalFragment(domain, endpoint) == domain + " {" + "\n" + route;
    WholeLine(CanonicalFragment(domain, endpoint), domain + " {", route);
    WholeLine(route, "    reverse_proxy 127.0.0.1:" + port, close);
    WholeLine(close, "}", "");
    EmptyTextIsOneLine();
  }

  lemma EmptyTextIsOneLine()
    ensures Split("", '\n') == [""]
  {
  }

  lemma DomainIsOneLine(domain: string)
    requires IsDomain(domain)
    ensures '\n' !in domain
  {
    var allowed := (c: char) => '-' <= c <= 'z';
    forall part, c | part in Split(domain, '.') && c in part
      ensures allowed(c)
    {
      var i :| 0 <= i < |Split(domain, '.')| && Split(domain, '.')[i] == part;
      var j :| 0 <= j < |part| && part[j] == c;
    }
    SplitCoversEveryCharacter(domain, '.', allowed);
  }

  // ---- what reconciliation expects ----

  // The expected bytes describe the runtime they are compared with: its name, its artifact, its
  // host port in the unit and behind the route of a public intent.
  lemma ExpectationsDescribeTheRuntime(input: Input)
    requires HasRuntime(input) && IsArtifact(input.active.value.artifact)
    ensures var expected, active, runtime := ExpectationsFor(input), input.active.value, RuntimeOf(input);
            var lines := Split(expected.quadlet, '\n');
            && expected.containerName == StableRuntimeName(input.name, active.deploymentId)
            && |lines| == 16 && lines[4] == "ContainerName=" + expected.containerName
            && lines[5] == "Image=" + active.artifact.reference
            && lines[6] == "PublishPort=127.0.0.1:" + (Decimal(runtime.hostPort) + ":" + Decimal(runtime.containerPort))
            && (expected.fragment.Some? <==> input.exposure.Some? && input.exposure.value.intent.Public?)
            && (expected.fragment.Some? ==>
                  Split(expected.fragment.value, '\n') ==
                  [ input.exposure.value.intent.domain + " {",
                    "    reverse_proxy 127.0.0.1:" + Decimal(runtime.hostPort), "}", "" ])
  {
    hide Split, Decimal, CanonicalUnit, CanonicalFragment, StableRuntimeName, IsArtifact, IsDomain;
    var active, runtime := input.active.value, RuntimeOf(input);
    UnitReadsLineByLine(input.name, active.deploymentId, active.artifact, runtime.containerPort, runtime.hostPort);
    if input.exposure.Some? && input.exposure.value.intent.Public? {
      FragmentReadsLineByLine(input.exposure.value.intent.domain, runtime.Endpoint());
    }
  }

  // ---- names ----

  predicate IsLowerOrDigit(c: char) { 'a' <= c <= 'z' || '0' <= c <= '9' }

  // Lower-case letters, digits and hyphens, 1 to 63, and no hyphen at either end.
  lemma CatalogNamesAreExact(value: string)
    ensures IsCatalogName(value) <==>
              && 1 <= |value| <= 63 && value[0] != '-' && value[|value| - 1] != '-'
              && forall i :: 0 <= i < |value| ==> IsLowerOrDigit(value[i]) || value[i] == '-'
  {
  }

  // Generated identifiers are 32 lower-case hexadecimal characters; container identifiers are
  // hexadecimal characters of either case, at least one.
  lemma IdentifiersAreExact(value: string)
    ensures IsEntityId(value) <==> |value| == 32 && forall i :: 0 <= i < |value| ==> value[i] in "0123456789abcdef"
    ensures IsContainerId(value) <==>
              value != "" && forall i :: 0 <= i < |value| ==> value[i] in "0123456789abcdefABCDEF"
  {
    forall i | 0 <= i < |value|
      ensures value[i] in "0123456789abcdef" <==> IsLowercaseHex(value[i])
      ensures value[i] in "0123456789abcdefABCDEF" <==> IsLowercaseHex(value[i]) || 'A' <= value[i] <= 'F'
    {
      HexCharacters(value[i]);
    }
  }

  lemma HexCharacters(c: char)
    ensures c in "0123456789abcdef" <==> '0' <= c <= '9' || 'a' <= c <= 'f'
    ensures c in "0123456789abcdefABCDEF" <==> '0' <= c <= '9' || 'a' <= c <= 'f' || 'A' <= c <= 'F'
  {
    DigitCharacters(c);
    assert "0123456789abcdef" == "0123456789" + "abcdef";
    assert "0123456789abcdefABCDEF" == "0123456789abcdef" + "ABCDEF";
  }

  lemma DigitCharacters(c: char)
    ensures c in "0123456789" <==> '0' <= c <= '9'
  {
  }

  predicate IsLabel(part: string) {
    && 1 <= |part| <= 63 && part[0] != '-' && part[|part| - 1] != '-'
    && forall i :: 0 <= i < |part| ==> IsLowerOrDigit(part[i]) || 'A' <= part[i] <= 'Z' || part[i] == '-'
  }

  ghost predicate IsLabelled(domain: string, labels: seq<string>) {
    labels != [] && domain == Join(labels, '.') && forall i :: 0 <= i < |labels| ==> IsLabel(labels[i])
  }

  // A domain is labels between dots, at most 253 characters in all.
  lemma DomainsAreExact(domain: string)
    ensures IsDomain(domain) <==> |domain| <= 253 && exists labels :: IsLabelled(domain, labels)
  {
    hide Split, Join, IsLabel, IsDomainLabel;
    var parts := Split(domain, '.');
    SplitIsExact(domain, '.');
    forall i | 0 <= i < |parts|
      ensures IsDomainLabel(parts[i]) <==> IsLabel(parts[i])
    {
      LabelsAreExact(parts[i]);
    }
    if IsDomain(domain) {
      assert IsLabelled(domain, parts);
    }
    if exists labels :: IsLabelled(domain, labels) {
      var labels :| IsLabelled(domain, labels);
      forall i | 0 <= i < |labels|
        ensures '.' !in labels[i]
      {
        LabelsHaveNoDot(labels[i]);
      }
      SplitOfJoined(labels, '.');
      LabelledIsAscii(domain, labels);
    }
  }

  lemma LabelsAreExact(part: string)
    ensures IsDomainLabel(part) <==> IsLabel(part)
  {
  }

  lemma LabelsHaveNoDot(part: string)
    requires IsLabel(part)
    ensures '.' !in part
  {
  }

  lemma LabelledIsAscii(domain: string, labels: seq<string>)
    requires Split(domain, '.') == labels && labels != [] && forall i :: 0 <= i < |labels| ==> IsLabel(labels[i])
    ensures domain != "" && forall i :: 0 <= i < |domain| ==> domain[i] < '\U{80}'
  {
    hide Split, IsLabel;
    var allowed := (c: char) => c <= 'z';
    forall part, c | part in labels && c in part
      ensures allowed(c)
    {
      LabelsAreAscii(part, c);
    }
    SplitCoversEveryCharacter(domain, '.', allowed);
    assert forall i :: 0 <= i < |domain| ==> domain[i] in domain;
    LabelsAreNotEmpty(labels[0]);
    EmptyTextHasOneLabel();
  }

  lemma LabelsAreAscii(part: string, c: char)
    requires IsLabel(part) && c in part
    ensures c <= 'z'
  {
  }

  lemma LabelsAreNotEmpty(part: string)
    requires IsLabel(part)
    ensures part != ""
  {
  }

  lemma EmptyTextHasOneLabel()
    ensures Split("", '.') == [""]
  {
  }

  // ---- numbers ----

  // One text shows which way the digits run.
  lemma PortsPrintAsUsual()
    ensures Decimal(30080) == "30080"
  {
    assert Decimal(3) == "3";
    assert Decimal(30) == "30";
    assert Decimal(300) == "300";
    assert Decimal(3008) == "3008";
  }
}
