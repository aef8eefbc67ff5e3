/** Digest-pinned OCI artifacts and the delivery boundary they must respect. */
module Release {
  import opened Wrappers
  import opened Text

  const DIGEST_ALGORITHM := "sha256:"
  const SHA256_HEX_LENGTH := 64

  predicate IsSha256Digest(digest: string) {
    && |digest| == |DIGEST_ALGORITHM| + SHA256_HEX_LENGTH
    && digest[..|DIGEST_ALGORITHM|] == DIGEST_ALGORITHM
    && forall i :: |DIGEST_ALGORITHM| <= i < |digest| ==> IsLowercaseHex(digest[i])
  }

  predicate IsNameCharacter(c: char) { IsAlphanumeric(c) || c == '.' || c == '_' || c == '-' }

  predicate IsNameText(name: string) {
    name != "" && forall i :: 0 <= i < |name| ==> IsNameCharacter(name[i])
  }

  // The position of the last colon, when there is one.
  function LastColon(component: string): (position: Option<nat>)
    ensures position.None? <==> ':' !in component
    ensures position.Some? ==> position.value < |component| && component[position.value] == ':'
  {
    if component == "" then None
    else if component[|component| - 1] == ':' then Some(|component| - 1)
    else
      assert component == component[..|component| - 1] + [component[|component| - 1]];
      LastColon(component[..|component| - 1])
  }

  // A name, followed by a colon and digits only where `registry` allows it.
  predicate IsRepositoryComponent(component: string, registry: bool) {
    match if registry then LastColon(component) else None
    case None => IsNameText(component)
    case Some(colon) =>
      IsNameText(component[..colon]) && component[colon + 1..] != "" && AllDigits(component[colon + 1..])
  }

  predicate IsRepository(repository: string) {
    var components := Split(repository, '/');
    && repository != ""
    && Trim(repository) == repository
    && '@' !in repository
    && "" !in components
    && !(':' in components[0] && |components| == 1)
    && IsRepositoryComponent(components[0], true)
    && forall i :: 1 <= i < |components| ==> IsRepositoryComponent(components[i], false)
  }

  // ---- the grammar, without cutting ----

  // Letters, digits, dots, underscores and hyphens, at least one.
  predicate IsPlain(name: string) {
    && name != ""
    && forall i :: 0 <= i < |name| ==>
         'a' <= name[i] <= 'z' || 'A' <= name[i] <= 'Z' || '0' <= name[i] <= '9' || name[i] in {'.', '_', '-'}
  }

  predicate IsHostPort(component: string, host: string, port: string) {
    && component == host + ":" + port && IsPlain(host)
    && port != "" && forall i :: 0 <= i < |port| ==> '0' <= port[i] <= '9'
  }

  // Plain components between slashes; only the first of several may carry a port.
  ghost predicate IsComposed(repository: string, components: seq<string>) {
    && components != [] && repository == Join(components, '/')
    && (forall i :: 1 <= i < |components| ==> IsPlain(components[i]))
    && (|| IsPlain(components[0])
        || (|components| > 1 && exists host, port :: IsHostPort(components[0], host, port)))
  }

  lemma FirstComponentsAreExact(component: string)
    ensures IsRepositoryComponent(component, true) <==>
              IsPlain(component) || exists host, port :: IsHostPort(component, host, port)
    ensures IsPlain(component) ==> ':' !in component
    ensures forall host, port :: IsHostPort(component, host, port) ==> ':' in component
  {
    if LastColon(component).Some? && IsRepositoryComponent(component, true) {
      var colon := LastColon(component).value;
      assert component == component[..colon] + ":" + component[colon + 1..];
      assert IsHostPort(component, component[..colon], component[colon + 1..]);
    }
    forall host, port | IsHostPort(component, host, port)
      ensures IsRepositoryComponent(component, true) && ':' in component
    {
      OneColon(component, host, port);
    }
  }

  lemma OneColon(component: string, host: string, port: string)
    requires IsHostPort(component, host, port)
    ensures LastColon(component) == Some(|host|)
    ensures component[..|host|] == host && component[|host| + 1..] == port
  {
    assert component[|host|] == ':';
    assert forall i :: 0 <= i < |host| ==> component[i] == host[i];
    assert forall i :: 0 <= i < |port| ==> component[|host| + 1 + i] == port[i];
    assert forall i :: 0 <= i < |component| && component[i] == ':' ==> i == |host| by {
      forall i | |host| < i < |component|
        ensures component[i] != ':'
      {
        assert component[i] == port[i - |host| - 1];
      }
    }
  }

  lemma OtherComponentsAreExact(component: string)
    ensures IsRepositoryComponent(component, false) <==> IsPlain(component)
  {
  }

  // The repositories the grammar accepts are exactly the composed ones.
  lemma RepositoriesAreExact(repository: string)
    ensures IsRepository(repository) <==> exists components :: IsComposed(repository, components)
  {
    hide IsRepositoryComponent, IsPlain, IsHostPort, Trim, Split;
    var parts := Split(repository, '/');
    FirstComponentsAreExact(parts[0]);
    forall i | 1 <= i < |parts|
      ensures IsRepositoryComponent(parts[i], false) <==> IsPlain(parts[i])
    {
      OtherComponentsAreExact(parts[i]);
    }
    if IsRepository(repository) {
      SplitIsExact(repository, '/');
      assert IsComposed(repository, parts);
    }
    if exists components :: IsComposed(repository, components) {
      var components :| IsComposed(repository, components);
      ComposedIsSplit(repository, components);
      ComposedIsClean(repository, components);
    }
  }

  lemma ComposedIsSplit(repository: string, components: seq<string>)
    requires IsComposed(repository, components)
    ensures Split(repository, '/') == components && "" !in components
  {
    if !IsPlain(components[0]) {
      var host, port :| IsHostPort(components[0], host, port);
      assert '/' !in components[0];
    }
    SplitOfJoined(components, '/');
  }

  lemma ComponentsAreClean(component: string, c: char)
    requires IsPlain(component) || exists host, port :: IsHostPort(component, host, port)
    requires c in component
    ensures '!' <= c <= 'z' && c != '@'
  {
    if !IsPlain(component) {
      var host, port :| IsHostPort(component, host, port);
      assert c in host || c == ':' || c in port;
    }
  }

  lemma ComposedIsClean(repository: string, components: seq<string>)
    requires IsComposed(repository, components) && Split(repository, '/') == components && "" !in components
    ensures repository != "" && Trim(repository) == repository && '@' !in repository
  {
    hide IsPlain, IsHostPort, Trim, Split, Join;
    var allowed := (c: char) => '!' <= c <= 'z' && c != '@';
    forall part, c | part in components && c in part
      ensures allowed(c)
    {
      ComponentsAreClean(part, c);
    }
    SplitCoversEveryCharacter(repository, '/', allowed);
    EmptyTextHasAnEmptyComponent();
    assert forall c :: c in repository ==> '!' <= c <= 'z';
    assert repository[0] in repository && repository[|repository| - 1] in repository;
    TrimFixesExactlyTrimmedText(repository);
  }

  lemma EmptyTextHasAnEmptyComponent()
    ensures "" in Split("", '/')
  {
  }

  // A digest is the algorithm's name, a colon and 64 lower-case hexadecimal characters.
  lemma DigestsAreExact(digest: string)
    ensures IsSha256Digest(digest) <==>
              exists hex :: digest == "sha256:" + hex && |hex| == 64 &&
                forall i :: 0 <= i < 64 ==> '0' <= hex[i] <= '9' || 'a' <= hex[i] <= 'f'
  {
    if IsSha256Digest(digest) {
      var hex := digest[7..];
      assert digest == "sha256:" + hex;
    }
    if exists hex :: digest == "sha256:" + hex && |hex| == 64 &&
         forall i :: 0 <= i < 64 ==> '0' <= hex[i] <= '9' || 'a' <= hex[i] <= 'f' {
      var hex :| digest == "sha256:" + hex && |hex| == 64 &&
                 forall i :: 0 <= i < 64 ==> '0' <= hex[i] <= '9' || 'a' <= hex[i] <= 'f';
      assert forall i :: 7 <= i < 71 ==> digest[i] == hex[i - 7];
    }
  }

  datatype OciArtifact = OciArtifact(reference: string, repository: string, digest: string)

  function ParseArtifact(reference: string): Result<OciArtifact, string> {
    match SplitOnce(reference, '@')
    case None => Err(reference)
    case Some((repository, digest)) =>
      if !IsRepository(repository) || !IsSha256Digest(digest) then Err(reference)
      else Ok(OciArtifact(reference, repository, digest))
  }

  // The artifact of two parts, when the text they print parses.
  function NewArtifact(repository: string, digest: string): Result<OciArtifact, string> {
    ParseArtifact(repository + "@" + digest)
  }

  // An artifact some reference parsed to; the constructor is private in the source.
  predicate IsArtifact(artifact: OciArtifact) { ParseArtifact(artifact.reference) == Ok(artifact) }

  lemma DigestHasNoAt(digest: string)
    requires IsSha256Digest(digest)
    ensures '@' !in digest && '\n' !in digest
  {
    forall i | 0 <= i < |digest|
      ensures digest[i] != '@' && digest[i] != '\n'
    {
      if i < |DIGEST_ALGORITHM| {
        assert digest[i] == DIGEST_ALGORITHM[i];
      }
    }
  }

  // Parsing accepts exactly the strings printed from a valid repository and digest, and
  // recovers those two parts.
  lemma ParseInvertsPrint(repository: string, digest: string)
    ensures IsRepository(repository) && IsSha256Digest(digest) <==>
            NewArtifact(repository, digest) == Ok(OciArtifact(repository + "@" + digest, repository, digest))
    ensures NewArtifact(repository, digest).Ok? ==>
            NewArtifact(repository, digest).value.repository == repository &&
            NewArtifact(repository, digest).value.digest == digest
  {
    var reference := repository + "@" + digest;
    if '@' !in repository {
      SplitOnceAtCut(repository, digest, '@');
    } else {
      var (left, right) := SplitOnce(reference, '@').value;
      assert |left| < |repository| by {
        var i :| 0 <= i < |repository| && repository[i] == '@';
        assert reference[i] == '@';
        assert forall j :: 0 <= j < |left| ==> reference[j] == left[j];
      }
      assert right == reference[|left| + 1..];
      assert right[|repository| - |left| - 1] == '@';
      if IsSha256Digest(right) {
        DigestHasNoAt(right);
        assert false;
      }
    }
  }

  lemma ParseAcceptsOnlyPrintedReferences(reference: string)
    ensures ParseArtifact(reference).Ok? <==>
            exists repository, digest ::
              IsRepository(repository) && IsSha256Digest(digest) && reference == repository + "@" + digest
  {
    if ParseArtifact(reference).Ok? {
      var artifact := ParseArtifact(reference).value;
      assert reference == artifact.repository + "@" + artifact.digest;
    } else if exists repository, digest ::
        IsRepository(repository) && IsSha256Digest(digest) && reference == repository + "@" + digest {
      var repository, digest :| IsRepository(repository) && IsSha256Digest(digest) && reference == repository + "@" + digest;
      ParseInvertsPrint(repository, digest);
      assert false;
    }
  }

  // No line break survives validation, so a reference is always one line of a unit file.
  lemma ArtifactIsOneLine(artifact: OciArtifact)
    requires IsArtifact(artifact)
    ensures '\n' !in artifact.reference && '\n' !in artifact.digest
    ensures artifact.reference == artifact.repository + "@" + artifact.digest
  {
    var components := Split(artifact.repository, '/');
    var allowed := (c: char) => '!' <= c <= 'z';
    forall part, c | part in components && c in part
      ensures allowed(c)
    {
      var i :| 0 <= i < |components| && components[i] == part;
      ComponentCharacters(part, i == 0, c);
    }
    SplitCoversEveryCharacter(artifact.repository, '/', allowed);
    DigestHasNoAt(artifact.digest);
  }

  lemma ComponentCharacters(component: string, registry: bool, c: char)
    requires IsRepositoryComponent(component, registry) && c in component
    ensures '!' <= c <= 'z'
  {
    var i :| 0 <= i < |component| && component[i] == c;
    match if registry then LastColon(component) else None {
      case None =>
      case Some(colon) =>
        if i < colon {
          assert component[..colon][i] == c;
        } else if i > colon {
          assert component[colon + 1..][i - colon - 1] == c;
        }
    }
  }

  // Delivery permits the single repository recorded from the manifest.
  predicate Permits(imageRepository: string, artifact: OciArtifact) {
    imageRepository == artifact.repository
  }

  function Lower(c: char): char {
    if 'A' <= c <= 'Z' then (c as int + 32) as char else c
  }

  // Two characters are compared as equal exactly if they are, or are one ASCII letter in two cases.
  lemma LowerFoldsLetters(c: char, e: char)
    ensures Lower(c) == Lower(e) <==>
              || c == e
              || ('A' <= c <= 'Z' && e as int == c as int + 32)
              || ('A' <= e <= 'Z' && c as int == e as int + 32)
  {
  }

  // SQLite's `LIKE '%' || suffix` for a suffix without wildcards: ASCII case-insensitive.
  predicate LikeSuffix(text: string, suffix: string) {
    && |suffix| <= |text|
    && forall i :: 0 <= i < |suffix| ==> Lower(text[|text| - |suffix| + i]) == Lower(suffix[i])
  }

  lemma DigestSuffixIsExact(artifact: OciArtifact, digest: string)
    requires IsArtifact(artifact) && IsSha256Digest(digest)
    ensures LikeSuffix(artifact.reference, digest) <==> artifact.digest == digest
  {
    ArtifactIsOneLine(artifact);
    var text := artifact.reference;
    assert text[|text| - |digest|..] == artifact.digest;
    assert forall i :: 0 <= i < |digest| ==> text[|text| - |digest| + i] == artifact.digest[i];
    if LikeSuffix(text, digest) {
      forall i | 0 <= i < |digest|
        ensures artifact.digest[i] == digest[i]
      {
        assert Lower(text[|text| - |digest| + i]) == Lower(digest[i]);
        if i < |DIGEST_ALGORITHM| {
          assert artifact.digest[i] == DIGEST_ALGORITHM[i] && digest[i] == DIGEST_ALGORITHM[i];
        }
      }
    }
  }

  // Among the artifacts one delivery specification permits, the digest lookup has at most
  // one answer: two rows it could return carry the same reference.
  lemma DigestLookupIsUnambiguous(imageRepository: string, first: OciArtifact, second: OciArtifact, digest: string)
    requires IsArtifact(first) && IsArtifact(second) && IsSha256Digest(digest)
    requires Permits(imageRepository, first) && Permits(imageRepository, second)
    requires LikeSuffix(first.reference, digest) && LikeSuffix(second.reference, digest)
    ensures first == second
  {
    DigestSuffixIsExact(first, digest);
    DigestSuffixIsExact(second, digest);
    ArtifactIsOneLine(first);
    ArtifactIsOneLine(second);
  }
}
