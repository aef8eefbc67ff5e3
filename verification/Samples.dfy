/** Identifiers and artifact references written out for the concrete runs. */
module Samples {
  import opened Text
  import opened Identity
  import opened Release

  const FIRST: EntityText := "00000000000000000000000000000000"
  const SECOND: EntityText := "11111111111111111111111111111111"
  const THIRD: EntityText := "22222222222222222222222222222222"

  lemma TheyDiffer()
    ensures FIRST != SECOND && FIRST != THIRD && SECOND != THIRD
  {
    assert FIRST[0] != SECOND[0] && FIRST[0] != THIRD[0] && SECOND[0] != THIRD[0];
  }

  function Digest(c: char): string { "sha256:" + seq(64, _ => c) }

  function Image(c: char): string { "app" + "@" + Digest(c) }

  lemma AppIsARepository()
    ensures IsRepository("app")
  {
    assert '/' !in "app";
    assert Split("app", '/') == ["app"];
    assert LastColon("app").None?;
    TrimFixesExactlyTrimmedText("app");
  }

  // The reference grammar accepts it, so it can be stored.
  lemma ImagesAreStorable(c: char)
    requires IsLowercaseHex(c)
    ensures ParseArtifact(Image(c)).Ok?
  {
    hide IsRepository, ParseArtifact;
    AppIsARepository();
    ParseInvertsPrint("app", Digest(c));
  }

  lemma ImagesDiffer(c: char, e: char)
    requires c != e
    ensures Image(c) != Image(e)
  {
    var prefix := "app" + "@" + "sha256:";
    assert Image(c)[|prefix|] == c && Image(e)[|prefix|] == e;
  }
}
