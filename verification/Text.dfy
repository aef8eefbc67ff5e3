/** The text operations the validated grammars and the canonical renderers are built from. */
module Text {
  import opened Wrappers

  // The Unicode White_Space set used by trimming.
  predicate IsWhitespace(c: char) {
    || '\t' <= c <= '\r' || c == ' ' || c == '\U{85}' || c == '\U{A0}' || c == '\U{1680}'
    || '\U{2000}' <= c <= '\U{200A}' || c == '\U{2028}' || c == '\U{2029}' || c == '\U{202F}'
    || c == '\U{205F}' || c == '\U{3000}'
  }

  lemma WhitespaceCodePoints(c: char)
    ensures IsWhitespace(c) <==>
              || (c as int) in {9, 10, 11, 12, 13, 32, 133, 160, 5760, 8232, 8233, 8239, 8287, 12288}
              || 8192 <= c as int <= 8202
  {
  }

  predicate IsDigit(c: char) { '0' <= c <= '9' }

  predicate IsLowercaseHex(c: char) { '0' <= c <= '9' || 'a' <= c <= 'f' }

  predicate IsAlphanumeric(c: char) { '0' <= c <= '9' || 'a' <= c <= 'z' || 'A' <= c <= 'Z' }

  function TrimStart(s: string): (t: string)
    ensures |t| <= |s|
    ensures t == s[|s| - |t|..]
    ensures t != "" ==> !IsWhitespace(t[0])
  {
    if s != "" && IsWhitespace(s[0]) then TrimStart(s[1..]) else s
  }

  function TrimEnd(s: string): (t: string)
    ensures |t| <= |s|
    ensures t == s[..|t|]
    ensures t != "" ==> !IsWhitespace(t[|t| - 1])
  {
    if s != "" && IsWhitespace(s[|s| - 1]) then TrimEnd(s[..|s| - 1]) else s
  }

  function Trim(s: string): string { TrimEnd(TrimStart(s)) }

  predicate IsTrimmed(s: string) {
    s != "" ==> !IsWhitespace(s[0]) && !IsWhitespace(s[|s| - 1])
  }

  lemma TrimFixesExactlyTrimmedText(s: string)
    ensures IsTrimmed(Trim(s))
    ensures Trim(s) == s <==> IsTrimmed(s)
  {
    var t := TrimStart(s);
    if t != "" && Trim(s) != "" {
      assert Trim(s)[0] == t[0];
    }
  }

  predicate IsBlank(s: string) { forall i :: 0 <= i < |s| ==> IsWhitespace(s[i]) }

  lemma TrimErasesExactlyBlankText(s: string)
    ensures Trim(s) == "" <==> IsBlank(s)
  {
    TrimStartDropsBlanks(s);
    TrimEndKeepsText(TrimStart(s));
  }

  lemma {:induction false} TrimStartDropsBlanks(s: string)
    ensures TrimStart(s) == "" <==> IsBlank(s)
  {
    if s != "" && IsWhitespace(s[0]) {
      TrimStartDropsBlanks(s[1..]);
      assert IsBlank(s) <==> IsBlank(s[1..]) by {
        assert forall i :: 1 <= i < |s| ==> s[i] == s[1..][i - 1];
      }
    }
  }

  lemma {:induction false} TrimEndKeepsText(s: string)
    ensures s != "" && !IsWhitespace(s[0]) ==> TrimEnd(s) != ""
    decreases |s|
  {
    if s != "" && !IsWhitespace(s[0]) && IsWhitespace(s[|s| - 1]) {
      TrimEndKeepsText(s[..|s| - 1]);
    }
  }

  // Trimming removes blanks at both ends and nothing else.
  lemma TrimRemovesBlanks(s: string) returns (front: string, back: string)
    ensures IsBlank(front) && IsBlank(back) && s == front + Trim(s) + back
    ensures IsTrimmed(Trim(s))
  {
    hide IsWhitespace, TrimStart, TrimEnd;
    var t := TrimStart(s);
    front, back := s[..|s| - |t|], t[|Trim(s)|..];
    assert s == front + t && t == Trim(s) + back;
    forall i | 0 <= i < |front|
      ensures IsWhitespace(front[i])
    {
      TrimStartRemovesBlanks(s, i);
    }
    forall i | 0 <= i < |back|
      ensures IsWhitespace(back[i])
    {
      TrimEndRemovesBlanks(t, |Trim(s)| + i);
    }
    TrimFixesExactlyTrimmedText(s);
  }

  lemma {:induction false} TrimStartRemovesBlanks(s: string, i: nat)
    requires i < |s| - |TrimStart(s)|
    ensures IsWhitespace(s[i])
  {
    hide IsWhitespace;
    if i > 0 {
      TrimStartRemovesBlanks(s[1..], i - 1);
    }
  }

  lemma {:induction false} TrimEndRemovesBlanks(s: string, i: nat)
    requires |TrimEnd(s)| <= i < |s|
    ensures IsWhitespace(s[i])
    decreases |s|
  {
    hide IsWhitespace;
    if i < |s| - 1 {
      TrimEndRemovesBlanks(s[..|s| - 1], i);
    }
  }

  // So a trimmed text padded with blanks is recovered.
  lemma TrimRecoversPaddedText(front: string, text: string, back: string)
    requires IsBlank(front) && IsBlank(back) && IsTrimmed(text)
    ensures Trim(front + text + back) == text
  {
    if text == "" {
      assert front + text + back == front + back;
      assert IsBlank(front + back);
      TrimErasesExactlyBlankText(front + back);
    } else {
      assert front + text + back == front + (text + back);
      TrimStartSkipsBlanks(front, text + back);
      TrimEndSkipsBlanks(text, back);
    }
  }

  lemma {:induction false} TrimStartSkipsBlanks(front: string, s: string)
    requires IsBlank(front) && s != "" && !IsWhitespace(s[0])
    ensures TrimStart(front + s) == s
  {
    if front == "" {
      assert front + s == s;
    } else {
      assert (front + s)[1..] == front[1..] + s;
      TrimStartSkipsBlanks(front[1..], s);
    }
  }

  lemma {:induction false} TrimEndSkipsBlanks(s: string, back: string)
    requires IsBlank(back) && s != "" && !IsWhitespace(s[|s| - 1])
    ensures TrimEnd(s + back) == s
    decreases |back|
  {
    if back == "" {
      assert s + back == s;
    } else {
      assert (s + back)[..|s + back| - 1] == s + back[..|back| - 1];
      TrimEndSkipsBlanks(s, back[..|back| - 1]);
    }
  }

  // Cuts at the first separator; both halves exclude it and the left half has no other one.
  function SplitOnce(s: string, separator: char): (parts: Option<(string, string)>)
    ensures parts.None? <==> separator !in s
    ensures parts.Some? ==> s == parts.value.0 + [separator] + parts.value.1
    ensures parts.Some? ==> separator !in parts.value.0
  {
    if s == "" then None
    else if s[0] == separator then
      assert s == "" + [separator] + s[1..];
      Some(("", s[1..]))
    else
      match SplitOnce(s[1..], separator)
      case None => assert s == [s[0]] + s[1..]; None
      case Some((left, right)) =>
        assert s == [s[0]] + s[1..] == ([s[0]] + left) + [separator] + right;
        Some(([s[0]] + left, right))
  }

  // The one fact every injectivity proof rests on: a separator absent from both left
  // halves determines the cut.
  lemma CutIsUnique(left: string, right: string, left': string, right': string, separator: char)
    requires left + [separator] + right == left' + [separator] + right'
    requires separator !in left && separator !in left'
    ensures left == left' && right == right'
  {
    var s, s' := left + [separator] + right, left' + [separator] + right';
    assert s[|left|] == separator && s'[|left'|] == separator;
    assert s[..|left|] == left && s'[..|left'|] == left';
    assert |left| == |left'|;
    assert s[|left| + 1..] == right && s'[|left| + 1..] == right';
  }

  lemma PrefixCancels(prefix: string, left: string, right: string)
    requires prefix + left == prefix + right
    ensures left == right
  {
    assert (prefix + left)[|prefix|..] == left && (prefix + right)[|prefix|..] == right;
  }

  lemma SplitOnceAtCut(left: string, right: string, separator: char)
    requires separator !in left
    ensures SplitOnce(left + [separator] + right, separator) == Some((left, right))
  {
    var s := left + [separator] + right;
    assert s[|left|] == separator;
    var (left', right') := SplitOnce(s, separator).value;
    CutIsUnique(left, right, left', right', separator);
  }

  // Every component between separators, keeping empty ones.
  function Split(s: string, separator: char): (parts: seq<string>)
    ensures |parts| >= 1
    decreases |s|
  {
    match SplitOnce(s, separator)
    case None => [s]
    case Some((left, right)) => [left] + Split(right, separator)
  }

  function Join(parts: seq<string>, separator: char): string
    requires parts != []
  {
    if |parts| == 1 then parts[0] else parts[0] + [separator] + Join(parts[1..], separator)
  }

  // The components are free of separators, and joining them gives the text back.
  lemma {:induction false} SplitIsExact(s: string, separator: char)
    ensures Join(Split(s, separator), separator) == s
    ensures forall i :: 0 <= i < |Split(s, separator)| ==> separator !in Split(s, separator)[i]
    decreases |s|
  {
    match SplitOnce(s, separator) {
      case None =>
      case Some((left, right)) =>
        SplitIsExact(right, separator);
        assert Split(s, separator)[1..] == Split(right, separator);
    }
  }

  // Such components are the only ones a text has.
  lemma {:induction false} SplitOfJoined(parts: seq<string>, separator: char)
    requires parts != [] && forall i :: 0 <= i < |parts| ==> separator !in parts[i]
    ensures Split(Join(parts, separator), separator) == parts
    decreases |parts|
  {
    if |parts| > 1 {
      SplitOnceAtCut(parts[0], Join(parts[1..], separator), separator);
      SplitOfJoined(parts[1..], separator);
    }
  }

  lemma FirstComponent(first: string, rest: string, separator: char)
    requires separator !in first
    ensures Split(first + [separator] + rest, separator) == [first] + Split(rest, separator)
  {
    SplitOnceAtCut(first, rest, separator);
  }

  lemma {:induction false} SplitCoversEveryCharacter(s: string, separator: char, allowed: char -> bool)
    requires forall part, c :: part in Split(s, separator) && c in part ==> allowed(c)
    ensures forall c :: c in s ==> allowed(c) || c == separator
    decreases |s|
  {
    match SplitOnce(s, separator) {
      case None => assert s in Split(s, separator);
      case Some((left, right)) =>
        assert left in Split(s, separator);
        assert forall part :: part in Split(right, separator) ==> part in Split(s, separator);
        SplitCoversEveryCharacter(right, separator, allowed);
    }
  }

  function DigitOf(n: nat): (c: char)
    requires n < 10
    ensures IsDigit(c) && DigitValue(c) == n
  {
    '0' + n as char
  }

  function DigitValue(c: char): nat
    requires IsDigit(c)
  {
    c as int - '0' as int
  }

  predicate AllDigits(s: string) { forall i :: 0 <= i < |s| ==> IsDigit(s[i]) }

  // Canonical decimal rendering of a number.
  function Decimal(n: nat): (s: string)
    ensures s != "" && AllDigits(s)
  {
    if n < 10 then [DigitOf(n)] else Decimal(n / 10) + [DigitOf(n % 10)]
  }

  function DecimalValue(s: string): nat
    requires AllDigits(s)
  {
    if s == "" then 0 else DecimalValue(s[..|s| - 1]) * 10 + DigitValue(s[|s| - 1])
  }

  lemma {:induction false} DecimalRoundTrips(n: nat)
    ensures DecimalValue(Decimal(n)) == n
  {
    var s := Decimal(n);
    if n < 10 {
      assert s[..|s| - 1] == "";
    } else {
      DecimalRoundTrips(n / 10);
      assert s[..|s| - 1] == Decimal(n / 10);
    }
  }

  lemma DecimalIsInjective(m: nat, n: nat)
    requires Decimal(m) == Decimal(n)
    ensures m == n
  {
    DecimalRoundTrips(m);
    DecimalRoundTrips(n);
  }
}
