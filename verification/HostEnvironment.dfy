/** The host environment file: a line parser that reports the first offending line. */
module HostEnvironment {
  import opened Wrappers
  import opened Text

  predicate IsLetter(c: char) { 'a' <= c <= 'z' || 'A' <= c <= 'Z' }

  predicate IsVariableName(name: string) {
    && name != "" && (IsLetter(name[0]) || name[0] == '_')
    && forall i :: 0 <= i < |name| ==> IsAlphanumeric(name[i]) || name[i] == '_'
  }

  type Variable = (string, string)

  datatype Fault = MissingSeparator | EmptyName | InvalidName(name: string) | NulInValue

  datatype ParseError = Malformed(number: nat, fault: Fault) | Duplicate(name: string, first: nat, number: nat)

  // ---- what a single line means ----

  datatype Line = Ignored | Faulty(fault: Fault) | Entry(name: string, value: string)

  function ReadLine(line: string): Line {
    var text := Trim(line);
    if text == "" || text[0] == '#' then Ignored
    else match SplitOnce(text, '=')
      case None => Faulty(MissingSeparator)
      case Some((left, right)) =>
        var name, value := Trim(left), Trim(right);
        if name == "" then Faulty(EmptyName)
        else if !IsVariableName(name) then Faulty(InvalidName(name))
        else if '\0' in value then Faulty(NulInValue)
        else Entry(name, value)
  }

  // A carriage return before the line break is whitespace that reading a line trims away, and
  // the empty piece after a final line break is an ignored line.
  function Lines(content: string): seq<string> { Split(content, '\n') }

  // ---- what a file means ----

  predicate Defines(line: string, name: string) { ReadLine(line).Entry? && ReadLine(line).name == name }

  // A faulty line, or one that defines a name an earlier line defines.
  ghost predicate Offends(lines: seq<string>, n: nat)
    requires n < |lines|
  {
    || ReadLine(lines[n]).Faulty?
    || (ReadLine(lines[n]).Entry? && exists m :: 0 <= m < n && Defines(lines[m], ReadLine(lines[n]).name))
  }

  // The error that names the line, and for a repeated name also the line that has it first.
  ghost predicate Describes(error: ParseError, lines: seq<string>, n: nat)
    requires n < |lines|
  {
    match error
    case Malformed(number, fault) => number == n + 1 && ReadLine(lines[n]) == Faulty(fault)
    case Duplicate(name, first, number) =>
      number == n + 1 && first <= n && Defines(lines[n], name) && IsFirstDefinition(lines, name, first)
  }

  // Lines are numbered from one.
  predicate IsFirstDefinition(lines: seq<string>, name: string, number: nat) {
    && 1 <= number <= |lines| && Defines(lines[number - 1], name)
    && forall m :: 0 <= m < number - 1 ==> !Defines(lines[m], name)
  }

  function Entries(lines: seq<string>): seq<Variable> {
    if lines == [] then []
    else
      var last := ReadLine(lines[|lines| - 1]);
      Entries(lines[..|lines| - 1]) + if last.Entry? then [(last.name, last.value)] else []
  }

  ghost predicate IsSound(lines: seq<string>) { forall n :: 0 <= n < |lines| ==> !Offends(lines, n) }

  // ---- the parser ----

  // Succeeds with the entries in file order exactly when no line offends; otherwise describes
  // the first line that does.
  ghost predicate Answers(result: Result<seq<Variable>, ParseError>, lines: seq<string>) {
    match result
    case Ok(entries) => IsSound(lines) && entries == Entries(lines)
    case Err(error) => exists n :: IsFirstOffence(error, lines, n)
  }

  ghost predicate IsFirstOffence(error: ParseError, lines: seq<string>, n: nat) {
    && n < |lines| && Offends(lines, n) && Describes(error, lines, n)
    && forall m :: 0 <= m < n ==> !Offends(lines, m)
  }

  method Parse(content: string) returns (result: Result<seq<Variable>, ParseError>)
    ensures Answers(result, Lines(content))
  {
    result := ParseLines(Lines(content));
  }

  method ParseLines(lines: seq<string>) returns (result: Result<seq<Variable>, ParseError>)
    ensures Answers(result, lines)
  {
    hide ReadLine, Entries;
    assert Entries(lines[..0]) == [] by { NoEntries(lines[..0]); }
    var entries: seq<Variable> := [];
    var firstLineByName: map<string, nat> := map[];
    for index := 0 to |lines|
      invariant forall n :: 0 <= n < index ==> !Offends(lines, n)
      invariant entries == Entries(lines[..index])
      invariant forall m :: 0 <= m < index && ReadLine(lines[m]).Entry? ==> ReadLine(lines[m]).name in firstLineByName
      invariant forall name :: name in firstLineByName ==> firstLineByName[name] <= index
      invariant forall name :: name in firstLineByName ==> IsFirstDefinition(lines, name, firstLineByName[name])
    {
      EntriesStep(lines, index);
      match ReadLine(lines[index])
      case Ignored =>
      case Faulty(fault) =>
        result := Err(Malformed(index + 1, fault));
        assert IsFirstOffence(result.error, lines, index);
        return;
      case Entry(name, value) =>
        if name in firstLineByName {
          result := Err(Duplicate(name, firstLineByName[name], index + 1));
          assert Defines(lines[firstLineByName[name] - 1], name);
          assert IsFirstOffence(result.error, lines, index);
          return;
        }
        assert forall m :: 0 <= m < index ==> !Defines(lines[m], name);
        assert IsFirstDefinition(lines, name, index + 1);
        firstLineByName := firstLineByName[name := index + 1];
        entries := entries + [(name, value)];
    }
    assert lines[..|lines|] == lines;
    result := Ok(entries);
  }

  lemma NoEntries(lines: seq<string>)
    requires lines == []
    ensures Entries(lines) == []
  {
  }

  lemma EntriesStep(lines: seq<string>, n: nat)
    requires n < |lines|
    ensures Entries(lines[..n + 1]) ==
              Entries(lines[..n]) + if ReadLine(lines[n]).Entry? then [(ReadLine(lines[n]).name, ReadLine(lines[n]).value)] else []
  {
    assert lines[..n + 1][..n] == lines[..n];
  }

  // The answer is the only one: a sound file cannot be refused, an unsound one not accepted,
  // and an error names one line.
  lemma AnswersAreUnique(lines: seq<string>, r: Result<seq<Variable>, ParseError>, s: Result<seq<Variable>, ParseError>)
    requires Answers(r, lines) && Answers(s, lines)
    ensures r == s
  {
    hide ReadLine;
    if r.Err? && s.Err? {
      var n :| IsFirstOffence(r.error, lines, n);
      var m :| IsFirstOffence(s.error, lines, m);
      assert n == m;
      DescriptionsAreUnique(r.error, s.error, lines, n);
    }
  }

  lemma DescriptionsAreUnique(e: ParseError, f: ParseError, lines: seq<string>, n: nat)
    requires n < |lines| && Describes(e, lines, n) && Describes(f, lines, n)
    ensures e == f
  {
    hide ReadLine;
    if e.Duplicate? && f.Duplicate? {
      assert e.name == f.name;
      assert e.first == f.first;
    }
  }

  // ---- what success means ----

  lemma {:induction false} EntriesComeFromLines(lines: seq<string>, i: nat)
    requires i < |Entries(lines)|
    ensures exists n :: 0 <= n < |lines| && ReadLine(lines[n]) == Entry(Entries(lines)[i].0, Entries(lines)[i].1)
    decreases |lines|
  {
    hide ReadLine;
    var front := lines[..|lines| - 1];
    if i < |Entries(front)| {
      EntriesComeFromLines(front, i);
      var n :| 0 <= n < |front| && ReadLine(front[n]) == Entry(Entries(front)[i].0, Entries(front)[i].1);
      assert lines[n] == front[n];
    } else {
      assert ReadLine(lines[|lines| - 1]).Entry?;
    }
  }

  lemma EntriesAreValid(line: string)
    ensures ReadLine(line).Entry? ==> IsVariableName(ReadLine(line).name) && '\0' !in ReadLine(line).value
    ensures ReadLine(line).Entry? ==> IsTrimmed(ReadLine(line).value)
  {
    hide Trim, SplitOnce, IsTrimmed, IsVariableName;
    if SplitOnce(Trim(line), '=').Some? {
      TrimFixesExactlyTrimmedText(SplitOnce(Trim(line), '=').value.1);
    }
  }

  lemma {:induction false} SoundPrefix(lines: seq<string>)
    requires IsSound(lines) && lines != []
    ensures IsSound(lines[..|lines| - 1])
  {
    hide ReadLine;
    var front := lines[..|lines| - 1];
    forall n | 0 <= n < |front|
      ensures !Offends(front, n)
    {
      assert !Offends(lines, n);
      assert forall m :: 0 <= m <= n ==> front[m] == lines[m];
    }
  }

  // The entries of an accepted file: valid, pairwise distinct names in file order, values that
  // are trimmed and free of NUL, one entry per significant line.
  lemma {:induction false} SoundEntries(lines: seq<string>)
    requires IsSound(lines)
    ensures forall i :: 0 <= i < |Entries(lines)| ==>
              IsVariableName(Entries(lines)[i].0) && '\0' !in Entries(lines)[i].1 && IsTrimmed(Entries(lines)[i].1)
    ensures forall i, j :: 0 <= i < j < |Entries(lines)| ==> Entries(lines)[i].0 != Entries(lines)[j].0
    ensures |Entries(lines)| == |SignificantLines(lines)|
    decreases |lines|
  {
    hide ReadLine, IsVariableName, IsTrimmed;
    if lines != [] {
      var n := |lines| - 1;
      var front := lines[..n];
      SoundPrefix(lines);
      SoundEntries(front);
      EntriesAreValid(lines[n]);
      assert !Offends(lines, n);
      if ReadLine(lines[n]).Entry? {
        forall i | 0 <= i < |Entries(front)|
          ensures Entries(front)[i].0 != ReadLine(lines[n]).name
        {
          EntriesComeFromLines(front, i);
          var m :| 0 <= m < |front| && ReadLine(front[m]) == Entry(Entries(front)[i].0, Entries(front)[i].1);
          assert lines[m] == front[m];
          assert Defines(lines[m], Entries(front)[i].0);
        }
      }
    }
  }

  // The lines that are neither blank nor comments.
  function SignificantLines(lines: seq<string>): seq<string> {
    if lines == [] then []
    else
      SignificantLines(lines[..|lines| - 1]) + if ReadLine(lines[|lines| - 1]).Ignored? then [] else [lines[|lines| - 1]]
  }

  // ---- what a single line means, without trimming or cutting ----

  // A name and a value around one separator, each between blanks; the name starts no comment.
  predicate IsLaidOut(line: string, before: string, name: string, after: string, lead: string, value: string, trail: string) {
    && line == before + name + after + "=" + (lead + value + trail)
    && IsBlank(before) && IsBlank(after) && IsBlank(lead) && IsBlank(trail)
    && IsTrimmed(name) && IsTrimmed(value) && '=' !in name && !(name != "" && name[0] == '#')
  }

  ghost predicate Assigns(line: string, name: string, value: string) {
    exists before, after, lead, trail :: IsLaidOut(line, before, name, after, lead, value, trail)
  }

  ghost predicate IsComment(line: string) { exists before, rest :: IsBlank(before) && line == before + "#" + rest }

  // Every meaning of a line, exactly: blank lines and comments are ignored; a line without a
  // separator is faulty; otherwise it assigns one value to one name, and the name decides first.
  lemma LinesMeanExactly(line: string, name: string, value: string)
    ensures ReadLine(line) == Ignored <==> IsBlank(line) || IsComment(line)
    ensures ReadLine(line) == Faulty(MissingSeparator) <==> !IsBlank(line) && !IsComment(line) && '=' !in line
    ensures Assigns(line, name, value) ==>
              ReadLine(line) == (
                if name == "" then Faulty(EmptyName)
                else if !IsVariableName(name) then Faulty(InvalidName(name))
                else if '\0' in value then Faulty(NulInValue)
                else Entry(name, value))
    ensures ReadLine(line) == Entry(name, value) <==>
              && Assigns(line, name, value) && '\0' !in value
              && name != "" && !('0' <= name[0] <= '9')
              && forall i :: 0 <= i < |name| ==>
                   'a' <= name[i] <= 'z' || 'A' <= name[i] <= 'Z' || '0' <= name[i] <= '9' || name[i] == '_'
    ensures '=' in line && !IsComment(line) ==> exists n, v :: Assigns(line, n, v)
  {
    hide ReadLine, Assigns, IsComment;
    IgnoredExactly(line);
    if '=' in line && ReadLine(line) != Ignored {
      var n, v := SeparatedLinesAssign(line);
      AssignmentsRead(line, n, v);
    }
    if Assigns(line, name, value) {
      AssignmentsRead(line, name, value);
    }
  }

  lemma IgnoredExactly(line: string)
    ensures ReadLine(line) == Ignored <==> IsBlank(line) || IsComment(line)
    ensures ReadLine(line) == Faulty(MissingSeparator) <==> ReadLine(line) != Ignored && '=' !in line
    ensures '=' in line ==> !IsBlank(line)
  {
    hide Trim, IsVariableName;
    var front, back := TrimRemovesBlanks(line);
    TrimErasesExactlyBlankText(line);
    var text := Trim(line);
    if text != "" && text[0] == '#' {
      assert line == front + "#" + (text[1..] + back);
    }
    if IsComment(line) {
      var before, rest :| IsBlank(before) && line == before + "#" + rest;
      assert line == before + ("#" + rest);
      FirstSignificant(before, "#" + rest);
    }
    assert '=' in line <==> '=' in text;
  }

  // Trimming starts at the first character that is not blank.
  lemma FirstSignificant(before: string, rest: string)
    requires IsBlank(before) && rest != "" && !IsWhitespace(rest[0])
    ensures Trim(before + rest) != "" && Trim(before + rest)[0] == rest[0]
  {
    TrimStartSkipsBlanks(before, rest);
    TrimEndKeepsText(rest);
  }

  lemma TrimIgnoresPadding(front: string, s: string, back: string)
    requires IsBlank(front) && IsBlank(back)
    ensures Trim(front + s + back) == Trim(s)
  {
    hide Trim, IsTrimmed;
    var x, y := TrimRemovesBlanks(s);
    assert front + s + back == (front + x) + Trim(s) + (y + back);
    TrimRecoversPaddedText(front + x, Trim(s), y + back);
  }

  lemma SeparatedLinesAssign(line: string) returns (name: string, value: string)
    requires '=' in line && ReadLine(line) != Ignored
    ensures Assigns(line, name, value)
    ensures ReadLine(line) == Entry(name, value) || ReadLine(line).Faulty?
  {
    hide Trim, SplitOnce, IsVariableName, IsTrimmed, IsBlank, IsLaidOut, IsComment;
    IgnoredExactly(line);
    var front, back := TrimRemovesBlanks(line);
    var (left, right) := SplitOnce(Trim(line), '=').value;
    name, value := Trim(left), Trim(right);
    var x, y := TrimRemovesBlanks(left);
    var u, w := TrimRemovesBlanks(right);
    BlanksJoin(front, x);
    BlanksJoin(w, back);
    assert left == x + name + y && right == u + value + w;
    Regrouped(line, front, x, name, y, u, value, w, back);
    NamesStartNoComment(line, front + x, name, y + "=" + (u + value + (w + back)));
    assert IsLaidOut(line, front + x, name, y, u, value, w + back) by {
      assert '=' !in x + name + y;
      LaidOut(line, front + x, name, y, u, value, w + back);
    }
  }

  lemma LaidOut(line: string, before: string, name: string, after: string, lead: string, value: string, trail: string)
    requires line == before + name + after + "=" + (lead + value + trail)
    requires IsBlank(before) && IsBlank(after) && IsBlank(lead) && IsBlank(trail) && IsTrimmed(name) && IsTrimmed(value)
    requires forall i :: 0 <= i < |name| ==> name[i] != '='
    requires name != "" ==> name[0] != '#'
    ensures IsLaidOut(line, before, name, after, lead, value, trail)
  {
  }

  lemma NamesStartNoComment(line: string, before: string, name: string, rest: string)
    requires line == before + name + rest && IsBlank(before) && !IsComment(line)
    ensures name != "" ==> name[0] != '#'
  {
    if name != "" && name[0] == '#' {
      HashesStartComments(line, before, name[1..] + rest);
    }
  }

  lemma HashesStartComments(line: string, before: string, rest: string)
    requires line == before + "#" + rest && IsBlank(before)
    ensures IsComment(line)
  {
  }

  lemma BlanksJoin(front: string, back: string)
    requires IsBlank(front) && IsBlank(back)
    ensures IsBlank(front + back)
  {
  }

  lemma Regrouped(
    line: string, front: string, x: string, name: string, y: string, u: string, value: string, w: string, back: string)
    requires line == front + ((x + name + y) + ['='] + (u + value + w)) + back
    ensures line == (front + x) + name + y + "=" + (u + value + (w + back))
    ensures line == (front + x) + name + (y + "=" + (u + value + (w + back)))
  {
  }

  lemma AssignmentsRead(line: string, name: string, value: string)
    requires Assigns(line, name, value)
    ensures ReadLine(line) == (
              if name == "" then Faulty(EmptyName)
              else if !IsVariableName(name) then Faulty(InvalidName(name))
              else if '\0' in value then Faulty(NulInValue)
              else Entry(name, value))
  {
    hide Trim, SplitOnce, IsVariableName, IsTrimmed;
    var before, after, lead, trail :| IsLaidOut(line, before, name, after, lead, value, trail);
    var head, rest := before + name + after, lead + value + trail;
    assert line == head + ['='] + rest;
    var front, back := TrimRemovesBlanks(line);
    var text := Trim(line);
    assert '=' in line;
    assert '=' in text;
    var (left, right) := SplitOnce(text, '=').value;
    CutsAgree(line, head, rest, front, left, right, back);
    TrimRecoversPaddedText(before, name, after);
    TrimRecoversPaddedText(lead, value, trail);
    TrimIgnoresPadding(front, left, "");
    TrimIgnoresPadding("", right, back);
    assert head == front + left + "" && rest == "" + right + back;
    if left != "" && !IsWhitespace(left[0]) {
      FirstSignificant("", left);
      assert "" + left == left;
    }
    assert text == left + ['='] + right;
    assert text[0] == if left == "" then '=' else left[0];
    TrimFixesExactlyTrimmedText(line);
    assert IsTrimmed(text) ==> !IsWhitespace(text[0]) by { TrimmedTextStartsClean(text); }
  }

  lemma TrimmedTextStartsClean(text: string)
    requires text != ""
    ensures IsTrimmed(text) ==> !IsWhitespace(text[0])
  {
  }

  // Both ways of cutting a line at its first separator find the same place.
  lemma CutsAgree(line: string, head: string, rest: string, front: string, left: string, right: string, back: string)
    requires line == head + ['='] + rest && line == front + (left + ['='] + right) + back
    requires '=' !in head && '=' !in left && IsBlank(front)
    ensures head == front + left && rest == right + back
  {
    assert line == (front + left) + ['='] + (right + back);
    CutIsUnique(head, rest, front + left, right + back, '=');
  }

  // ---- printing and parsing again ----

  function PrintLine(entry: Variable): string { entry.0 + "=" + entry.1 }

  function Print(entries: seq<Variable>): string {
    if entries == [] then "" else PrintLine(entries[0]) + ['\n'] + Print(entries[1..])
  }

  function PrintedLines(entries: seq<Variable>): seq<string> {
    seq(|entries|, i requires 0 <= i < |entries| => PrintLine(entries[i]))
  }

  predicate IsPrintable(entry: Variable) {
    IsVariableName(entry.0) && IsTrimmed(entry.1) && '\n' !in entry.1 && '\0' !in entry.1
  }

  lemma NamesAreTrimmed(name: string)
    requires IsVariableName(name)
    ensures Trim(name) == name && '=' !in name && '\n' !in name
  {
    hide Trim;
    TrimFixesExactlyTrimmedText(name);
  }

  lemma PrintedLineReadsBack(entry: Variable)
    requires IsPrintable(entry)
    ensures ReadLine(PrintLine(entry)) == Entry(entry.0, entry.1)
  {
    hide Trim, SplitOnce;
    var line := PrintLine(entry);
    NamesAreTrimmed(entry.0);
    TrimFixesExactlyTrimmedText(entry.1);
    assert line == entry.0 + ['='] + entry.1;
    assert line[0] == entry.0[0];
    assert line[|line| - 1] == if entry.1 == "" then '=' else entry.1[|entry.1| - 1];
    TrimFixesExactlyTrimmedText(line);
    SplitOnceAtCut(entry.0, entry.1, '=');
  }

  lemma {:induction false} PrintingSplitsIntoLines(entries: seq<Variable>)
    requires forall i :: 0 <= i < |entries| ==> IsPrintable(entries[i])
    ensures Lines(Print(entries)) == PrintedLines(entries) + [""]
    decreases |entries|
  {
    hide IsVariableName, IsTrimmed, SplitOnce;
    if entries == [] {
      assert '\n' !in "";
      assert SplitOnce("", '\n').None?;
    } else {
      var line, rest := PrintLine(entries[0]), Print(entries[1..]);
      NamesAreTrimmed(entries[0].0);
      assert '\n' !in line;
      SplitOnceAtCut(line, rest, '\n');
      PrintingSplitsIntoLines(entries[1..]);
      assert PrintedLines(entries) == [line] + PrintedLines(entries[1..]);
    }
  }

  lemma {:induction false} PrintedEntries(entries: seq<Variable>)
    requires forall i :: 0 <= i < |entries| ==> IsPrintable(entries[i])
    ensures Entries(PrintedLines(entries)) == entries
    decreases |entries|
  {
    hide IsPrintable, ReadLine, PrintLine;
    if entries != [] {
      var n := |entries| - 1;
      PrintedEntries(entries[..n]);
      assert PrintedLines(entries)[..n] == PrintedLines(entries[..n]);
      PrintedLineReadsBack(entries[n]);
      assert entries == entries[..n] + [entries[n]];
    }
  }

  // Printing any list of distinct valid names with clean values and parsing it returns the list.
  lemma PrintThenParse(entries: seq<Variable>)
    requires forall i :: 0 <= i < |entries| ==> IsPrintable(entries[i])
    requires forall i, j :: 0 <= i < j < |entries| ==> entries[i].0 != entries[j].0
    ensures Answers(Ok(entries), Lines(Print(entries)))
  {
    hide IsPrintable, ReadLine, PrintLine, Lines, Print;
    var printed := PrintedLines(entries);
    var lines := printed + [""];
    PrintingSplitsIntoLines(entries);
    PrintedEntries(entries);
    EmptyLineIsIgnored();
    assert lines[..|printed|] == printed;
    EntriesStep(lines, |printed|);
    assert lines[..|lines|] == lines;
    forall n | 0 <= n < |lines|
      ensures !Offends(lines, n)
    {
      if n < |printed| {
        PrintedLineReadsBack(entries[n]);
        forall m | 0 <= m < n
          ensures !Defines(lines[m], entries[n].0)
        {
          PrintedLineReadsBack(entries[m]);
        }
      }
    }
  }

  lemma EmptyLineIsIgnored()
    ensures ReadLine("") == Ignored
  {
  }
}
