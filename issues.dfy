/**
 * Turning the analysis text into a list of issues: split on newlines,
 * strip every line, keep the lines that are not blank, in order. The
 * command-line entry points and the HTTP handlers all do this with a loop
 * that runs only when the whole text is not blank.
 */
module Issues {
  import opened Text

  /** The stripped form of every line that is not blank, in the order of the lines. */
  function StrippedNonBlank(lines: seq<string>): (r: seq<string>)
    ensures |r| <= |lines|
  {
    if lines == [] then []
    else
      var line := Strip(lines[0]);
      (if line != [] then [line] else []) + StrippedNonBlank(lines[1..])
  }

  /** Every issue is non-empty and already stripped. */
  lemma {:induction false} IssuesAreStripped(lines: seq<string>)
    ensures forall j :: 0 <= j < |StrippedNonBlank(lines)| ==>
      StrippedNonBlank(lines)[j] != [] && Strip(StrippedNonBlank(lines)[j]) == StrippedNonBlank(lines)[j]
    decreases |lines|
  {
    if lines != [] {
      IssuesAreStripped(lines[1..]);
      StripIdempotent(lines[0]);
    }
  }

  /** An issue is exactly a non-blank line's stripped form. */
  lemma {:induction false} StrippedNonBlankMembers(lines: seq<string>, x: string)
    ensures x in StrippedNonBlank(lines) <==> x != [] && exists j :: 0 <= j < |lines| && Strip(lines[j]) == x
    decreases |lines|
  {
    if lines != [] {
      StrippedNonBlankMembers(lines[1..], x);
      if x != [] && (exists j :: 0 <= j < |lines| && Strip(lines[j]) == x) {
        var j :| 0 <= j < |lines| && Strip(lines[j]) == x;
        if j > 0 { assert lines[1..][j - 1] == lines[j]; }
      }
    }
  }

  /** The issues of an analysis text. */
  function IssueLines(results: string): seq<string>
  {
    StrippedNonBlank(Split(results))
  }

  /** Processing one more line at the end adds its stripped form when it is not blank. */
  lemma {:induction false} StrippedNonBlankSnoc(lines: seq<string>, line: string)
    ensures StrippedNonBlank(lines + [line])
         == StrippedNonBlank(lines) + (if Strip(line) != [] then [Strip(line)] else [])
    decreases |lines|
  {
    if lines == [] {
      assert [] + [line] == [line];
    } else {
      var head := if Strip(lines[0]) != [] then [Strip(lines[0])] else [];
      var tail := lines[1..];
      assert (lines + [line])[1..] == tail + [line];
      StrippedNonBlankSnoc(tail, line);
      assert StrippedNonBlank(lines + [line]) == head + StrippedNonBlank(tail + [line]);
      assert StrippedNonBlank(lines) == head + StrippedNonBlank(tail);
    }
  }

  /** The loop's step: the issues of the first `i + 1` lines are those of the first `i`, then line `i`'s. */
  lemma StrippedNonBlankStep(lines: seq<string>, i: nat)
    requires i < |lines|
    ensures StrippedNonBlank(lines[..i + 1])
         == StrippedNonBlank(lines[..i]) + (if Strip(lines[i]) != [] then [Strip(lines[i])] else [])
  {
    assert lines[..i + 1] == lines[..i] + [lines[i]];
    StrippedNonBlankSnoc(lines[..i], lines[i]);
  }

  /** A text yields no issues exactly when it is blank, so the guard on the whole text changes nothing. */
  lemma {:induction false} NoIssuesIffBlank(results: string)
    ensures IssueLines(results) == [] <==> Blank(results)
    decreases |results|
  {
    if results != [] {
      var c, tail := results[0], results[1..];
      assert results == [c] + tail;
      NoIssuesIffBlank(tail);
      BlankCons(c, tail);
      var rest := Split(tail);
      if c == '\n' {
        assert Split(results) == [[]] + rest;
        NoIssuesCons([], rest);
      } else {
        var first := [c] + rest[0];
        assert Split(results) == [first] + rest[1..];
        assert rest == [rest[0]] + rest[1..];
        NoIssuesCons(first, rest[1..]);
        NoIssuesCons(rest[0], rest[1..]);
        BlankCons(c, rest[0]);
      }
    }
  }

  /** A text whose stripped form is empty yields no issues, so the guard before the loop changes nothing. */
  lemma StrippedEmptyNoIssues(results: string)
    ensures Strip(results) == [] <==> IssueLines(results) == []
  {
    StripEnds(results);
    NoIssuesIffBlank(results);
  }

  /** Lines yield no issues exactly when the first line is blank and the others yield none. */
  lemma NoIssuesCons(first: string, more: seq<string>)
    ensures StrippedNonBlank([first] + more) == [] <==> Blank(first) && StrippedNonBlank(more) == []
  {
    assert ([first] + more)[1..] == more;
    StripEnds(first);
  }

  /** A text is blank exactly when its first character is whitespace and the rest is blank. */
  lemma BlankCons(c: char, t: string)
    ensures Blank([c] + t) <==> IsSpace(c) && Blank(t)
  {
    var s := [c] + t;
    if IsSpace(c) && Blank(t) {
      forall i | 0 <= i < |s| ensures IsSpace(s[i]) {
        if i > 0 { assert s[i] == t[i - 1]; }
      }
    }
    if Blank(s) {
      assert s[0] == c;
      forall i | 0 <= i < |t| ensures IsSpace(t[i]) {
        assert s[i + 1] == t[i];
      }
    }
  }

  /**
   * The issue-extraction loop of the entry points: when the text is not
   * blank, walk its lines in order and keep the stripped form of each
   * non-blank one.
   */
  method ExtractIssues(results: string) returns (issues: seq<string>)
    ensures issues == IssueLines(results)
  {
    if Strip(results) != [] {
      var lines := Split(results);
      issues := [];
      var i := 0;
      while i < |lines|
        invariant 0 <= i <= |lines|
        invariant issues == StrippedNonBlank(lines[..i])
      {
        var line := Strip(lines[i]);
        StrippedNonBlankStep(lines, i);
        if line != [] {
          issues := issues + [line];
        }
        i := i + 1;
      }
      assert lines[..i] == lines;
    } else {
      issues := [];
      StrippedEmptyNoIssues(results);
    }
  }
}
