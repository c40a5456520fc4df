/**
 * The Python string and list operations the services rely on, stated on
 * `seq<char>` (and, for `list.remove`, on any sequence):
 * `str.startswith`, the `in` substring test, `str.lower`, `str.strip`,
 * `str.split("\n")`, `"\n".join`, `str.replace`, slicing `s[:n]` and
 * `list.remove`.
 */
module Text {

  /** `s.startswith(p)` */
  predicate StartsWith(s: string, p: string)
  {
    |p| <= |s| && s[..|p|] == p
  }

  /** `p in s` for strings: `p` occurs somewhere in `s` as a contiguous piece. */
  predicate Contains(s: string, p: string)
    decreases |s|
  {
    StartsWith(s, p) || (s != [] && Contains(s[1..], p))
  }

  /** `str.lower` on one character; only the ASCII letters are mapped. */
  function LowerChar(c: char): char
  {
    if 'A' <= c <= 'Z' then (c as int - 'A' as int + 'a' as int) as char else c
  }

  /** `str.lower`, character by character. */
  function Lower(s: string): (r: string)
    ensures |r| == |s|
    ensures forall i :: 0 <= i < |s| ==> r[i] == LowerChar(s[i])
  {
    seq(|s|, i requires 0 <= i < |s| => LowerChar(s[i]))
  }

  /** The characters Python's `str.strip()` removes (those for which `str.isspace()` holds). */
  const Whitespace: seq<char> :=
    [' ', '\t', '\n', '\U{0B}', '\U{0C}', '\r', '\U{1C}', '\U{1D}', '\U{1E}', '\U{1F}',
     '\U{85}', '\U{A0}', '\U{1680}',
     '\U{2000}', '\U{2001}', '\U{2002}', '\U{2003}', '\U{2004}', '\U{2005}',
     '\U{2006}', '\U{2007}', '\U{2008}', '\U{2009}', '\U{200A}',
     '\U{2028}', '\U{2029}', '\U{202F}', '\U{205F}', '\U{3000}']

  predicate IsSpace(c: char)
  {
    OneOf(c, Whitespace)
  }

  /** `c` is one of `cs`, checked front to back. */
  predicate OneOf(c: char, cs: seq<char>)
  {
    cs != [] && (cs[0] == c || OneOf(c, cs[1..]))
  }

  /** Every character of `s` is whitespace (Python: `not s.strip()`). */
  predicate Blank(s: string)
  {
    forall i :: 0 <= i < |s| ==> IsSpace(s[i])
  }

  /** Number of leading whitespace characters. */
  function LeadingSpaces(s: string): (k: nat)
    ensures k <= |s|
    decreases |s|
  {
    if s != [] && IsSpace(s[0]) then 1 + LeadingSpaces(s[1..]) else 0
  }

  /** The leading run is whitespace, and the character after it is not. */
  lemma {:induction false} LeadingSpacesRun(s: string)
    ensures forall i :: 0 <= i < LeadingSpaces(s) ==> IsSpace(s[i])
    ensures LeadingSpaces(s) < |s| ==> !IsSpace(s[LeadingSpaces(s)])
    decreases |s|
  {
    if s != [] && IsSpace(s[0]) {
      LeadingSpacesRun(s[1..]);
      forall i | 1 <= i < LeadingSpaces(s) ensures IsSpace(s[i]) {
        assert s[i] == s[1..][i - 1];
      }
    }
  }

  /** Number of trailing whitespace characters. */
  function TrailingSpaces(s: string): (k: nat)
    ensures k <= |s|
    decreases |s|
  {
    if s != [] && IsSpace(s[|s| - 1]) then 1 + TrailingSpaces(s[..|s| - 1]) else 0
  }

  /** The trailing run is whitespace, and the character before it is not. */
  lemma {:induction false} TrailingSpacesRun(s: string)
    ensures forall i :: |s| - TrailingSpaces(s) <= i < |s| ==> IsSpace(s[i])
    ensures TrailingSpaces(s) < |s| ==> !IsSpace(s[|s| - 1 - TrailingSpaces(s)])
    decreases |s|
  {
    if s != [] && IsSpace(s[|s| - 1]) {
      var t := s[..|s| - 1];
      TrailingSpacesRun(t);
      assert forall i :: 0 <= i < |t| ==> t[i] == s[i];
    }
  }

  /** `s.strip()`: `s` without its leading and trailing whitespace. */
  function Strip(s: string): (r: string)
    ensures |r| <= |s|
  {
    var a := LeadingSpaces(s);
    var t := s[a..];
    t[..|t| - TrailingSpaces(t)]
  }

  /**
   * The stripped text is empty exactly when the text is blank, and
   * otherwise starts and ends with a non-whitespace character.
   */
  lemma StripEnds(s: string)
    ensures Strip(s) == [] <==> Blank(s)
    ensures Strip(s) != [] ==> !IsSpace(Strip(s)[0]) && !IsSpace(Strip(s)[|Strip(s)| - 1])
  {
    var a := LeadingSpaces(s);
    var b := TrailingSpaces(s[a..]);
    assert Strip(s) == s[a..][..|s| - a - b];
    StripEmpty(s, a, b);
  }

  /** What `Strip` cuts away is whitespace only: its result sits in `s` between a blank prefix and a blank suffix. */
  lemma StripIsInfix(s: string)
    ensures var r := Strip(s);
      exists a :: 0 <= a && a + |r| <= |s| && r == s[a..a + |r|]
                  && Blank(s[..a]) && Blank(s[a + |r|..])
  {
    var a := LeadingSpaces(s);
    var t := s[a..];
    var b := TrailingSpaces(t);
    var r := Strip(s);
    LeadingSpacesRun(s);
    TrailingSpacesRun(t);
    assert r == t[..|t| - b];
    assert r == s[a..a + |r|];
    var prefix, suffix := s[..a], s[a + |r|..];
    forall i | 0 <= i < |prefix| ensures IsSpace(prefix[i]) {
      assert prefix[i] == s[i];
    }
    forall i | 0 <= i < |suffix| ensures IsSpace(suffix[i]) {
      assert suffix[i] == t[|t| - b + i];
    }
  }

  /** A text whose trailing run is all of it is blank. */
  lemma AllTrailingIsBlank(t: string)
    ensures TrailingSpaces(t) == |t| ==> Blank(t)
  {
    TrailingSpacesRun(t);
  }

  /** The stripped piece is empty exactly for blank text, and otherwise has non-blank ends. */
  lemma StripEmpty(s: string, a: nat, b: nat)
    requires a == LeadingSpaces(s) && b == TrailingSpaces(s[a..])
    ensures var r := s[a..][..|s| - a - b];
      (r == [] <==> Blank(s)) && (r != [] ==> !IsSpace(r[0]) && !IsSpace(r[|r| - 1]))
  {
    LeadingSpacesRun(s);
    TrailingSpacesRun(s[a..]);
    var t := s[a..];
    var r := t[..|t| - b];
    if r != [] {
      assert a < |s| && b < |t|;
      assert r[0] == s[a];
      assert r[|r| - 1] == t[|t| - 1 - b];
      assert !Blank(s) by {
        assert !IsSpace(s[a]);
      }
    } else {
      AllTrailingIsBlank(t);
      assert a == |s|;
    }
  }

  /** Stripping twice is stripping once. */
  lemma StripIdempotent(s: string)
    ensures Strip(Strip(s)) == Strip(s)
  {
    var r := Strip(s);
    StripEnds(s);
    if r != [] {
      assert LeadingSpaces(r) == 0;
      assert r[0..] == r;
      assert TrailingSpaces(r) == 0;
      assert r[..|r|] == r;
    }
  }

  /** `s.split("\n")`: the pieces between newlines; never empty ("" splits to [""]). */
  function Split(s: string): (r: seq<string>)
    ensures |r| >= 1
    decreases |s|
  {
    if s == [] then [[]]
    else
      var rest := Split(s[1..]);
      if s[0] == '\n' then [[]] + rest
      else [[s[0]] + rest[0]] + rest[1..]
  }

  /** `"\n".join(lines)` */
  function Join(lines: seq<string>): string
  {
    if lines == [] then []
    else if |lines| == 1 then lines[0]
    else lines[0] + "\n" + Join(lines[1..])
  }

  /** No piece produced by `Split` contains a newline. */
  lemma {:induction false} SplitPiecesHaveNoNewline(s: string)
    ensures forall j :: 0 <= j < |Split(s)| ==> '\n' !in Split(s)[j]
    decreases |s|
  {
    if s != [] {
      SplitPiecesHaveNoNewline(s[1..]);
    }
  }

  /** Joining the pieces of a split gives back the original text. */
  lemma {:induction false} JoinSplit(s: string)
    ensures Join(Split(s)) == s
    decreases |s|
  {
    if s != [] {
      var rest := Split(s[1..]);
      JoinSplit(s[1..]);
      if s[0] == '\n' {
        assert Split(s) == [[]] + rest;
        assert ([[]] + rest)[1..] == rest;
      } else {
        var first := [s[0]] + rest[0];
        assert Split(s) == [first] + rest[1..];
        if |rest| == 1 {
          assert Join(rest) == rest[0];
        } else {
          assert Join(rest) == rest[0] + "\n" + Join(rest[1..]);
          assert ([first] + rest[1..])[1..] == rest[1..];
        }
      }
    }
  }

  /** Splitting text that starts with a newline-free prefix `a` glues `a` onto the first piece. */
  lemma {:induction false} SplitAfterPlainPrefix(a: string, t: string)
    requires '\n' !in a
    ensures Split(a + t) == [a + Split(t)[0]] + Split(t)[1..]
    decreases |a|
  {
    if a != [] {
      assert (a + t)[1..] == a[1..] + t;
      assert a[0] != '\n';
      SplitAfterPlainPrefix(a[1..], t);
      assert [a[0]] + (a[1..] + Split(t)[0]) == a + Split(t)[0];
    } else {
      assert a + t == t;
      assert a + Split(t)[0] == Split(t)[0];
      assert [Split(t)[0]] + Split(t)[1..] == Split(t);
    }
  }

  /** Splitting newline-free lines after joining them gives back the lines. */
  lemma {:induction false} SplitJoin(lines: seq<string>)
    requires |lines| >= 1
    requires forall j :: 0 <= j < |lines| ==> '\n' !in lines[j]
    ensures Split(Join(lines)) == lines
    decreases |lines|
  {
    var a := lines[0];
    if |lines| == 1 {
      SplitAfterPlainPrefix(a, []);
      assert a + [] == a;
    } else {
      var rest := lines[1..];
      SplitJoin(rest);
      var t := "\n" + Join(rest);
      assert Join(lines) == a + t;
      assert t[1..] == Join(rest);
      assert Split(t) == [[]] + rest;
      SplitAfterPlainPrefix(a, t);
      assert a + [] == a;
      assert [a] + rest == lines;
    }
  }

  /** `s[:n]` for a non-negative `n`: the first `n` characters, or all of `s` when it is shorter. */
  function Take(s: string, n: nat): (r: string)
    ensures |r| <= n && |r| <= |s|
    ensures r == s[..|r|]
    ensures |s| <= n ==> r == s
    ensures |s| > n ==> |r| == n
  {
    if |s| <= n then s else s[..n]
  }

  /** `s.replace(pat, rep)`: every occurrence of `pat`, scanning left to right without overlap, becomes `rep`. */
  function ReplaceAll(s: string, pat: string, rep: string): string
    requires pat != []
    decreases |s|
  {
    if s == [] then []
    else if StartsWith(s, pat) then rep + ReplaceAll(s[|pat|..], pat, rep)
    else [s[0]] + ReplaceAll(s[1..], pat, rep)
  }

  /** Replacing a pattern that does not occur changes nothing. */
  lemma {:induction false} ReplaceAbsent(s: string, pat: string, rep: string)
    requires pat != []
    requires !Contains(s, pat)
    ensures ReplaceAll(s, pat, rep) == s
    decreases |s|
  {
    if s != [] {
      ReplaceAbsent(s[1..], pat, rep);
      assert [s[0]] + s[1..] == s;
    }
  }

  /** Every character of a replacement's result comes from the input or from `rep`. */
  lemma {:induction false} ReplaceKeepsAlphabet(s: string, pat: string, rep: string)
    requires pat != []
    ensures forall c :: c in ReplaceAll(s, pat, rep) ==> c in s || c in rep
    decreases |s|
  {
    if s != [] {
      if StartsWith(s, pat) {
        ReplaceKeepsAlphabet(s[|pat|..], pat, rep);
        forall c | c in s[|pat|..] ensures c in s {
          var i :| 0 <= i < |s[|pat|..]| && s[|pat|..][i] == c;
          assert s[|pat| + i] == c;
        }
      } else {
        ReplaceKeepsAlphabet(s[1..], pat, rep);
        forall c | c in s[1..] ensures c in s {
          var i :| 0 <= i < |s[1..]| && s[1..][i] == c;
          assert s[1 + i] == c;
        }
      }
    }
  }

  /** Replacing a single character by text that does not hold it removes that character entirely. */
  lemma {:induction false} ReplaceCharRemovesIt(s: string, c: char, rep: string)
    requires c !in rep
    ensures c !in ReplaceAll(s, [c], rep)
    decreases |s|
  {
    if s != [] {
      ReplaceCharRemovesIt(s[1..], c, rep);
      if !StartsWith(s, [c]) {
        assert s[..1] == [s[0]];
      }
    }
  }

  /** Position of the first occurrence of `x` in `s` (`list.index`). */
  function IndexOf<T(==)>(s: seq<T>, x: T): (i: nat)
    requires x in s
    ensures i < |s| && s[i] == x && x !in s[..i]
  {
    if s[0] == x then 0
    else
      var i := 1 + IndexOf(s[1..], x);
      assert s[..i] == [s[0]] + s[1..][..i - 1];
      i
  }

  /** `list.remove(x)` without the `ValueError`: drop the first occurrence of `x`, if any. */
  function RemoveFirst<T(==)>(s: seq<T>, x: T): (r: seq<T>)
    ensures x in s ==> r == s[..IndexOf(s, x)] + s[IndexOf(s, x) + 1..]
    ensures x !in s ==> r == s
  {
    if s == [] then []
    else if s[0] == x then s[1..]
    else
      assert x in s ==> x in s[1..];
      if x in s then
        RemoveFirstStep(s, x);
        [s[0]] + RemoveFirst(s[1..], x)
      else
        [s[0]] + RemoveFirst(s[1..], x)
  }

  /** Past a first element other than `x`, dropping the first `x` keeps that element and drops the rest's first `x`. */
  lemma RemoveFirstStep<T>(s: seq<T>, x: T)
    requires s != [] && s[0] != x && x in s[1..]
    ensures var i, j := IndexOf(s, x), IndexOf(s[1..], x);
      s[..i] + s[i + 1..] == [s[0]] + (s[1..][..j] + s[1..][j + 1..])
  {
    var i, j := IndexOf(s, x), IndexOf(s[1..], x);
    assert i == 1 + j;
    var left := s[..i] + s[i + 1..];
    var right := [s[0]] + (s[1..][..j] + s[1..][j + 1..]);
    assert |left| == |right| == |s| - 1;
    forall k | 0 <= k < |left| ensures left[k] == right[k] {
      if k < i {
        assert left[k] == s[k];
        assert right[k] == s[k];
      } else {
        assert left[k] == s[k + 1];
        assert right[k] == s[k + 1];
      }
    }
  }

  /** An occurrence in the middle of a text is found by `Contains`. */
  lemma {:induction false} ContainsInfix(a: string, p: string, b: string)
    ensures Contains(a + p + b, p)
    decreases |a|
  {
    if a == [] {
      assert (a + p + b)[..|p|] == p;
    } else {
      assert (a + p + b)[1..] == a[1..] + p + b;
      ContainsInfix(a[1..], p, b);
    }
  }

  /** Lowering commutes with taking a suffix. */
  lemma LowerDrop(s: string, k: nat)
    requires k <= |s|
    ensures Lower(s)[k..] == Lower(s[k..])
  {
  }

  /** Lowering commutes with concatenation. */
  lemma LowerConcat(a: string, b: string)
    ensures Lower(a + b) == Lower(a) + Lower(b)
  {
  }

  /** An occurrence of `p` in `s` is an occurrence of `lower(p)` in `lower(s)`. */
  lemma {:induction false} ContainsLower(s: string, p: string)
    requires Contains(s, p)
    ensures Contains(Lower(s), Lower(p))
    decreases |s|
  {
    if StartsWith(s, p) {
      assert Lower(s)[..|p|] == Lower(p);
    } else {
      ContainsLower(s[1..], p);
      LowerDrop(s, 1);
    }
  }
}
