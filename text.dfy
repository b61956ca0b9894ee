/** The Python string operations the views rely on: `str.strip()`, `str.splitlines()` and the
    case-insensitive containment test behind Django's `icontains` lookup. */
module Text {

  /** Python's `str.isspace()` on one character: the characters `str.strip()` removes. */
  predicate IsSpace(c: char)
  {
    c == ' ' || ('\t' <= c <= '\r') || ('\U{1C}' <= c <= '\U{1F}') || c == '\U{85}' || c == '\U{A0}'
    || c == '\U{1680}' || ('\U{2000}' <= c <= '\U{200A}') || c == '\U{2028}' || c == '\U{2029}'
    || c == '\U{202F}' || c == '\U{205F}' || c == '\U{3000}'
  }

  /** The characters at which `str.splitlines()` ends a line (a "\r\n" pair counts as one break). */
  predicate IsLineBreak(c: char)
  {
    ('\n' <= c <= '\r') || ('\U{1C}' <= c <= '\U{1E}') || c == '\U{85}' || c == '\U{2028}' || c == '\U{2029}'
  }

  // ---------------------------------------------------------------- strip

  /** `s` with its leading whitespace removed. */
  function TrimStart(s: string): string
    decreases |s|
  {
    if s != [] && IsSpace(s[0]) then TrimStart(s[1..]) else s
  }

  /** `s` with its trailing whitespace removed. */
  function TrimEnd(s: string): string
    decreases |s|
  {
    if s != [] && IsSpace(s[|s| - 1]) then TrimEnd(s[..|s| - 1]) else s
  }

  /** Trimming the front leaves a suffix of `s`, drops only whitespace, and stops at the first
      character that is not whitespace. */
  lemma {:induction false} TrimStartSpec(s: string)
    ensures var r := TrimStart(s);
            && |r| <= |s| && r == s[|s| - |r|..]
            && (forall k :: 0 <= k < |s| - |r| ==> IsSpace(s[k]))
            && (r != [] ==> !IsSpace(r[0]))
    decreases |s|
  {
    if s != [] && IsSpace(s[0]) {
      TrimStartSpec(s[1..]);
      var r := TrimStart(s[1..]);
      assert s[1..][|s| - 1 - |r|..] == s[|s| - |r|..];
      forall k | 0 <= k < |s| - |r| ensures IsSpace(s[k]) {
        if k > 0 { assert s[k] == s[1..][k - 1]; }
      }
    }
  }

  /** Trimming the back leaves a prefix of `s`, drops only whitespace, and stops at the last
      character that is not whitespace. */
  lemma {:induction false} TrimEndSpec(s: string)
    ensures var r := TrimEnd(s);
            && |r| <= |s| && r == s[..|r|]
            && (forall k :: |r| <= k < |s| ==> IsSpace(s[k]))
            && (r != [] ==> !IsSpace(r[|r| - 1]))
    decreases |s|
  {
    if s != [] && IsSpace(s[|s| - 1]) {
      TrimEndSpec(s[..|s| - 1]);
      var r := TrimEnd(s[..|s| - 1]);
      assert s[..|s| - 1][..|r|] == s[..|r|];
      forall k | |r| <= k < |s| ensures IsSpace(s[k]) {
        if k < |s| - 1 { assert s[k] == s[..|s| - 1][k]; }
      }
    }
  }

  /** The middle slice of `s` left after removing whitespace from both ends. */
  predicate IsStripOf(r: string, s: string, i: nat)
  {
    i + |r| <= |s| && r == s[i..i + |r|]
    && (forall k :: 0 <= k < i ==> IsSpace(s[k]))
    && (forall k :: i + |r| <= k < |s| ==> IsSpace(s[k]))
    && (r != [] ==> !IsSpace(r[0]) && !IsSpace(r[|r| - 1]))
  }

  /** Python's `s.strip()`. */
  function Strip(s: string): string
  {
    TrimEnd(TrimStart(s))
  }

  /** The stripped string is a slice of `s` that neither starts nor ends with whitespace and
      outside of which `s` holds only whitespace; it is empty exactly when `s` is blank. */
  lemma StripSpec(s: string)
    ensures exists i: nat :: IsStripOf(Strip(s), s, i)
    ensures Strip(s) == [] <==> forall k :: 0 <= k < |s| ==> IsSpace(s[k])
  {
    var t := TrimStart(s);
    var r := TrimEnd(t);
    TrimStartSpec(s);
    TrimEndSpec(t);
    assert r == Strip(s);
    assert IsStripOf(r, s, |s| - |t|) by {
      assert r == t[..|r|];
      forall k | |s| - |t| + |r| <= k < |s| ensures IsSpace(s[k]) {
        assert s[k] == t[k - (|s| - |t|)];
      }
    }
  }

  /** Stripping is idempotent: a stripped IMEI is its own strip. */
  lemma {:induction false} StripIdempotent(s: string)
    ensures Strip(Strip(s)) == Strip(s)
  {
    var r := Strip(s);
    StripSpec(s);
    var i: nat :| IsStripOf(r, s, i);
    StripOfTrimmed(r);
  }

  /** A string with no whitespace at either end strips to itself. */
  lemma {:induction false} StripOfTrimmed(r: string)
    requires r != [] ==> !IsSpace(r[0]) && !IsSpace(r[|r| - 1])
    ensures Strip(r) == r
  {
    var t := Strip(r);
    StripSpec(r);
    var i: nat :| IsStripOf(t, r, i);
    if r != [] {
      assert !IsSpace(r[0]) && !IsSpace(r[|r| - 1]);
      assert i == 0 && i + |t| == |r|;
      assert t == r[0..|r|];
    }
  }

  // ---------------------------------------------------------------- splitlines

  /** The index of the first line break in `s`, or `|s|` when there is none. */
  function LineEnd(s: string): (i: nat)
    ensures i <= |s|
    ensures i < |s| ==> IsLineBreak(s[i])
    ensures forall k :: 0 <= k < i ==> !IsLineBreak(s[k])
    decreases |s|
  {
    if s == [] || IsLineBreak(s[0]) then 0 else 1 + LineEnd(s[1..])
  }

  /** Python's `s.splitlines()`: the lines of `s` without their line breaks; a final line
      break does not start an empty last line, and "\r\n" ends a single line. */
  function SplitLines(s: string): (lines: seq<string>)
    ensures s == [] <==> lines == []
    decreases |s|
  {
    if s == [] then []
    else
      var i := LineEnd(s);
      [s[..i]] + SplitLines(s[NextLine(s, i)..])
  }

  /** Where the line after the one ending at `i` starts: past the break, or past both
      characters of a "\r\n" pair. */
  function NextLine(s: string, i: nat): (next: nat)
    requires i <= |s|
    ensures i < next <= |s| || next == i == |s|
  {
    if i == |s| then |s|
    else if s[i] == '\r' && i + 1 < |s| && s[i + 1] == '\n' then i + 2
    else i + 1
  }

  /** `line` holds no line break. */
  predicate NoBreaks(line: string)
  {
    forall k :: 0 <= k < |line| ==> !IsLineBreak(line[k])
  }

  /** No line holds a line break. */
  lemma {:induction false} SplitLinesNoBreaks(s: string)
    ensures forall line :: line in SplitLines(s) ==> NoBreaks(line)
    decreases |s|
  {
    if s != [] {
      var i := LineEnd(s);
      var rest := SplitLines(s[NextLine(s, i)..]);
      SplitLinesNoBreaks(s[NextLine(s, i)..]);
      assert SplitLines(s) == [s[..i]] + rest;
      assert NoBreaks(s[..i]) by {
        assert forall k :: 0 <= k < i ==> s[..i][k] == s[k];
      }
    }
  }

  /** The lines written one after another, each followed by "\n". */
  function JoinLines(lines: seq<string>): string
    decreases |lines|
  {
    if lines == [] then [] else lines[0] + "\n" + JoinLines(lines[1..])
  }

  /** A line without breaks followed by "\n" is the first line, and the rest is split on. */
  lemma SplitFirstLine(l: string, rest: string)
    requires NoBreaks(l)
    ensures SplitLines(l + "\n" + rest) == [l] + SplitLines(rest)
  {
    var s := l + "\n" + rest;
    assert s[|l|] == '\n';
    assert forall k :: 0 <= k < |l| ==> s[k] == l[k];
    assert LineEnd(s) == |l|;
    assert s[..|l|] == l;
    assert s[|l| + 1..] == rest;
  }

  /** `splitlines` undoes writing lines one per line. */
  lemma {:induction false} SplitJoinLines(lines: seq<string>)
    requires forall line :: line in lines ==> NoBreaks(line)
    ensures SplitLines(JoinLines(lines)) == lines
    decreases |lines|
  {
    if lines != [] {
      var l, tail := lines[0], lines[1..];
      assert l in lines;
      assert JoinLines(lines) == l + "\n" + JoinLines(tail);
      SplitFirstLine(l, JoinLines(tail));
      assert forall line :: line in tail ==> line in lines;
      SplitJoinLines(tail);
      assert lines == [l] + tail;
    }
  }

  // ---------------------------------------------------------------- case-insensitive search

  /** ASCII lower-casing of one character. */
  function LowerChar(c: char): char
  {
    if 'A' <= c <= 'Z' then (c as int + 32) as char else c
  }

  /** ASCII lower-casing of a string. */
  function Lower(s: string): (r: string)
    ensures |r| == |s| && forall k :: 0 <= k < |s| ==> r[k] == LowerChar(s[k])
  {
    seq(|s|, k requires 0 <= k < |s| => LowerChar(s[k]))
  }

  /** `needle` occurs in `hay` starting at index `i`. */
  predicate OccursAt(hay: string, needle: string, i: nat)
  {
    i + |needle| <= |hay| && hay[i..i + |needle|] == needle
  }

  /** A left-to-right search for `needle` in `hay`. */
  function Contains(hay: string, needle: string): bool
    decreases |hay|
  {
    if |needle| > |hay| then false
    else if hay[..|needle|] == needle then true
    else Contains(hay[1..], needle)
  }

  /** The search finds `needle` exactly when it occurs somewhere in `hay`. */
  lemma {:induction false} ContainsIff(hay: string, needle: string)
    ensures Contains(hay, needle) <==> exists i: nat :: OccursAt(hay, needle, i)
    decreases |hay|
  {
    if |needle| > |hay| {
    } else if hay[..|needle|] == needle {
      assert OccursAt(hay, needle, 0);
    } else {
      ContainsIff(hay[1..], needle);
      if Contains(hay[1..], needle) {
        var i: nat :| OccursAt(hay[1..], needle, i);
        assert hay[1..][i..i + |needle|] == hay[i + 1..i + 1 + |needle|];
        assert OccursAt(hay, needle, i + 1);
      } else {
        forall i: nat | OccursAt(hay, needle, i) ensures false {
          assert i != 0;
          assert hay[1..][i - 1..i - 1 + |needle|] == hay[i..i + |needle|];
          assert OccursAt(hay[1..], needle, i - 1);
        }
      }
    }
  }

  /** Django's `field__icontains=query`, with ASCII case folding. */
  function IContains(field: string, query: string): bool
  {
    Contains(Lower(field), Lower(query))
  }

  /** `icontains` holds exactly when the lower-cased query occurs in the lower-cased field. */
  lemma IContainsIff(field: string, query: string)
    ensures IContains(field, query) <==> exists i: nat :: OccursAt(Lower(field), Lower(query), i)
  {
    ContainsIff(Lower(field), Lower(query));
  }
}
