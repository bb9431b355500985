/** String operations of the Rust standard library that the playlist
    rewriter relies on: prefix tests, `str::replace(pat, "")`, and
    `str::lines` together with the `\n`-terminated join the rewriter emits. */
module Text {
  import opened Wrappers

  predicate StartsWith(s: string, prefix: string)
  {
    |prefix| <= |s| && s[..|prefix|] == prefix
  }

  predicate EndsWith(s: string, suffix: string)
  {
    |suffix| <= |s| && s[|s| - |suffix|..] == suffix
  }

  /** `pat` occurs in `s` starting at index `i`. */
  predicate OccursAt(s: string, pat: string, i: int)
  {
    0 <= i && i + |pat| <= |s| && s[i..i + |pat|] == pat
  }

  ghost predicate Occurs(s: string, pat: string)
  {
    exists i :: OccursAt(s, pat, i)
  }

  /** `s.replace(pat, "")`: scanning left to right, every non-overlapping
      occurrence of `pat` is deleted; an empty pattern changes nothing. */
  function ReplaceAll(s: string, pat: string): (r: string)
    ensures |r| <= |s|
    decreases |s|
  {
    if pat == "" || s == "" then s
    else if StartsWith(s, pat) then ReplaceAll(s[|pat|..], pat)
    else [s[0]] + ReplaceAll(s[1..], pat)
  }

  lemma OccursShift(s: string, pat: string, i: int)
    requires s != ""
    ensures OccursAt(s[1..], pat, i) ==> OccursAt(s, pat, i + 1)
    ensures i > 0 && OccursAt(s, pat, i) ==> OccursAt(s[1..], pat, i - 1)
  {
    if OccursAt(s[1..], pat, i) {
      assert s[i + 1..i + 1 + |pat|] == s[1..][i..i + |pat|];
    }
    if i > 0 && OccursAt(s, pat, i) {
      assert s[1..][i - 1..i - 1 + |pat|] == s[i..i + |pat|];
    }
  }

  /** Removing a non-empty pattern leaves the text unchanged exactly when
      the pattern does not occur in it. */
  lemma {:induction false} ReplaceAllIdentityIff(s: string, pat: string)
    requires pat != ""
    ensures ReplaceAll(s, pat) == s <==> !Occurs(s, pat)
    decreases |s|
  {
    if s == "" {
    } else if StartsWith(s, pat) {
      assert OccursAt(s, pat, 0);
      assert |ReplaceAll(s[|pat|..], pat)| <= |s| - |pat|;
    } else {
      ReplaceAllIdentityIff(s[1..], pat);
      assert !OccursAt(s, pat, 0);
      if Occurs(s, pat) {
        var i :| OccursAt(s, pat, i);
        OccursShift(s, pat, i);
      }
      if Occurs(s[1..], pat) {
        var i :| OccursAt(s[1..], pat, i);
        OccursShift(s, pat, i);
      }
      assert ReplaceAll(s, pat) == [s[0]] + ReplaceAll(s[1..], pat);
      assert ([s[0]] + ReplaceAll(s[1..], pat))[1..] == ReplaceAll(s[1..], pat);
      assert s == [s[0]] + s[1..];
    }
  }

  /** A leading occurrence is deleted and the scan resumes after it. */
  lemma ReplaceAllLeading(pat: string, rest: string)
    requires pat != ""
    ensures ReplaceAll(pat + rest, pat) == ReplaceAll(rest, pat)
  {
  }

  /** A text lacking some character of the pattern passes through untouched. */
  lemma {:induction false} ReplaceAllMissingChar(s: string, pat: string, k: int)
    requires 0 <= k < |pat|
    requires pat[k] !in s
    ensures ReplaceAll(s, pat) == s
    decreases |s|
  {
    if s != "" {
      assert k < |s| ==> s[k] in s;
      assert !StartsWith(s, pat) by {
        assert |pat| <= |s| ==> s[..|pat|][k] == s[k];
      }
      assert forall c :: c in s[1..] ==> c in s;
      ReplaceAllMissingChar(s[1..], pat, k);
    }
  }

  /** Deletion is a single pass: it can assemble a new occurrence out of the
      characters around a deleted one, so the result may still contain the
      pattern. */
  lemma ReplaceAllIsSinglePass()
    ensures ReplaceAll("ffile://ile://", "file://") == "file://"
  {
    var pat, tail := "file://", "ile://";
    SinglePassPieces();
    SkipStrayChar('f', pat, tail);
    ReplaceAllMissingChar(tail, pat, 0);
  }

  /** The literal facts behind the single-pass example. */
  lemma SinglePassPieces()
    ensures "ffile://ile://" == ['f'] + "file://" + "ile://"
    ensures ['f'] + "ile://" == "file://"
    ensures !StartsWith(['f'] + "file://", "file://")
    ensures "file://"[0] !in "ile://"
  {
    assert (['f'] + "file://")[..7][1] == 'f';
    assert forall k :: 0 <= k < |"ile://"| ==> "ile://"[k] != 'f';
  }

  /** A character that does not complete the pattern is kept, and the
      occurrence right after it is deleted. */
  lemma SkipStrayChar(c: char, pat: string, tail: string)
    requires pat != "" && !StartsWith([c] + pat, pat)
    ensures ReplaceAll([c] + pat + tail, pat) == [c] + ReplaceAll(tail, pat)
  {
  }

  /** Index of the first `\n` in `s`, or `|s|` when there is none. */
  function FirstNewline(s: string): (i: nat)
    ensures i <= |s|
    ensures i < |s| ==> s[i] == '\n'
    ensures '\n' !in s[..i]
  {
    if s == "" || s[0] == '\n' then 0 else 1 + FirstNewline(s[1..])
  }

  /** Drops one trailing carriage return. */
  function StripCR(line: string): string
  {
    if |line| > 0 && line[|line| - 1] == '\r' then line[..|line| - 1] else line
  }

  /** `str::lines`: the text split after each `\n`; a `\r` just before a `\n`
      belongs to the line ending; a final line needs no terminator, and a
      terminator at the very end does not start another line. */
  function Lines(s: string): (r: seq<string>)
    ensures s == "" <==> r == []
    decreases |s|
  {
    if s == "" then []
    else
      var i := FirstNewline(s);
      if i == |s| then [s]
      else [StripCR(s[..i])] + Lines(s[i + 1..])
  }

  /** No line holds a `\n`: the text is cut at every one of them. */
  lemma {:induction false} LinesHaveNoNewline(s: string)
    ensures forall k :: 0 <= k < |Lines(s)| ==> '\n' !in Lines(s)[k]
    decreases |s|
  {
    if s != "" {
      var i := FirstNewline(s);
      if i == |s| {
        assert s[..i] == s;
      } else {
        var h, t := s[..i], s[i + 1..];
        LinesHaveNoNewline(t);
        assert '\n' !in StripCR(h) by {
          assert forall c :: c in StripCR(h) ==> c in h;
        }
        assert Lines(s) == [StripCR(h)] + Lines(t);
        assert forall k :: 1 <= k < |Lines(s)| ==> Lines(s)[k] == Lines(t)[k - 1];
      }
    }
  }

  /** Each line followed by exactly one `\n`, as the rewriter emits them. */
  function Terminated(lines: seq<string>): string
  {
    if lines == [] then "" else lines[0] + "\n" + Terminated(lines[1..])
  }

  /** Each line followed by `\r\n`, as a playlist written on Windows ends
      its lines. */
  function CrlfTerminated(lines: seq<string>): string
  {
    if lines == [] then "" else lines[0] + "\r\n" + CrlfTerminated(lines[1..])
  }

  /** `str::lines` drops the `\r` of a `\r\n` line ending: splitting
      `\r\n`-terminated lines gives back the lines, whatever `\r` they
      hold themselves. */
  lemma {:induction false} LinesOfCrlfTerminated(lines: seq<string>)
    requires forall k :: 0 <= k < |lines| ==> '\n' !in lines[k]
    ensures Lines(CrlfTerminated(lines)) == lines
    decreases |lines|
  {
    if lines != [] {
      var l := lines[0];
      var t := CrlfTerminated(lines[1..]);
      CrlfPieces(l, t);
      LinesStep(l + "\r", t);
      LinesOfCrlfTerminated(lines[1..]);
      assert lines == [l] + lines[1..];
    }
  }

  lemma CrlfPieces(l: string, t: string)
    requires '\n' !in l
    ensures l + "\r\n" + t == (l + "\r") + "\n" + t
    ensures '\n' !in l + "\r"
    ensures StripCR(l + "\r") == l
  {
    assert forall c :: c in l + "\r" ==> c in l || c == '\r';
    assert (l + "\r")[..|l|] == l;
  }

  /** A line without `\n`, then a `\n`: the first line is split off. */
  lemma LinesStep(head: string, t: string)
    requires '\n' !in head
    ensures Lines(head + "\n" + t) == [StripCR(head)] + Lines(t)
  {
    FirstNewlineOfPrefix(head, t);
    SplitAfter(head, t);
  }

  lemma SplitAfter(head: string, t: string)
    ensures (head + "\n" + t)[..|head|] == head
    ensures (head + "\n" + t)[|head| + 1..] == t
  {
  }

  /** Number of `\n` characters in `s`. */
  function NewlineCount(s: string): nat
  {
    multiset(s)['\n']
  }

  /** `str::lines` yields one line per `\n`, plus one for an unterminated tail. */
  lemma {:induction false} LineCount(s: string)
    ensures |Lines(s)| == NewlineCount(s) + (if s != "" && s[|s| - 1] != '\n' then 1 else 0)
    decreases |s|
  {
    if s != "" {
      var i := FirstNewline(s);
      if i == |s| {
        assert NewlineCount(s) == 0 && s[|s| - 1] != '\n' by {
          assert s[..i] == s;
          assert s[|s| - 1] in s;
          NoNewlineCount(s);
        }
        assert |Lines(s)| == 1;
      } else {
        var t := s[i + 1..];
        assert NewlineCount(s) == NewlineCount(t) + 1 by {
          assert s == s[..i] + "\n" + t;
          NewlineCountSplit(s[..i], t);
          NoNewlineCount(s[..i]);
        }
        assert |Lines(s)| == |Lines(t)| + 1;
        assert (s[|s| - 1] != '\n') == (t != "" && t[|t| - 1] != '\n') by {
          if t != "" {
            assert s[|s| - 1] == t[|t| - 1];
          }
        }
        LineCount(t);
      }
    }
  }

  lemma NewlineCountSplit(a: string, b: string)
    ensures NewlineCount(a + "\n" + b) == NewlineCount(a) + 1 + NewlineCount(b)
  {
    assert multiset(a + "\n" + b) == multiset(a) + multiset("\n") + multiset(b);
  }

  lemma NoNewlineCount(a: string)
    requires '\n' !in a
    ensures NewlineCount(a) == 0
  {
    assert '\n' !in multiset(a);
  }

  /** Splitting the emitted text gives back the emitted lines, provided no
      line holds a `\n` or ends in a `\r`. */
  lemma {:induction false} LinesOfTerminated(lines: seq<string>)
    requires forall k :: 0 <= k < |lines| ==> '\n' !in lines[k] && !EndsWith(lines[k], "\r")
    ensures Lines(Terminated(lines)) == lines
    decreases |lines|
  {
    if lines != [] {
      var l := lines[0];
      var t := Terminated(lines[1..]);
      assert Terminated(lines) == l + "\n" + t;
      LinesStep(l, t);
      assert StripCR(l) == l by {
        if |l| > 0 {
          assert l[|l| - 1..] == [l[|l| - 1]];
        }
      }
      LinesOfTerminated(lines[1..]);
      assert lines == [l] + lines[1..];
    }
  }

  lemma {:induction false} FirstNewlineOfPrefix(l: string, t: string)
    requires '\n' !in l
    ensures FirstNewline(l + "\n" + t) == |l|
    decreases |l|
  {
    if l != "" {
      assert (l + "\n" + t)[1..] == l[1..] + "\n" + t;
      assert l[0] in l;
      assert forall c :: c in l[1..] ==> c in l;
      FirstNewlineOfPrefix(l[1..], t);
    }
  }

  /** No `\r` of `s` stands directly before a `\n`: every line ending is a
      bare `\n`. A `\r` elsewhere in a line is kept by `str::lines`. */
  predicate NoCrBeforeNewline(s: string)
  {
    forall k :: 0 < k < |s| && s[k] == '\n' ==> s[k - 1] != '\r'
  }

  /** Terminating every line of a text that has no `\r` directly before a `\n`
      and ends with a `\n` (or is empty) reproduces the text. */
  lemma {:induction false} TerminatedOfLines(s: string)
    requires NoCrBeforeNewline(s)
    requires s == "" || s[|s| - 1] == '\n'
    ensures Terminated(Lines(s)) == s
    decreases |s|
  {
    if s != "" {
      var i := FirstNewline(s);
      assert i < |s| by {
        assert s[..|s|] == s;
        assert s[|s| - 1] in s;
      }
      var t := s[i + 1..];
      SplitFirstLine(s, i);
      if t != "" {
        assert t[|t| - 1] == s[|s| - 1];
      }
      TerminatedOfLines(t);
    }
  }

  /** A text whose first `\n`, at `i`, follows no `\r` is its first line, that
      `\n`, and the rest, with no `\r` directly before a `\n` either. */
  lemma SplitFirstLine(s: string, i: nat)
    requires NoCrBeforeNewline(s)
    requires i == FirstNewline(s) < |s|
    ensures Lines(s) == [s[..i]] + Lines(s[i + 1..])
    ensures s == s[..i] + "\n" + s[i + 1..]
    ensures NoCrBeforeNewline(s[i + 1..])
  {
    var head, t := s[..i], s[i + 1..];
    SplitAround(s, i);
    assert StripCR(head) == head by {
      if i > 0 {
        assert head[i - 1] == s[i - 1];
        assert s[i] == '\n';
      }
    }
    assert Lines(s) == [head] + Lines(t);
    NoCrBeforeNewlineSuffix(s, i + 1);
  }

  lemma NoCrBeforeNewlineSuffix(s: string, j: nat)
    requires NoCrBeforeNewline(s) && j <= |s|
    ensures NoCrBeforeNewline(s[j..])
  {
    var t := s[j..];
    forall k | 0 < k < |t| && t[k] == '\n'
      ensures t[k - 1] != '\r'
    {
      assert t[k] == s[j + k] && t[k - 1] == s[j + k - 1];
    }
  }

  lemma SplitAround(s: string, i: nat)
    requires i < |s|
    ensures s == s[..i] + [s[i]] + s[i + 1..]
  {
  }

  /** Index of the last occurrence of `c` in `s`. */
  function LastIndexOf(s: string, c: char): (r: Option<nat>)
    ensures r.None? <==> c !in s
    ensures r.Some? ==> r.value < |s| && s[r.value] == c && c !in s[r.value + 1..]
  {
    if s == "" then None
    else if s[|s| - 1] == c then Some(|s| - 1)
    else
      var r := LastIndexOf(s[..|s| - 1], c);
      assert c in s ==> c in s[..|s| - 1] by {
        if c in s {
          var j :| 0 <= j < |s| && s[j] == c;
          assert s[..|s| - 1][j] == c;
        }
      }
      if r.Some? then
        assert s[r.value + 1..] == s[..|s| - 1][r.value + 1..] + [s[|s| - 1]];
        r
      else r
  }

  /** The last `c` is the one after which no `c` follows. */
  lemma {:induction false} LastIndexOfSplit(a: string, c: char, b: string)
    requires c !in b
    ensures LastIndexOf(a + [c] + b, c) == Some(|a|)
    decreases |b|
  {
    if b != "" {
      var s, b' := a + [c] + b, b[..|b| - 1];
      assert s[|s| - 1] != c by {
        assert s[|s| - 1] == b[|b| - 1];
        assert b[|b| - 1] in b;
      }
      DropLast(a + [c], b);
      NotInPrefix(b, c, |b| - 1);
      LastIndexOfSplit(a, c, b');
    }
  }

  lemma DropLast(a: string, b: string)
    requires b != ""
    ensures (a + b)[..|a + b| - 1] == a + b[..|b| - 1]
  {
  }

  lemma NotInPrefix(s: string, c: char, i: nat)
    requires c !in s && i <= |s|
    ensures c !in s[..i]
  {
    assert forall x :: x in s[..i] ==> x in s;
  }
}
