/**
 * Output finalisation of the front controller: the captured controller
 * output has every `{elapsed_time}` placeholder replaced by the total
 * execution time (PHP's `str_replace` with one search string), and the
 * debug toolbar is appended outside production.
 */
module Output {

  /** The placeholder a view writes where the total execution time belongs. */
  const ElapsedTag: string := "{elapsed_time}"

  /** `pat` starts at position `i` of `s`. */
  predicate OccursAt(s: string, pat: string, i: int)
  {
    0 <= i && i + |pat| <= |s| && s[i..i + |pat|] == pat
  }

  /** `pat` occurs somewhere in `s`. */
  ghost predicate Occurs(s: string, pat: string)
  {
    exists i :: OccursAt(s, pat, i)
  }

  /** No character of `a` is a character of `b`. */
  predicate Disjoint(a: string, b: string)
  {
    forall i, j | 0 <= i < |a| && 0 <= j < |b| :: a[i] != b[j]
  }

  /**
   * The timer's elapsed time as `number_format` writes it: a non-empty run
   * of decimal digits, points and the `,` thousands separator.
   */
  predicate IsDecimal(t: string)
  {
    |t| > 0 && forall i | 0 <= i < |t| :: '0' <= t[i] <= '9' || t[i] == '.' || t[i] == ','
  }

  /**
   * `str_replace(pat, rep, s)`: scans left to right and replaces each
   * occurrence of `pat` that does not overlap an earlier replaced one.
   */
  function ReplaceAll(s: string, pat: string, rep: string): (r: string)
    requires pat != []
    ensures rep == pat ==> r == s
    decreases |s|
  {
    if |s| < |pat| then s
    else if s[..|pat|] == pat then rep + ReplaceAll(s[|pat|..], pat, rep)
    else [s[0]] + ReplaceAll(s[1..], pat, rep)
  }

  /** An occurrence in a suffix of `s` is an occurrence in `s`. */
  lemma NoOccurrenceInSuffix(s: string, pat: string, k: nat)
    requires k <= |s|
    ensures Occurs(s[k..], pat) ==> Occurs(s, pat)
  {
    if Occurs(s[k..], pat) {
      var i :| OccursAt(s[k..], pat, i);
      assert s[k..][i..i + |pat|] == s[k + i..k + i + |pat|];
      assert OccursAt(s, pat, k + i);
    }
  }

  /** A text with no earlier occurrence does not start with `pat` when something precedes the occurrence. */
  lemma HeadBeforeOccurrence(a: string, pat: string, b: string)
    requires pat != [] && a != []
    requires !Occurs(a + pat[..|pat| - 1], pat)
    ensures (a + pat + b)[..|pat|] != pat
  {
    var p' := pat[..|pat| - 1];
    if (a + pat + b)[..|pat|] == pat {
      assert (a + p')[..|pat|] == (a + pat + b)[..|pat|];
      assert OccursAt(a + p', pat, 0);
    }
  }

  /** Dropping the first character keeps the absence of an earlier occurrence. */
  lemma NoEarlierOccurrenceInTail(a: string, pat: string)
    requires pat != [] && a != []
    requires !Occurs(a + pat[..|pat| - 1], pat)
    ensures !Occurs(a[1..] + pat[..|pat| - 1], pat)
  {
    var p' := pat[..|pat| - 1];
    assert (a + p')[1..] == a[1..] + p';
    NoOccurrenceInSuffix(a + p', pat, 1);
  }

  /** A text that does not start with `pat` keeps its first character and scans on. */
  lemma KeepHead(s: string, pat: string, rep: string)
    requires pat != [] && |pat| <= |s| && s[..|pat|] != pat
    ensures ReplaceAll(s, pat, rep) == [s[0]] + ReplaceAll(s[1..], pat, rep)
  {
  }

  /** Putting the first character back in front. */
  lemma ConsBack(a: string, rest: string)
    requires a != []
    ensures [a[0]] + (a[1..] + rest) == a + rest
  {
    assert [a[0]] + a[1..] == a;
  }

  /** An occurrence at the very start is replaced and the scan goes on after it. */
  lemma ReplaceAtStart(pat: string, rep: string, b: string)
    requires pat != []
    ensures ReplaceAll(pat + b, pat, rep) == rep + ReplaceAll(b, pat, rep)
  {
    var s := pat + b;
    assert s[..|pat|] == pat && s[|pat|..] == b;
  }

  /**
   * The leftmost occurrence becomes the replacement: when `pat` first
   * occurs right after `a`, the text before it is kept, the occurrence is
   * replaced by `rep`, and the scan goes on after it.
   */
  lemma {:induction false} ReplaceFirstOccurrence(a: string, pat: string, rep: string, b: string)
    requires pat != []
    requires !Occurs(a + pat[..|pat| - 1], pat)
    ensures ReplaceAll(a + pat + b, pat, rep) == a + rep + ReplaceAll(b, pat, rep)
    decreases |a|
  {
    if a == [] {
      assert a + pat + b == pat + b;
      ReplaceAtStart(pat, rep, b);
    } else {
      var s, x := a + pat + b, ReplaceAll(b, pat, rep);
      assert ReplaceAll(s, pat, rep) == [a[0]] + ReplaceAll(a[1..] + pat + b, pat, rep) by {
        HeadBeforeOccurrence(a, pat, b);
        KeepHead(s, pat, rep);
        assert s[0] == a[0] && s[1..] == a[1..] + pat + b;
      }
      assert ReplaceAll(a[1..] + pat + b, pat, rep) == a[1..] + (rep + x) by {
        NoEarlierOccurrenceInTail(a, pat);
        ReplaceFirstOccurrence(a[1..], pat, rep, b);
        assert a[1..] + rep + x == a[1..] + (rep + x);
      }
      ConsBack(a, rep + x);
      assert a + rep + x == a + (rep + x);
    }
  }

  /** A text in which `pat` does not occur is left as it is. */
  lemma {:induction false} ReplaceWithoutOccurrence(s: string, pat: string, rep: string)
    requires pat != []
    ensures !Occurs(s, pat) ==> ReplaceAll(s, pat, rep) == s
    decreases |s|
  {
    if !Occurs(s, pat) && |pat| <= |s| {
      assert s[..|pat|] != pat by {
        if s[..|pat|] == pat {
          assert OccursAt(s, pat, 0);
        }
      }
      NoOccurrenceInSuffix(s, pat, 1);
      ReplaceWithoutOccurrence(s[1..], pat, rep);
      assert s == [s[0]] + s[1..];
    }
  }

  /**
   * While the replaced text shows none of the characters of `rep`, the
   * replacement has not touched it: it is a prefix of the input.
   */
  lemma {:induction false} UntouchedPrefix(t: string, pat: string, rep: string, n: nat)
    requires pat != [] && rep != []
    ensures var r := ReplaceAll(t, pat, rep);
      n <= |r| && (forall k | 0 <= k < n :: r[k] !in rep) ==> n <= |t| && r[..n] == t[..n]
    decreases |t|
  {
    var r := ReplaceAll(t, pat, rep);
    if |t| < |pat| {
    } else if t[..|pat|] == pat {
      assert r[0] == rep[0];
    } else if n > 0 {
      var r' := ReplaceAll(t[1..], pat, rep);
      assert r == [t[0]] + r';
      UntouchedPrefix(t[1..], pat, rep, n - 1);
      if n <= |r| && forall k | 0 <= k < n :: r[k] !in rep {
        assert |r| == 1 + |r'|;
        forall k | 0 <= k < n - 1 ensures r'[k] !in rep {
          assert r'[k] == r[k + 1];
        }
        assert n - 1 <= |t[1..]| && r'[..n - 1] == t[1..][..n - 1];
        assert r[..n] == [t[0]] + r'[..n - 1];
        assert t[..n] == [t[0]] + t[1..][..n - 1];
      }
    }
  }

  /** An occurrence past a prefix `p` is an occurrence in what follows `p`. */
  lemma OccurrenceShifts(p: string, rest: string, pat: string, i: int)
    requires |p| <= i
    ensures OccursAt(p + rest, pat, i) ==> OccursAt(rest, pat, i - |p|)
  {
    if OccursAt(p + rest, pat, i) {
      assert rest[i - |p|..i - |p| + |pat|] == (p + rest)[i..i + |pat|];
    }
  }

  /**
   * A byte kept in front of a replaced text starts an occurrence only when
   * it starts one in front of the text before replacement: the replaced
   * text would otherwise have to show a character of `rep`.
   */
  lemma KeptHeadMatch(c: char, t: string, pat: string, rep: string)
    requires pat != [] && rep != [] && Disjoint(rep, pat)
    ensures OccursAt([c] + ReplaceAll(t, pat, rep), pat, 0) ==> OccursAt([c] + t, pat, 0)
  {
    var r' := ReplaceAll(t, pat, rep);
    var n := |pat| - 1;
    UntouchedPrefix(t, pat, rep, n);
    if OccursAt([c] + r', pat, 0) {
      forall k | 0 <= k < n ensures r'[k] !in rep {
        assert r'[k] == ([c] + r')[k + 1] == pat[k + 1];
      }
      assert ([c] + r')[..|pat|] == [c] + r'[..n];
      assert ([c] + t)[..|pat|] == [c] + t[..n];
    }
  }

  /**
   * When `s` does not start with `pat`, neither does its replacement: the
   * replaced text would have to come from `s` itself.
   */
  lemma HeadStaysUnmatched(s: string, pat: string, rep: string)
    requires pat != [] && rep != [] && Disjoint(rep, pat)
    requires |pat| <= |s| && s[..|pat|] != pat
    ensures !OccursAt(ReplaceAll(s, pat, rep), pat, 0)
  {
    assert ReplaceAll(s, pat, rep) == [s[0]] + ReplaceAll(s[1..], pat, rep);
    assert s == [s[0]] + s[1..];
    KeptHeadMatch(s[0], s[1..], pat, rep);
  }

  /**
   * Every occurrence is replaced: when the replacement is non-empty and
   * shares no character with the pattern, no occurrence of the pattern is
   * left in the result.
   */
  lemma {:induction false} NoOccurrenceRemains(s: string, pat: string, rep: string)
    requires pat != [] && rep != []
    requires Disjoint(rep, pat)
    ensures !Occurs(ReplaceAll(s, pat, rep), pat)
    decreases |s|
  {
    var r := ReplaceAll(s, pat, rep);
    if |s| < |pat| {
    } else if s[..|pat|] == pat {
      var r' := ReplaceAll(s[|pat|..], pat, rep);
      NoOccurrenceRemains(s[|pat|..], pat, rep);
      assert r == rep + r';
      forall i ensures !OccursAt(r, pat, i) {
        if 0 <= i < |rep| {
          assert r[i] == rep[i] != pat[0];
        } else if |rep| <= i {
          OccurrenceShifts(rep, r', pat, i);
        }
      }
    } else {
      var r' := ReplaceAll(s[1..], pat, rep);
      NoOccurrenceRemains(s[1..], pat, rep);
      assert r == [s[0]] + r';
      forall i ensures !OccursAt(r, pat, i) {
        if i == 0 {
          HeadStaysUnmatched(s, pat, rep);
        } else if 1 <= i {
          OccurrenceShifts([s[0]], r', pat, i);
        }
      }
    }
  }

  /** A decimal elapsed time shares no character with `{elapsed_time}`. */
  lemma DecimalAvoidsTag(t: string)
    requires IsDecimal(t)
    ensures Disjoint(t, ElapsedTag)
  {
    forall i, j | 0 <= i < |t| && 0 <= j < |ElapsedTag| ensures t[i] != ElapsedTag[j] {
      assert ElapsedTag[j] in "{elapsed_tim}";
    }
  }

  /**
   * Substituting a decimal elapsed time leaves no `{elapsed_time}` behind.
   */
  lemma ElapsedTimeSubstituted(captured: string, elapsed: string)
    ensures IsDecimal(elapsed) ==> !Occurs(ReplaceAll(captured, ElapsedTag, elapsed), ElapsedTag)
  {
    if IsDecimal(elapsed) {
      DecimalAvoidsTag(elapsed);
      NoOccurrenceRemains(captured, ElapsedTag, elapsed);
    }
  }

  /**
   * The response body built from the captured output: the placeholder
   * substituted, then the toolbar appended unless the environment is
   * production or the toolbar is disabled. The part before the toolbar is
   * the captured output when it holds no placeholder, and holds no
   * placeholder once a decimal time is substituted.
   */
  function Finalize(captured: string, elapsed: string, production: bool,
                    toolbarEnabled: bool, toolbar: string): (body: string)
    ensures var tail := if !production && toolbarEnabled then toolbar else "";
      && |body| >= |tail| && body[|body| - |tail|..] == tail
      && (!Occurs(captured, ElapsedTag) ==> body[..|body| - |tail|] == captured)
      && (IsDecimal(elapsed) ==> !Occurs(body[..|body| - |tail|], ElapsedTag))
  {
    var output := ReplaceAll(captured, ElapsedTag, elapsed);
    ElapsedTimeSubstituted(captured, elapsed);
    ReplaceWithoutOccurrence(captured, ElapsedTag, elapsed);
    var body := if !production && toolbarEnabled then output + toolbar else output;
    assert body[..|output|] == output;
    body
  }

  /**
   * Each `{elapsed_time}` becomes the elapsed time: the first placeholder
   * after `a` is replaced, `a` is kept, and the rest of the body is built
   * from what follows the placeholder.
   */
  lemma ElapsedTimeAtPlaceholder(a: string, b: string, elapsed: string, production: bool,
                                 toolbarEnabled: bool, toolbar: string)
    requires !Occurs(a + ElapsedTag[..|ElapsedTag| - 1], ElapsedTag)
    ensures Finalize(a + ElapsedTag + b, elapsed, production, toolbarEnabled, toolbar) ==
            a + elapsed + Finalize(b, elapsed, production, toolbarEnabled, toolbar)
  {
    ReplaceFirstOccurrence(a, ElapsedTag, elapsed, b);
    var rb := ReplaceAll(b, ElapsedTag, elapsed);
    assert a + elapsed + rb + toolbar == a + elapsed + (rb + toolbar);
  }
}
