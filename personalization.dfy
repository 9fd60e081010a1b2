/**
 * Per-recipient personalization of the message body: every `{name}` in the
 * template is replaced by the recipient's name, as Python's `str.replace`
 * does it (leftmost occurrences first, non-overlapping, one pass, the
 * inserted text never rescanned).
 */
module Personalization {

  /** The placeholder the body template uses for the recipient's name. */
  const Placeholder: string := "{name}"

  /** `pat` occurs in `s` starting at index `i`. */
  predicate At(s: string, pat: string, i: nat) {
    i + |pat| <= |s| && s[i..i + |pat|] == pat
  }

  /** `pat` occurs somewhere in `s`. */
  predicate Occurs(s: string, pat: string) {
    exists i: nat :: i <= |s| && At(s, pat, i)
  }

  /** `str.replace(pat, rep)` for a non-empty `pat`. */
  function Replace(s: string, pat: string, rep: string): string
    requires pat != []
    decreases |s|
  {
    if |s| < |pat| then s
    else if s[..|pat|] == pat then rep + Replace(s[|pat|..], pat, rep)
    else [s[0]] + Replace(s[1..], pat, rep)
  }

  /** `sep.join(parts)`. */
  function Join(parts: seq<string>, sep: string): string
    decreases |parts|
  {
    if |parts| == 0 then []
    else if |parts| == 1 then parts[0]
    else parts[0] + sep + Join(parts[1..], sep)
  }

  /** No occurrence of `pat` in `p + pat` starts inside `p`: the first one is the appended `pat`. */
  predicate EndsBeforeMatch(p: string, pat: string) {
    forall i: nat :: i < |p| ==> !At(p + pat, pat, i)
  }

  /**
   * `parts` are the literal pieces of a text between successive leftmost
   * occurrences of `pat`: none of them holds an occurrence of its own.
   */
  predicate Literal(parts: seq<string>, pat: string) {
    && |parts| > 0
    && (forall j :: 0 <= j < |parts| - 1 ==> EndsBeforeMatch(parts[j], pat))
    && !Occurs(parts[|parts| - 1], pat)
  }

  /** `s.split(pat)`: the literal pieces of `s` around the leftmost occurrences of `pat`. */
  function Split(s: string, pat: string): (parts: seq<string>)
    requires pat != []
    ensures Literal(parts, pat)
    ensures Join(parts, pat) == s
    decreases |s|
  {
    if |s| < |pat| then
      assert !Occurs(s, pat) by {
        forall i: nat ensures !At(s, pat, i) { }
      }
      [s]
    else if s[..|pat|] == pat then
      var t := Split(s[|pat|..], pat);
      assert EndsBeforeMatch([], pat);
      assert s == [] + pat + Join(t, pat);
      [[]] + t
    else
      var t := Split(s[1..], pat);
      SplitExtend(s, t, pat);
      [[s[0]] + t[0]] + t[1..]
  }

  /** An occurrence after a leading character is an occurrence in the text without it. */
  lemma AtShift(c: char, q: string, pat: string, i: nat)
    ensures At([c] + q, pat, i + 1) == At(q, pat, i)
  {
    if i + |pat| <= |q| {
      assert ([c] + q)[i + 1..i + 1 + |pat|] == q[i..i + |pat|];
    }
  }

  /** A character that does not start an occurrence, put before a piece without one, gives a piece without one. */
  lemma PrependAbsent(c: char, q: string, pat: string)
    requires pat != [] && !Occurs(q, pat)
    requires |pat| <= |q| + 1 ==> ([c] + q)[..|pat|] != pat
    ensures !Occurs([c] + q, pat)
  {
    forall i: nat | i <= |[c] + q| ensures !At([c] + q, pat, i) {
      if i > 0 {
        AtShift(c, q, pat, i - 1);
      }
    }
  }

  /** A character that does not start an occurrence, put before a literal piece, gives a literal piece. */
  lemma PrependEndsBeforeMatch(c: char, q: string, pat: string)
    requires pat != [] && EndsBeforeMatch(q, pat)
    requires ([c] + q + pat)[..|pat|] != pat
    ensures EndsBeforeMatch([c] + q, pat)
  {
    var p := [c] + q;
    forall i: nat | i < |p| ensures !At(p + pat, pat, i) {
      if i == 0 {
        assert (p + pat)[0..0 + |pat|] == (p + pat)[..|pat|];
      } else {
        assert p + pat == [c] + (q + pat);
        AtShift(c, q + pat, pat, i - 1);
      }
    }
  }

  /** The literal pieces of `s[1..]` with the first character of `s` put back in front of the first piece. */
  lemma SplitExtend(s: string, t: seq<string>, pat: string)
    requires pat != [] && |pat| <= |s| && s[..|pat|] != pat
    requires Literal(t, pat) && Join(t, pat) == s[1..]
    ensures Literal([[s[0]] + t[0]] + t[1..], pat)
    ensures Join([[s[0]] + t[0]] + t[1..], pat) == s
  {
    if |t| == 1 {
      SplitExtendOne(s, t[0], pat);
      assert [[s[0]] + t[0]] + t[1..] == [s];
    } else {
      SplitExtendMany(s, t, pat);
    }
  }

  /** The case of a single piece: `s` itself holds no placeholder. */
  lemma SplitExtendOne(s: string, q: string, pat: string)
    requires pat != [] && |pat| <= |s| && s[..|pat|] != pat
    requires !Occurs(q, pat) && q == s[1..]
    ensures s == [s[0]] + q && !Occurs(s, pat)
  {
    assert s == [s[0]] + s[1..];
    PrependAbsent(s[0], q, pat);
  }

  /** The case of several pieces: the extended first piece ends before its placeholder. */
  lemma SplitExtendMany(s: string, t: seq<string>, pat: string)
    requires pat != [] && |pat| <= |s| && s[..|pat|] != pat
    requires |t| > 1 && Literal(t, pat) && Join(t, pat) == s[1..]
    ensures Literal([[s[0]] + t[0]] + t[1..], pat)
    ensures Join([[s[0]] + t[0]] + t[1..], pat) == s
  {
    var u := [[s[0]] + t[0]] + t[1..];
    assert Join(u, pat) == s by {
      SplitExtendJoin(s[0], t, pat);
      assert s == [s[0]] + s[1..];
    }
    assert EndsBeforeMatch(u[0], pat) by {
      SplitExtendJoin(s[0], t, pat);
      assert ([s[0]] + t[0] + pat)[..|pat|] == s[..|pat|];
      PrependEndsBeforeMatch(s[0], t[0], pat);
    }
    SplitExtendLiteral(u[0], t, pat);
  }

  /** Joining after extending the first piece extends the joined text. */
  lemma SplitExtendJoin(c: char, t: seq<string>, pat: string)
    requires |t| > 1
    ensures Join([[c] + t[0]] + t[1..], pat) == [c] + Join(t, pat)
    ensures Join([[c] + t[0]] + t[1..], pat) == [c] + t[0] + pat + Join(t[1..], pat)
  {
    var u := [[c] + t[0]] + t[1..];
    assert u[1..] == t[1..];
  }

  /** Replacing the first piece of a literal sequence by another literal piece keeps it literal. */
  lemma SplitExtendLiteral(p: string, t: seq<string>, pat: string)
    requires |t| > 1 && Literal(t, pat) && EndsBeforeMatch(p, pat)
    ensures Literal([p] + t[1..], pat)
  {
    var u := [p] + t[1..];
    assert u[|u| - 1] == t[|t| - 1];
    forall j | 0 <= j < |u| - 1 ensures EndsBeforeMatch(u[j], pat) {
      if j > 0 {
        assert u[j] == t[j];
      }
    }
  }

  /** A text with no placeholder comes out of `Replace` unchanged. */
  lemma {:induction false} ReplaceAbsent(s: string, pat: string, rep: string)
    requires pat != [] && !Occurs(s, pat)
    ensures Replace(s, pat, rep) == s
    decreases |s|
  {
    if |pat| <= |s| {
      assert !At(s, pat, 0);
      assert !Occurs(s[1..], pat) by {
        forall i: nat | At(s[1..], pat, i) ensures false {
          assert s[i + 1..i + 1 + |pat|] == s[1..][i..i + |pat|];
          assert At(s, pat, i + 1);
        }
      }
      ReplaceAbsent(s[1..], pat, rep);
    }
  }

  /** Dropping the first character of a literal piece leaves a literal piece. */
  lemma EndsBeforeMatchTail(p: string, pat: string)
    requires p != [] && EndsBeforeMatch(p, pat)
    ensures EndsBeforeMatch(p[1..], pat)
  {
    forall i: nat | i < |p[1..]| ensures !At(p[1..] + pat, pat, i) {
      assert (p[1..] + pat)[i..i + |pat|] == (p + pat)[i + 1..i + 1 + |pat|];
      assert !At(p + pat, pat, i + 1);
    }
  }

  /** A literal piece followed by the placeholder: the piece is copied, the placeholder replaced, and the scan resumes after it. */
  lemma {:induction false} ReplaceThrough(p: string, rest: string, pat: string, rep: string)
    requires pat != [] && EndsBeforeMatch(p, pat)
    ensures Replace(p + pat + rest, pat, rep) == p + rep + Replace(rest, pat, rep)
    decreases |p|
  {
    var s := p + pat + rest;
    if p == [] {
      assert s == pat + rest && s[..|pat|] == pat && s[|pat|..] == rest;
    } else {
      assert s[..|pat|] != pat by {
        assert s[..|pat|] == (p + pat)[0..0 + |pat|];
        assert !At(p + pat, pat, 0);
      }
      assert Replace(s, pat, rep) == [p[0]] + Replace(s[1..], pat, rep);
      assert s[1..] == p[1..] + pat + rest;
      EndsBeforeMatchTail(p, pat);
      ReplaceThrough(p[1..], rest, pat, rep);
      assert p == [p[0]] + p[1..];
    }
  }

  /** Replacing in a text made of literal pieces joined by the placeholder joins the same pieces by the replacement. */
  lemma {:induction false} ReplaceFillsSlots(parts: seq<string>, pat: string, rep: string)
    requires pat != [] && Literal(parts, pat)
    ensures Replace(Join(parts, pat), pat, rep) == Join(parts, rep)
    decreases |parts|
  {
    if |parts| == 1 {
      ReplaceAbsent(parts[0], pat, rep);
    } else {
      assert Literal(parts[1..], pat) by {
        assert parts[1..][|parts[1..]| - 1] == parts[|parts| - 1];
        assert forall j :: 0 <= j < |parts[1..]| - 1 ==> parts[1..][j] == parts[j + 1];
      }
      ReplaceThrough(parts[0], Join(parts[1..], pat), pat, rep);
      ReplaceFillsSlots(parts[1..], pat, rep);
    }
  }

  /**
   * `s.replace(pat, rep) == rep.join(s.split(pat))`: the text between
   * placeholders is kept byte for byte, and each placeholder becomes `rep`.
   */
  lemma {:induction false} ReplaceIsSplitJoin(s: string, pat: string, rep: string)
    requires pat != []
    ensures Replace(s, pat, rep) == Join(Split(s, pat), rep)
  {
    ReplaceFillsSlots(Split(s, pat), pat, rep);
  }

  /** The body sent to a recipient called `name`. */
  function Personalize(body: string, name: string): (r: string)
    ensures r == Join(Split(body, Placeholder), name)
    ensures !Occurs(body, Placeholder) ==> r == body
  {
    ReplaceIsSplitJoin(body, Placeholder, name);
    assert !Occurs(body, Placeholder) ==> Replace(body, Placeholder, name) == body by {
      if !Occurs(body, Placeholder) {
        ReplaceAbsent(body, Placeholder, name);
      }
    }
    Replace(body, Placeholder, name)
  }

  /** One pass: a name that itself contains the placeholder is inserted as it is, never expanded again. */
  lemma PersonalizeOnce(before: string, after: string, name: string)
    requires EndsBeforeMatch(before, Placeholder) && !Occurs(after, Placeholder)
    ensures Personalize(before + Placeholder + after, name) == before + name + after
  {
    ReplaceThrough(before, after, Placeholder, name);
    ReplaceAbsent(after, Placeholder, name);
  }
}
