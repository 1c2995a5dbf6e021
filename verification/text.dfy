/** String operations the action relies on: Python truthiness of an optional
    string, substring search (`p in s`), `str.rstrip("/")`, ASCII lower-casing
    (`str.lower()` as far as comparison with "true" can tell) and slicing
    `s[:n]`. */
module Text {
  import opened Outcomes

  /** Python truthiness of a value that is either `None` or a `str`:
      false for `None` and for the empty string. */
  predicate Truthy(o: Option<string>) {
    o.Some? && |o.value| > 0
  }

  function Min(a: int, b: int): int {
    if a <= b then a else b
  }

  predicate StartsWith(s: string, p: string) {
    |p| <= |s| && s[..|p|] == p
  }

  /** Python's `p in s` for strings (the empty string occurs everywhere). */
  predicate Contains(s: string, p: string)
    decreases |s|
  {
    StartsWith(s, p) || (|s| > 0 && Contains(s[1..], p))
  }

  /** `p` occurs in `s` at position `i`. */
  predicate OccursAt(s: string, p: string, i: int) {
    0 <= i && i + |p| <= |s| && s[i..i + |p|] == p
  }

  /** Dropping the first character shifts every occurrence one place left. */
  lemma OccursAtTail(s: string, p: string, i: int)
    requires |s| > 0 && i > 0
    ensures OccursAt(s, p, i) <==> OccursAt(s[1..], p, i - 1)
  {
  }

  /** A position where `Contains` finds the pattern. */
  lemma {:induction false} OccurrenceOf(s: string, p: string) returns (i: int)
    requires Contains(s, p)
    ensures OccursAt(s, p, i)
    decreases |s|
  {
    if StartsWith(s, p) {
      i := 0;
    } else {
      var j := OccurrenceOf(s[1..], p);
      i := j + 1;
      OccursAtTail(s, p, i);
    }
  }

  /** An occurrence anywhere is found by `Contains`. */
  lemma {:induction false} OccurrenceFound(s: string, p: string, i: int)
    requires OccursAt(s, p, i)
    ensures Contains(s, p)
    decreases i
  {
    if i > 0 {
      OccursAtTail(s, p, i);
      OccurrenceFound(s[1..], p, i - 1);
    }
  }

  /** `Contains` is exactly "occurs at some position". */
  lemma ContainsIffOccurs(s: string, p: string)
    ensures Contains(s, p) <==> exists i :: OccursAt(s, p, i)
  {
    if Contains(s, p) {
      var i := OccurrenceOf(s, p);
    }
    if exists i :: OccursAt(s, p, i) {
      var i :| OccursAt(s, p, i);
      OccurrenceFound(s, p, i);
    }
  }

  /** A pattern cannot start where some character disagrees with it. */
  lemma MismatchBlocksStart(s: string, p: string, k: nat)
    requires k < |p| && k < |s| && s[k] != p[k]
    ensures !StartsWith(s, p)
  {
  }

  /** When no occurrence of `p` can begin inside `pre`, prefixing `pre`
      neither creates nor destroys an occurrence. */
  lemma {:induction false} ContainsSkipsPrefix(pre: string, s: string, p: string)
    requires forall i :: 0 <= i < |pre| ==> !StartsWith(pre[i..] + s, p)
    ensures Contains(pre + s, p) <==> Contains(s, p)
    decreases |pre|
  {
    if |pre| > 0 {
      assert pre[0..] == pre;
      assert (pre + s)[1..] == pre[1..] + s;
      forall i | 0 <= i < |pre[1..]|
        ensures !StartsWith(pre[1..][i..] + s, p)
      {
        assert pre[1..][i..] == pre[i + 1..];
      }
      ContainsSkipsPrefix(pre[1..], s, p);
    } else {
      assert pre + s == s;
    }
  }

  /** `p` cannot begin at position `i` of `pre`, whatever follows `pre`:
      the character there differs from the first of `p`, or the next one,
      still inside `pre`, differs from the second. */
  predicate CannotBeginAt(pre: string, p: string, i: int)
    requires 0 <= i < |pre| && |p| >= 2
  {
    pre[i] != p[0] || (i + 1 < |pre| && pre[i + 1] != p[1])
  }

  /** `CannotBeginAt` at every position of `pre` meets the requirement of
      `ContainsSkipsPrefix`. */
  lemma PrefixCannotStartPattern(pre: string, s: string, p: string)
    requires |p| >= 2
    requires forall i :: 0 <= i < |pre| ==> CannotBeginAt(pre, p, i)
    ensures forall i :: 0 <= i < |pre| ==> !StartsWith(pre[i..] + s, p)
  {
    forall i | 0 <= i < |pre|
      ensures !StartsWith(pre[i..] + s, p)
    {
      assert CannotBeginAt(pre, p, i);
      var x := pre[i..] + s;
      if pre[i] != p[0] {
        assert x[0] == pre[i];
        MismatchBlocksStart(x, p, 0);
      } else {
        assert x[1] == pre[i + 1];
        MismatchBlocksStart(x, p, 1);
      }
    }
  }

  /** A string in which the first character of a non-empty pattern never
      appears does not contain the pattern. */
  lemma {:induction false} MissingFirstCharacter(s: string, p: string)
    requires |p| > 0
    requires forall i :: 0 <= i < |s| ==> s[i] != p[0]
    ensures !Contains(s, p)
    decreases |s|
  {
    if |s| > 0 {
      MismatchBlocksStart(s, p, 0);
      MissingFirstCharacter(s[1..], p);
    } else {
      assert !StartsWith(s, p);
    }
  }

  /** Python's `s.rstrip("/")`: drops every trailing slash. */
  function StripTrailingSlashes(s: string): (r: string)
    ensures |r| <= |s| && r == s[..|r|]
    ensures |r| == 0 || r[|r| - 1] != '/'
    ensures forall i :: |r| <= i < |s| ==> s[i] == '/'
    decreases |s|
  {
    if |s| > 0 && s[|s| - 1] == '/' then StripTrailingSlashes(s[..|s| - 1]) else s
  }

  /** Stripping twice is stripping once. */
  lemma StripTrailingSlashesIdempotent(s: string)
    ensures StripTrailingSlashes(StripTrailingSlashes(s)) == StripTrailingSlashes(s)
  {
  }

  /** The stripped string is determined by its contract: the only prefix of
      `s` that does not end in '/' and is followed by nothing but slashes. */
  lemma StripTrailingSlashesUnique(s: string, t: string)
    requires |t| <= |s| && t == s[..|t|]
    requires |t| == 0 || t[|t| - 1] != '/'
    requires forall i :: |t| <= i < |s| ==> s[i] == '/'
    ensures t == StripTrailingSlashes(s)
  {
  }

  /** Python's `str.lower()` restricted to ASCII letters. */
  function LowerAscii(c: char): (d: char)
    ensures 'A' <= c <= 'Z' ==> 'a' <= d <= 'z' && d as int - c as int == 32
    ensures !('A' <= c <= 'Z') ==> d == c
  {
    if 'A' <= c <= 'Z' then (c as int + 32) as char else c
  }

  /** Python's `str.lower()` on ASCII: no upper-case letter survives, each
      one moves 32 code points to its lower-case form, and every other
      character is kept in place. */
  function Lower(s: string): (r: string)
    ensures |r| == |s|
    ensures forall i :: 0 <= i < |r| ==> !('A' <= r[i] <= 'Z')
    ensures forall i :: 0 <= i < |s| && !('A' <= s[i] <= 'Z') ==> r[i] == s[i]
    ensures forall i :: 0 <= i < |s| && 'A' <= s[i] <= 'Z' ==> r[i] as int == s[i] as int + 32
  {
    seq(|s|, i requires 0 <= i < |s| => LowerAscii(s[i]))
  }

  /** Lower-casing a lower-cased string changes nothing. */
  lemma LowerIdempotent(s: string)
    ensures Lower(Lower(s)) == Lower(s)
  {
    var r := Lower(s);
    assert forall i :: 0 <= i < |r| ==> Lower(r)[i] == r[i];
  }

  /** Python's `s[:n]` for `n >= 0`: the longest prefix of at most `n`
      characters. */
  function Clip(s: string, n: nat): (r: string)
    ensures |r| == Min(n, |s|)
    ensures r == s[..|r|]
    ensures |s| <= n ==> r == s
  {
    if |s| <= n then s else s[..n]
  }
}
