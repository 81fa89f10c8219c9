/** Text helpers shared by the output-line classifiers: Python's `str.lower()`
    on ASCII letters, Python's substring test `sub in s`, and the colours an
    arrow animation can take. */
module Text {

  /** The colours the GUIs animate their arrows with. */
  datatype Colour = Yellow | Red | Green

  function LowerChar(c: char): char
  {
    if 'A' <= c <= 'Z' then (c as int + 32) as char else c
  }

  /** `s.lower()` for the ASCII letters; every other character is kept. */
  function Lower(s: string): string
  {
    seq(|s|, i requires 0 <= i < |s| => LowerChar(s[i]))
  }

  /** `sub` sits in `s` at position `i`. */
  predicate OccursAt(s: string, sub: string, i: int)
  {
    0 <= i && i + |sub| <= |s| && s[i..i + |sub|] == sub
  }

  /** Python's `sub in s`, scanning from the left (the empty string occurs
      in every string). */
  predicate Contains(s: string, sub: string)
    decreases |s|
  {
    |sub| <= |s| && (s[..|sub|] == sub || Contains(s[1..], sub))
  }

  /** `Contains` holds exactly when `sub` occurs at some position. */
  lemma ContainsIffOccurs(s: string, sub: string)
    ensures Contains(s, sub) <==> exists i :: OccursAt(s, sub, i)
  {
    if Contains(s, sub) {
      ContainsHasOccurrence(s, sub);
    }
    forall i | OccursAt(s, sub, i) ensures Contains(s, sub) {
      OccurrenceIsContained(s, sub, i);
    }
  }

  lemma {:induction false} ContainsHasOccurrence(s: string, sub: string)
    requires Contains(s, sub)
    ensures exists i :: OccursAt(s, sub, i)
    decreases |s|
  {
    if s[..|sub|] == sub {
      assert OccursAt(s, sub, 0);
    } else {
      ContainsHasOccurrence(s[1..], sub);
      var i :| OccursAt(s[1..], sub, i);
      assert s[i + 1..i + 1 + |sub|] == s[1..][i..i + |sub|];
      assert OccursAt(s, sub, i + 1);
    }
  }

  lemma {:induction false} OccurrenceIsContained(s: string, sub: string, i: int)
    requires OccursAt(s, sub, i)
    ensures Contains(s, sub)
    decreases i
  {
    if i > 0 {
      assert s[1..][i - 1..i - 1 + |sub|] == s[i..i + |sub|];
      OccurrenceIsContained(s[1..], sub, i - 1);
    }
  }

  /** A string put between two others is contained in the result. */
  lemma ContainsMiddle(a: string, b: string, c: string)
    ensures Contains(a + b + c, b)
  {
    assert OccursAt(a + b + c, b, |a|);
    ContainsIffOccurs(a + b + c, b);
  }

  /** A prefix free of the first character of `sub` cannot hold the start of
      an occurrence, so it can be skipped. */
  lemma {:induction false} SkipPrefixWithoutHead(a: string, b: string, sub: string)
    requires |sub| > 0 && sub[0] !in a
    ensures Contains(a + b, sub) <==> Contains(b, sub)
    decreases |a|
  {
    if a != [] {
      assert (a + b)[0] == a[0] != sub[0];
      assert (a + b)[1..] == a[1..] + b;
      SkipPrefixWithoutHead(a[1..], b, sub);
    } else {
      assert a + b == b;
    }
  }

  /** Scanning `p[i..] + d` for `sub`: positions of `p` in `i..j` that do
      not hold the first character of `sub` can be skipped. */
  lemma {:induction false} SkipChars(p: string, d: string, i: nat, j: nat, sub: string)
    requires i <= j <= |p| && |sub| > 0
    requires forall k :: i <= k < j ==> p[k] != sub[0]
    ensures Contains(p[i..] + d, sub) <==> Contains(p[j..] + d, sub)
    decreases j - i
  {
    if i < j {
      var x := p[i..] + d;
      assert x[1..] == p[i + 1..] + d;
      if |sub| <= |x| {
        assert x[..|sub|][0] == p[i];
      }
      SkipChars(p, d, i + 1, j, sub);
    }
  }

  /** Scanning `p[i..] + d` for `sub`: when character `m` of `sub` differs
      from `p[i + m]`, position `i` can be skipped. */
  lemma Mismatch(p: string, d: string, i: nat, m: nat, sub: string)
    requires i + m < |p| && m < |sub|
    requires p[i + m] != sub[m]
    ensures Contains(p[i..] + d, sub) <==> Contains(p[i + 1..] + d, sub)
  {
    var x := p[i..] + d;
    assert x[1..] == p[i + 1..] + d;
    if |sub| <= |x| {
      assert x[..|sub|][m] == p[i + m];
    }
  }

  /** A string without the first character of `sub` does not contain it. */
  lemma HeadAbsent(s: string, sub: string)
    requires |sub| > 0 && sub[0] !in s
    ensures !Contains(s, sub)
  {
    SkipPrefixWithoutHead(s, [], sub);
    assert s + [] == s;
  }

  /** A string missing any one character of `sub` does not contain it. */
  lemma CharAbsent(s: string, sub: string, k: nat)
    requires k < |sub| && sub[k] !in s
    ensures !Contains(s, sub)
  {
    ContainsIffOccurs(s, sub);
    forall i | OccursAt(s, sub, i) ensures false {
    }
  }

  /** Lowering distributes over concatenation. */
  lemma LowerAppend(a: string, b: string)
    ensures Lower(a + b) == Lower(a) + Lower(b)
  {
  }

  /** Lowering a lowered string changes nothing. */
  lemma LowerIdempotent(s: string)
    ensures Lower(Lower(s)) == Lower(s)
  {
  }
}
