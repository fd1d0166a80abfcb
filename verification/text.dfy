/** Python string primitives used by the modelled code: whitespace, `in`, `find`, `strip`, `replace`. */
module Text {
  import opened Outcomes

  /** `str.isspace()` for one character; the same class as `\s` in a `re` pattern over `str`. */
  predicate IsSpace(c: char) {
    || ('\U{9}' <= c <= '\U{d}')
    || ('\U{1c}' <= c <= '\U{20}')
    || c == '\U{85}' || c == '\U{a0}' || c == '\U{1680}'
    || ('\U{2000}' <= c <= '\U{200a}')
    || c == '\U{2028}' || c == '\U{2029}' || c == '\U{202f}' || c == '\U{205f}' || c == '\U{3000}'
  }

  /** An ASCII decimal digit (`\d`, narrowed to ASCII). */
  predicate IsDigit(c: char) {
    '0' <= c <= '9'
  }

  /** `p` occurs in `s` starting at index `i`. */
  predicate OccursAt(s: string, i: nat, p: string) {
    i + |p| <= |s| && s[i..i + |p|] == p
  }

  /** `s.find(p, from)`: the leftmost occurrence of `p` at or after `from`. */
  function Find(s: string, p: string, from: nat): (r: Option<nat>)
    ensures r.Some? ==> from <= r.value && r.value + |p| <= |s| && OccursAt(s, r.value, p)
    ensures r.Some? ==> forall j :: from <= j < r.value ==> !OccursAt(s, j, p)
    ensures r.None? ==> forall j :: from <= j ==> !OccursAt(s, j, p)
    decreases |s| - from
  {
    if from + |p| > |s| then None
    else if OccursAt(s, from, p) then Some(from)
    else Find(s, p, from + 1)
  }

  /** Python's `p in s`. */
  predicate Contains(s: string, p: string) {
    Find(s, p, 0).Some?
  }

  /** `p in s` exactly when `p` occurs at some position of `s`. */
  lemma ContainsIffOccurs(s: string, p: string)
    ensures Contains(s, p) <==> exists i: nat :: OccursAt(s, i, p)
  {
    if Contains(s, p) {
      assert OccursAt(s, Find(s, p, 0).value, p);
    }
  }

  /** An occurrence at 0 is a prefix. */
  lemma OccursAtStart(s: string, p: string)
    ensures OccursAt(s, 0, p) <==> p <= s
  {
  }

  /** Occurrences in `s[1..]` are those of `s` shifted by one. */
  lemma OccursInTail(s: string, i: nat, p: string)
    requires |s| > 0
    ensures OccursAt(s[1..], i, p) <==> OccursAt(s, i + 1, p)
  {
    if i + 1 + |p| <= |s| {
      assert s[1..][i..i + |p|] == s[i + 1..i + 1 + |p|];
    }
  }

  lemma {:induction false} ContainsWitness(s: string, p: string, i: nat)
    requires OccursAt(s, i, p)
    ensures Contains(s, p)
  {
  }

  /** A piece of a string in which `p` does not occur contains no occurrence of `p` either. */
  lemma {:induction false} NotContainedInSlice(s: string, p: string, lo: nat, hi: nat)
    requires lo <= hi <= |s|
    requires !Contains(s, p)
    ensures !Contains(s[lo..hi], p)
  {
    var t := s[lo..hi];
    forall j: nat | j + |p| <= |t|
      ensures !OccursAt(t, j, p)
    {
      assert lo + j + |p| <= hi;
      var a, b := t[j..j + |p|], s[lo + j..lo + j + |p|];
      assert forall m :: 0 <= m < |p| ==> a[m] == b[m];
      assert a == b;
      assert !OccursAt(s, lo + j, p);
    }
  }

  /** The part of `s` before the first occurrence of `p` contains no occurrence of `p`. */
  lemma {:induction false} NotContainedBeforeFirst(s: string, p: string, k: nat)
    requires p != [] && k <= |s|
    requires Find(s, p, 0).Some? ==> k <= Find(s, p, 0).value
    ensures !Contains(s[..k], p)
  {
    var t := s[..k];
    forall j: nat | j + |p| <= |t|
      ensures !OccursAt(t, j, p)
    {
      assert t[j..j + |p|] == s[j..j + |p|];
      assert !OccursAt(s, j, p);
    }
  }

  /** Index of the first non-whitespace character of `s[lo..]` (|s| when there is none). */
  function SpanStart(s: string, lo: nat): (k: nat)
    requires lo <= |s|
    ensures lo <= k <= |s|
    ensures forall j :: lo <= j < k ==> IsSpace(s[j])
    ensures k < |s| ==> !IsSpace(s[k])
    decreases |s| - lo
  {
    if lo < |s| && IsSpace(s[lo]) then SpanStart(s, lo + 1) else lo
  }

  /** One past the last non-whitespace character of `s[lo..hi]` (lo when there is none). */
  function SpanEnd(s: string, lo: nat, hi: nat): (k: nat)
    requires lo <= hi <= |s|
    ensures lo <= k <= hi
    ensures forall j :: k <= j < hi ==> IsSpace(s[j])
    ensures k > lo ==> !IsSpace(s[k - 1])
    decreases hi - lo
  {
    if lo < hi && IsSpace(s[hi - 1]) then SpanEnd(s, lo, hi - 1) else hi
  }

  /** `s.strip()`: `s` without its leading and trailing whitespace. */
  function Strip(s: string): (r: string)
    ensures r == [] || (!IsSpace(r[0]) && !IsSpace(r[|r| - 1]))
    ensures exists lo, hi ::
              && 0 <= lo <= hi <= |s| && r == s[lo..hi]
              && (forall j :: 0 <= j < lo ==> IsSpace(s[j]))
              && (forall j :: hi <= j < |s| ==> IsSpace(s[j]))
  {
    var lo := SpanStart(s, 0);
    var hi := SpanEnd(s, lo, |s|);
    s[lo..hi]
  }

  /** `s.replace(c, "")` for a one-character `c`. */
  function Without(s: string, c: char): (r: string)
    ensures c !in r
    ensures |r| <= |s|
    ensures forall x :: x != c ==> multiset(r)[x] == multiset(s)[x]
    ensures forall k :: 0 <= k < |r| ==> r[k] in s
    decreases |s|
  {
    if s == [] then []
    else
      assert s == [s[0]] + s[1..];
      (if s[0] == c then [] else [s[0]]) + Without(s[1..], c)
  }

  /** Removing a character that does not occur changes nothing. */
  lemma {:induction false} WithoutAbsent(s: string, c: char)
    requires c !in s
    ensures Without(s, c) == s
    decreases |s|
  {
    if s != [] {
      WithoutAbsent(s[1..], c);
      assert s == [s[0]] + s[1..];
    }
  }

  /** Removal works piece by piece, so the characters that stay keep their order. */
  lemma {:induction false} WithoutAppend(a: string, b: string, c: char)
    ensures Without(a + b, c) == Without(a, c) + Without(b, c)
    decreases |a|
  {
    if a == [] {
      assert a + b == b;
    } else {
      assert (a + b)[0] == a[0] && (a + b)[1..] == a[1..] + b;
      WithoutAppend(a[1..], b, c);
    }
  }

  /** Removing a separator joins the texts on either side, in order: "10,762" becomes "10762". */
  lemma WithoutSeparator(a: string, b: string, c: char)
    requires c !in a && c !in b
    ensures Without(a + [c] + b, c) == a + b
  {
    assert Without([c], c) == [] by {
      assert [c][1..] == [];
    }
    assert Without(a + [c], c) == a by {
      WithoutAppend(a, [c], c);
      WithoutAbsent(a, c);
    }
    assert Without(b, c) == b by {
      WithoutAbsent(b, c);
    }
    WithoutAppend(a + [c], b, c);
  }

  /** An occurrence inside `s[lo..hi]` is an occurrence in `s`, shifted by `lo`. */
  lemma OccursInSlice(s: string, lo: nat, hi: nat, x: nat, p: string)
    requires lo <= hi <= |s| && lo + x + |p| <= hi
    ensures OccursAt(s[lo..hi], x, p) <==> OccursAt(s, lo + x, p)
  {
    var u, v := s[lo..hi][x..x + |p|], s[lo + x..lo + x + |p|];
    assert forall m :: 0 <= m < |p| ==> u[m] == v[m];
    assert u == v;
  }
}
