/** Small shared vocabulary: optional values, results, and the handful of
    Python string operations the adapters rely on (str.endswith, str.find,
    str.split, str.replace, str.lower). */
module Common {

  datatype Option<T> = None | Some(value: T)

  datatype Result<T, E> = Ok(value: T) | Err(error: E)

  /** Python's `s.endswith(suffix)`. */
  predicate EndsWith(s: string, suffix: string) {
    |suffix| <= |s| && s[|s| - |suffix|..] == suffix
  }

  /** `sub` occurs in `s` starting at index `i`. */
  predicate OccursAt(s: string, sub: string, i: int) {
    0 <= i && i + |sub| <= |s| && s[i..i + |sub|] == sub
  }

  /** Python's `s.find(sub)`: the first index at which `sub` occurs, or -1. */
  function Find(s: string, sub: string): (r: int)
    ensures r == -1 || OccursAt(s, sub, r)
    ensures forall i :: 0 <= i && (r == -1 || i < r) ==> !OccursAt(s, sub, i)
  {
    FindFrom(s, sub, 0)
  }

  function FindFrom(s: string, sub: string, from: nat): (r: int)
    requires from <= |s|
    ensures r == -1 || (from <= r && OccursAt(s, sub, r))
    ensures forall i :: from <= i && (r == -1 || i < r) ==> !OccursAt(s, sub, i)
    decreases |s| - from
  {
    if from + |sub| > |s| then -1
    else if s[from..from + |sub|] == sub then from
    else FindFrom(s, sub, from + 1)
  }

  /** A string that ends with `sub` contains it, so `find` succeeds. */
  lemma FindOfSuffix(s: string, sub: string)
    requires EndsWith(s, sub)
    ensures 0 <= Find(s, sub) <= |s| - |sub|
  {
    assert OccursAt(s, sub, |s| - |sub|);
  }

  /** Python's `s.split(c)[0]`: the text before the first `c`, or all of `s`. */
  function Before(s: string, c: char): (r: string)
    ensures r <= s && c !in r
    ensures |r| < |s| ==> s[|r|] == c
  {
    if s == [] || s[0] == c then [] else [s[0]] + Before(s[1..], c)
  }

  /** The text after the first `c`, if `s` contains one; `s.split(c)[1]` is
      `Before` of it, and an `IndexError` when there is none. */
  function AfterFirst(s: string, c: char): (r: Option<string>)
    ensures r.Some? <==> c in s
    ensures r.Some? ==> s == Before(s, c) + [c] + r.value
  {
    if c in s then
      var head := Before(s, c);
      assert s == head + [c] + s[|head| + 1..];
      Some(s[|head| + 1..])
    else None
  }

  /** Python's `s.replace(c, "")` for a one-character `c`: every `c` goes,
      every other character stays, in order. */
  function Without(s: string, c: char): (r: string)
    ensures c !in r
    ensures forall x :: x in r ==> x in s
    ensures multiset(r) == multiset(s)[c := 0]
  {
    if s == [] then []
    else
      assert s == [s[0]] + s[1..];
      (if s[0] == c then [] else [s[0]]) + Without(s[1..], c)
  }

  /** `replace` works piece by piece: it distributes over concatenation. */
  lemma {:induction false} WithoutConcat(s: string, t: string, c: char)
    ensures Without(s + t, c) == Without(s, c) + Without(t, c)
  {
    if s == [] {
      assert s + t == t;
    } else {
      assert (s + t)[0] == s[0] && (s + t)[1..] == s[1..] + t;
      WithoutConcat(s[1..], t, c);
    }
  }

  /** Removing a character that does not occur changes nothing. */
  lemma {:induction false} WithoutFree(s: string, c: char)
    requires c !in s
    ensures Without(s, c) == s
  {
    if s != [] {
      WithoutFree(s[1..], c);
    }
  }

  /** A string with exactly one `c` splits there: `replace` drops it and
      `split(c)[0]` is the text before it. */
  lemma SplitAtOnly(a: string, c: char, b: string)
    requires c !in a && c !in b
    ensures Without(a + [c] + b, c) == a + b
    ensures Before(a + [c] + b, c) == a
  {
    WithoutConcat(a + [c], b, c);
    WithoutConcat(a, [c], c);
    assert Without([c], c) == [] by {
      assert [c][1..] == [];
    }
    WithoutFree(a, c);
    WithoutFree(b, c);
    assert Without(a + [c], c) == a;
    BeforeOnly(a, c, b);
  }

  lemma {:induction false} BeforeOnly(a: string, c: char, b: string)
    requires c !in a
    ensures Before(a + [c] + b, c) == a
  {
    var s := a + [c] + b;
    if a == [] {
      assert s[0] == c;
    } else {
      var rest := a[1..] + [c] + b;
      assert s[0] == a[0] && s[1..] == rest;
      BeforeOnly(a[1..], c, b);
      assert a == [a[0]] + a[1..];
    }
  }

  /** For a text with exactly one `c`, `split(c)[1]` is the part after it. */
  lemma AfterOnly(a: string, c: char, b: string)
    requires c !in a && c !in b
    ensures AfterFirst(a + [c] + b, c) == Some(b)
  {
    var s := a + [c] + b;
    SplitAtOnly(a, c, b);
    assert s[|a| + 1..] == b;
  }

  function LowerChar(c: char): char {
    if 'A' <= c <= 'Z' then (c as int + 32) as char else c
  }

  /** Python's `s.lower()`, restricted to ASCII letters. */
  function Lower(s: string): (r: string)
    ensures |r| == |s|
    ensures forall i :: 0 <= i < |s| ==> r[i] == LowerChar(s[i])
  {
    if s == [] then [] else [LowerChar(s[0])] + Lower(s[1..])
  }

  /** Appending a fixed suffix is injective: distinct keys stay distinct. */
  lemma AppendInjective(a: string, b: string, suffix: string)
    requires a + suffix == b + suffix
    ensures a == b
  {
    assert |a| == |b|;
    assert a == (a + suffix)[..|a|];
    assert b == (b + suffix)[..|b|];
  }
}
