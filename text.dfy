/** Text primitives the extension's classifiers are built on: ASCII lower-casing
    (the model's reading of `String.prototype.toLowerCase`) and substring search
    (`String.prototype.includes`). */
module Text {

  predicate IsUpper(c: char) {
    'A' <= c <= 'Z'
  }

  /** Lower-cases one ASCII letter; every other character is left alone. */
  function LowerChar(c: char): (d: char)
    ensures !IsUpper(d)
    ensures IsUpper(c) ==> d as int == c as int + 32
    ensures !IsUpper(c) ==> d == c
  {
    if IsUpper(c) then (c as int - 'A' as int + 'a' as int) as char else c
  }

  /** `s.toLowerCase()`, restricted to ASCII letters. */
  function Lower(s: string): (r: string)
    ensures |r| == |s|
    ensures forall i :: 0 <= i < |r| ==> !IsUpper(r[i])
    ensures forall i :: 0 <= i < |s| && !IsUpper(s[i]) ==> r[i] == s[i]
    ensures forall i :: 0 <= i < |s| ==> r[i] == LowerChar(s[i])
  {
    seq(|s|, i requires 0 <= i < |s| => LowerChar(s[i]))
  }

  lemma LowerSlice(s: string, i: int, j: int)
    requires 0 <= i <= j <= |s|
    ensures Lower(s)[i..j] == Lower(s[i..j])
  {
    assert forall k :: 0 <= k < j - i ==> Lower(s)[i..j][k] == Lower(s[i..j])[k];
  }

  lemma LowerAppend(a: string, b: string)
    ensures Lower(a + b) == Lower(a) + Lower(b)
  {
    assert forall k :: 0 <= k < |a + b| ==> Lower(a + b)[k] == (Lower(a) + Lower(b))[k];
  }

  /** `p` occurs in `s` starting at index `i`. */
  predicate OccursAt(s: string, p: string, i: int) {
    0 <= i && i + |p| <= |s| && s[i..i + |p|] == p
  }

  /** Dropping the first character moves every occurrence one place to the left. */
  lemma OccursShift(s: string, p: string)
    requires |s| > 0
    ensures forall i :: 1 <= i ==> (OccursAt(s, p, i) <==> OccursAt(s[1..], p, i - 1))
    ensures forall j :: 0 <= j ==> (OccursAt(s[1..], p, j) <==> OccursAt(s, p, j + 1))
  {
    forall i | 1 <= i
      ensures OccursAt(s, p, i) <==> OccursAt(s[1..], p, i - 1)
    {
      if i + |p| <= |s| {
        assert s[1..][i - 1..i - 1 + |p|] == s[i..i + |p|];
      }
    }
  }

  /** `s.includes(p)`: `p` is a prefix of `s` or of one of its suffixes, which is
      the same as `p` occurring at some index of `s`. */
  function Contains(s: string, p: string): (b: bool)
    ensures b <==> exists i :: OccursAt(s, p, i)
    decreases |s|
  {
    if p <= s then
      assert OccursAt(s, p, 0);
      true
    else if |s| == 0 then
      false
    else
      OccursShift(s, p);
      Contains(s[1..], p)
  }

  /** A substring of a substring is a substring. */
  lemma ContainsTransitive(s: string, p: string, q: string)
    requires Contains(s, p) && Contains(p, q)
    ensures Contains(s, q)
  {
    var i :| OccursAt(s, p, i);
    var j :| OccursAt(p, q, j);
    assert forall t :: 0 <= t < |q| ==> s[i + j + t] == p[j + t] == q[t];
    assert s[i + j..i + j + |q|] == q;
    assert OccursAt(s, q, i + j);
  }

  /** Text around a match does not undo it. */
  lemma ContainsExtend(a: string, b: string, c: string, p: string)
    requires Contains(b, p)
    ensures Contains(a + b + c, p)
  {
    var i :| OccursAt(b, p, i);
    assert (a + b + c)[|a| + i..|a| + i + |p|] == b[i..i + |p|];
    assert OccursAt(a + b + c, p, |a| + i);
  }

  /** Every character of a substring is a character of the text. */
  lemma ContainsChar(s: string, p: string, k: int)
    requires Contains(s, p) && 0 <= k < |p|
    ensures p[k] in s
  {
    var i :| OccursAt(s, p, i);
    assert s[i + k] == p[k];
  }

  /** `patterns.some(p => s.includes(p))`, also the shape of a chain of `||`-ed
      `includes` calls: some pattern of the list is contained in `s`. */
  function ContainsAny(s: string, patterns: seq<string>): (b: bool)
    ensures b <==> exists k :: 0 <= k < |patterns| && Contains(s, patterns[k])
    decreases |patterns|
  {
    if |patterns| == 0 then false
    else
      assert forall k :: 1 <= k < |patterns| ==> patterns[1..][k - 1] == patterns[k];
      Contains(s, patterns[0]) || ContainsAny(s, patterns[1..])
  }

  lemma ContainsAnyMember(s: string, patterns: seq<string>, k: int)
    requires 0 <= k < |patterns| && Contains(s, patterns[k])
    ensures ContainsAny(s, patterns)
  {
  }

  /** A text lacking some character of a pattern does not contain the pattern. */
  lemma MissingCharNoMatch(s: string, p: string, c: char)
    requires c in p && c !in s
    ensures !Contains(s, p)
  {
    if Contains(s, p) {
      var k :| 0 <= k < |p| && p[k] == c;
      ContainsChar(s, p, k);
    }
  }

  /** A text that misses, for every pattern, one of its characters contains none. */
  lemma {:induction false} MissingCharsNoMatch(s: string, patterns: seq<string>, missing: seq<char>)
    requires |missing| == |patterns|
    requires forall k :: 0 <= k < |patterns| ==> missing[k] in patterns[k] && missing[k] !in s
    ensures !ContainsAny(s, patterns)
    decreases |patterns|
  {
    if |patterns| > 0 {
      MissingCharNoMatch(s, patterns[0], missing[0]);
      assert forall k :: 0 <= k < |patterns| - 1 ==> patterns[1..][k] == patterns[k + 1] && missing[1..][k] == missing[k + 1];
      MissingCharsNoMatch(s, patterns[1..], missing[1..]);
    }
  }

  /** The window of `s` at `i` is as long as `p` and lower-cases to it. */
  predicate WindowMatches(s: string, p: string, i: int) {
    0 <= i && i + |p| <= |s| && Lower(s[i..i + |p|]) == p
  }

  lemma WindowIffOccurs(s: string, p: string, i: int)
    ensures OccursAt(Lower(s), p, i) <==> WindowMatches(s, p, i)
  {
    if 0 <= i && i + |p| <= |s| {
      LowerSlice(s, i, i + |p|);
    }
  }

  /** Matching patterns after lower-casing is matching some window case-insensitively. */
  lemma ContainsAnyLowerIffWindow(s: string, patterns: seq<string>)
    ensures ContainsAny(Lower(s), patterns) <==>
      exists k, i :: 0 <= k < |patterns| && WindowMatches(s, patterns[k], i)
  {
    var l := Lower(s);
    forall k | 0 <= k < |patterns|
      ensures Contains(l, patterns[k]) <==> exists i :: WindowMatches(s, patterns[k], i)
    {
      forall i ensures OccursAt(l, patterns[k], i) <==> WindowMatches(s, patterns[k], i) {
        WindowIffOccurs(s, patterns[k], i);
      }
    }
  }

  /** Text around a chunk does not undo a case-insensitive match in it. */
  lemma ContainsAnyLowerExtends(a: string, b: string, c: string, patterns: seq<string>)
    requires ContainsAny(Lower(b), patterns)
    ensures ContainsAny(Lower(a + b + c), patterns)
  {
    var k :| 0 <= k < |patterns| && Contains(Lower(b), patterns[k]);
    LowerAppend(a + b, c);
    LowerAppend(a, b);
    ContainsExtend(Lower(a), Lower(b), Lower(c), patterns[k]);
    ContainsAnyMember(Lower(a + b + c), patterns, k);
  }
}
