/**
 * The two string operations the service relies on: `String.prototype.includes`
 * and `String.prototype.toUpperCase` (the latter over ASCII letters only).
 */
module Text {

  /** `w` occurs in `s` starting at position `i`. */
  predicate OccursAt(s: string, w: string, i: int)
  {
    0 <= i && i + |w| <= |s| && s[i..i + |w|] == w
  }

  /** `s.includes(w)`: scans `s` from the left for an occurrence of `w`. */
  predicate Contains(s: string, w: string)
    decreases |s|
  {
    if |w| <= |s| && s[..|w|] == w then true
    else if s == [] then false
    else Contains(s[1..], w)
  }

  /** The scanning definition agrees with the positional one, in both directions. */
  lemma {:induction false} ContainsIffOccurs(s: string, w: string)
    ensures Contains(s, w) <==> exists i :: OccursAt(s, w, i)
    decreases |s|
  {
    if |w| <= |s| && s[..|w|] == w {
      assert OccursAt(s, w, 0);
    } else if s == [] {
    } else {
      ContainsIffOccurs(s[1..], w);
      if exists i :: OccursAt(s[1..], w, i) {
        var i :| OccursAt(s[1..], w, i);
        assert s[i + 1..i + 1 + |w|] == s[1..][i..i + |w|];
        assert OccursAt(s, w, i + 1);
      }
      if exists i :: OccursAt(s, w, i) {
        var i :| OccursAt(s, w, i);
        if i > 0 {
          assert s[1..][i - 1..i - 1 + |w|] == s[i..i + |w|];
          assert OccursAt(s[1..], w, i - 1);
        }
      }
    }
  }

  /** A word longer than the string cannot occur in it. */
  lemma {:induction false} NotContainsLonger(s: string, w: string)
    requires |w| > |s|
    ensures !Contains(s, w)
    decreases |s|
  {
    if s != [] {
      NotContainsLonger(s[1..], w);
    }
  }

  /** A word cannot occur where no position that could start it holds its first letter. */
  lemma {:induction false} NotContainsWithoutHead(s: string, w: string)
    requires |w| > 0
    requires forall i :: 0 <= i <= |s| - |w| ==> s[i] != w[0]
    ensures !Contains(s, w)
    decreases |s|
  {
    if |w| > |s| {
      NotContainsLonger(s, w);
    } else {
      assert s[..|w|][0] == s[0];
      assert forall i :: 0 <= i <= |s| - 1 - |w| ==> s[1..][i] == s[i + 1];
      NotContainsWithoutHead(s[1..], w);
    }
  }

  function UpperChar(c: char): (u: char)
  {
    if 'a' <= c <= 'z' then (c as int - 32) as char else c
  }

  /** `s.toUpperCase()`, restricted to ASCII: lower-case letters a-z are mapped, all else kept. */
  function Upper(s: string): (u: string)
    ensures |u| == |s|
    ensures forall i :: 0 <= i < |s| ==> u[i] == UpperChar(s[i])
  {
    seq(|s|, i requires 0 <= i < |s| => UpperChar(s[i]))
  }

  /** Upper-casing commutes with taking a slice. */
  lemma UpperSlice(s: string, i: int, j: int)
    requires 0 <= i <= j <= |s|
    ensures Upper(s[i..j]) == Upper(s)[i..j]
  {
  }

  /**
   * Upper-casing never destroys an occurrence of an upper-case word: if `w`
   * occurs in `s` and `Upper(w) == w`, then `w` occurs in `Upper(s)`.
   */
  lemma {:induction false} UpperKeepsContains(s: string, w: string)
    requires Upper(w) == w
    requires Contains(s, w)
    ensures Contains(Upper(s), w)
    decreases |s|
  {
    if |w| <= |s| && s[..|w|] == w {
      UpperSlice(s, 0, |w|);
      assert Upper(s)[..|w|] == w;
    } else {
      UpperKeepsContains(s[1..], w);
      UpperSlice(s, 1, |s|);
      assert Upper(s)[1..] == Upper(s[1..]);
    }
  }
}
