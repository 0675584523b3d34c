/**
 The two string operations the validator's rules are built from: lower-casing
 (Python's `str.lower`, restricted here to ASCII letters) and substring search
 (Python's `needle in haystack`).
 */
module Text {

  /** Lower-cases one ASCII letter; every other character is returned unchanged. */
  function LowerChar(c: char): (r: char)
    ensures 'A' <= c <= 'Z' ==> 'a' <= r <= 'z' && r as int - c as int == 32
    ensures !('A' <= c <= 'Z') ==> r == c
  {
    if 'A' <= c <= 'Z' then (c as int + 32) as char else c
  }

  /** The string with every ASCII letter lower-cased, character by character. */
  function Lower(s: string): string {
    seq(|s|, i requires 0 <= i < |s| => LowerChar(s[i]))
  }

  /** True when `s` has no upper-case ASCII letter. */
  predicate IsLower(s: string) {
    forall i :: 0 <= i < |s| ==> !('A' <= s[i] <= 'Z')
  }

  /** Lower-casing yields a lower-case string, and a lower-case string is its own lower-case form. */
  lemma LowerIsLower(s: string)
    ensures IsLower(Lower(s))
    ensures IsLower(s) ==> Lower(s) == s
  {
  }

  /** Lowering twice is lowering once. */
  lemma LowerIdempotent(s: string)
    ensures Lower(Lower(s)) == Lower(s)
  {
    LowerIsLower(s);
    LowerIsLower(Lower(s));
  }

  /** `t` occurs in `s` starting at index `i`. */
  predicate OccursAt(s: string, t: string, i: int) {
    0 <= i && i + |t| <= |s| && s[i..i + |t|] == t
  }

  /** Substring search, as Python's `t in s`: `t` is a prefix of `s` or occurs in its tail. */
  predicate Contains(s: string, t: string)
    decreases |s|
  {
    (|t| <= |s| && s[..|t|] == t) || (s != [] && Contains(s[1..], t))
  }

  /** `Contains` agrees with the direct definition: some index of `s` starts an occurrence of `t`. */
  lemma {:induction false} ContainsIffOccurs(s: string, t: string)
    ensures Contains(s, t) <==> exists i :: OccursAt(s, t, i)
    decreases |s|
  {
    if s != [] {
      ContainsIffOccurs(s[1..], t);
      if |t| <= |s| && s[..|t|] == t {
        assert s[0..|t|] == s[..|t|];
        assert OccursAt(s, t, 0);
      }
      if Contains(s[1..], t) {
        var i :| OccursAt(s[1..], t, i);
        assert s[i + 1..i + 1 + |t|] == s[1..][i..i + |t|];
        assert OccursAt(s, t, i + 1);
      }
      if i :| OccursAt(s, t, i) {
        if i > 0 {
          assert s[1..][i - 1..i - 1 + |t|] == s[i..i + |t|];
          assert OccursAt(s[1..], t, i - 1);
        } else {
          assert s[..|t|] == s[0..|t|];
        }
      }
    } else if |t| == 0 {
      assert OccursAt(s, t, 0);
    }
  }

  /** A needle with a character that the haystack lacks does not occur in it. */
  lemma {:induction false} MissingCharNotContained(s: string, t: string, c: char)
    requires c in t && c !in s
    ensures !Contains(s, t)
    decreases |s|
  {
    if |t| <= |s| {
      var k :| 0 <= k < |t| && t[k] == c;
      assert s[..|t|][k] == s[k] && s[k] in s;
    }
    if s != [] {
      assert s == [s[0]] + s[1..];
      MissingCharNotContained(s[1..], t, c);
    }
  }

  /** Lower-casing cannot introduce a lower-case letter whose two cases are both absent. */
  lemma LowerKeepsAbsent(s: string, c: char)
    requires 'a' <= c <= 'z'
    requires c !in s && (c as int - 32) as char !in s
    ensures c !in Lower(s)
  {
    forall k | 0 <= k < |s| ensures Lower(s)[k] != c {
      assert s[k] in s;
    }
  }

  /** A needle with a lower-case letter whose two cases are both absent from `s` does not occur in `Lower(s)`. */
  lemma MissingLetterNotContained(s: string, t: string, c: char)
    requires 'a' <= c <= 'z' && c in t
    requires c !in s && (c as int - 32) as char !in s
    ensures !Contains(Lower(s), t)
  {
    LowerKeepsAbsent(s, c);
    MissingCharNotContained(Lower(s), t, c);
  }

  /** Where `u` occurs in `s`, its lower-case form occurs in the lower-case form of `s`. */
  lemma LowerKeepsOccurrence(s: string, u: string, i: int)
    requires OccursAt(s, u, i)
    ensures Contains(Lower(s), Lower(u))
  {
    forall k | 0 <= k < |u| ensures Lower(s)[i + k] == Lower(u)[k] {
      assert s[i + k] == s[i..i + |u|][k];
    }
    assert OccursAt(Lower(s), Lower(u), i);
    ContainsIffOccurs(Lower(s), Lower(u));
  }
}
