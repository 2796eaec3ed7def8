/** Substrings, for stating which fragments an assembled SQL string contains. */
module Text {

  /** `t` occurs in `s` starting at index `k`. */
  ghost predicate OccursAt(s: string, t: string, k: int)
  {
    0 <= k <= |s| - |t| && s[k..k + |t|] == t
  }

  /** `t` occurs in `s` as a contiguous piece. */
  ghost predicate Contains(s: string, t: string)
  {
    exists k :: OccursAt(s, t, k)
  }

  /** `s` has the character `c` followed immediately by `d` somewhere. */
  ghost predicate HasPair(s: string, c: char, d: char)
  {
    exists i :: 0 <= i < |s| - 1 && s[i] == c && s[i + 1] == d
  }

  /** A piece appended between two others occurs in the result. */
  lemma ContainsMiddle(a: string, t: string, b: string)
    ensures Contains(a + t + b, t)
  {
    assert OccursAt(a + t + b, t, |a|);
  }

  /** A string lacking one of the characters of `t` does not contain `t`. */
  lemma MissingCharNotContained(s: string, t: string, j: nat)
    requires j < |t| && t[j] !in s
    ensures !Contains(s, t)
  {
    forall k
      ensures !OccursAt(s, t, k)
    {
      if 0 <= k <= |s| - |t| {
        assert s[k..k + |t|][j] == s[k + j] != t[j];
      }
    }
  }

  /** A string lacking one of the adjacent pairs of `t` does not contain `t`. */
  lemma MissingPairNotContained(s: string, t: string, j: nat)
    requires j + 1 < |t| && !HasPair(s, t[j], t[j + 1])
    ensures !Contains(s, t)
  {
    forall k
      ensures !OccursAt(s, t, k)
    {
      if 0 <= k <= |s| - |t| {
        var w := s[k..k + |t|];
        assert w[j] == s[k + j] && w[j + 1] == s[k + j + 1];
        assert !(s[k + j] == t[j] && s[k + j + 1] == t[j + 1]);
      }
    }
  }

  /** When `c` occurs only at the two marked places and is followed there by something
      other than `d`, the pair `c d` does not occur at all. */
  lemma PairOnlyAtMarks(x: string, y: string, z: string, c: char, d: char)
    requires c !in x && c !in y && c !in z
    requires |y| > 0 && y[0] != d && |z| > 0 && z[0] != d
    ensures !HasPair(x + [c] + y + [c] + z, c, d)
  {
    var s := x + [c] + y + [c] + z;
    forall i | 0 <= i < |s| - 1
      ensures !(s[i] == c && s[i + 1] == d)
    {
      if i < |x| {
        assert s[i] == x[i];
      } else if i == |x| {
        assert s[i + 1] == y[0];
      } else if i < |x| + 1 + |y| {
        assert s[i] == y[i - |x| - 1];
      } else if i == |x| + 1 + |y| {
        assert s[i + 1] == z[0];
      } else {
        assert s[i] == z[i - |x| - 2 - |y|];
      }
    }
  }
}
