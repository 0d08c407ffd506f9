/** Literal text search and global replacement: the string operations the
    template renderer is built from. */
module Text {

  /** `t` occurs in `s` starting at index `i`. */
  predicate MatchesAt(s: string, t: string, i: nat) {
    i + |t| <= |s| && s[i..i + |t|] == t
  }

  /** `t` occurs somewhere in `s`. */
  predicate Occurs(s: string, t: string) {
    exists i: nat :: i <= |s| && MatchesAt(s, t, i)
  }

  /** No proper prefix of `t` is also a suffix of `t`, so two occurrences of
      `t` can never overlap. */
  predicate BorderFree(t: string) {
    forall n :: 0 < n < |t| ==> t[..n] != t[|t| - n..]
  }

  /** `parts` glued together with `sep` between consecutive parts. */
  function Join(parts: seq<string>, sep: string): string
    decreases |parts|
  {
    if |parts| == 0 then ""
    else if |parts| == 1 then parts[0]
    else parts[0] + sep + Join(parts[1..], sep)
  }

  /** Replaces every occurrence of `t` in `s` by `r`, scanning left to right
      and resuming after each replaced occurrence (leftmost, non-overlapping
      matches, the way a global search does). The replacement text is used
      literally. */
  function ReplaceAll(s: string, t: string, r: string): string
    requires |t| > 0
    decreases |s|
  {
    if |s| == 0 then ""
    else if MatchesAt(s, t, 0) then r + ReplaceAll(s[|t|..], t, r)
    else [s[0]] + ReplaceAll(s[1..], t, r)
  }

  /** Dropping the first character of `s` shifts every match one place left. */
  lemma MatchesAtTail(s: string, t: string, i: nat)
    requires |s| > 0
    ensures MatchesAt(s[1..], t, i) <==> MatchesAt(s, t, i + 1)
  {
  }

  /** A prefix in which no occurrence of `t` starts is copied unchanged. */
  lemma {:induction false} ReplaceAllSkipsPrefix(a: string, b: string, t: string, r: string)
    requires |t| > 0
    requires forall i: nat :: i < |a| ==> !MatchesAt(a + b, t, i)
    ensures ReplaceAll(a + b, t, r) == a + ReplaceAll(b, t, r)
    decreases |a|
  {
    if |a| == 0 {
      assert a + b == b;
    } else {
      var s := a + b;
      assert !MatchesAt(s, t, 0);
      assert s[1..] == a[1..] + b;
      forall i: nat | i < |a[1..]|
        ensures !MatchesAt(a[1..] + b, t, i)
      {
        MatchesAtTail(s, t, i);
      }
      ReplaceAllSkipsPrefix(a[1..], b, t, r);
      assert [a[0]] + a[1..] == a;
    }
  }

  /** Text without any occurrence of `t` comes back unchanged. */
  lemma ReplaceAllAbsent(s: string, t: string, r: string)
    requires |t| > 0 && !Occurs(s, t)
    ensures ReplaceAll(s, t, r) == s
  {
    assert s + [] == s;
    forall i: nat | i < |s| ensures !MatchesAt(s + [], t, i) {
      assert !MatchesAt(s, t, i);
    }
    ReplaceAllSkipsPrefix(s, [], t, r);
  }

  /** Two overlapping occurrences of `t` make the overlap a border of `t`. */
  lemma OverlapIsBorder(s: string, t: string, i: nat, j: nat)
    ensures i < j < i + |t| && MatchesAt(s, t, i) && MatchesAt(s, t, j)
            ==> t[..i + |t| - j] == t[j - i..]
  {
  }

  /** Global replacement: when `s` is `parts` joined by a border-free `t` and
      no part contains `t`, every occurrence of `t` is replaced, and nothing
      else changes. */
  lemma {:induction false} ReplaceAllJoin(parts: seq<string>, t: string, r: string)
    requires |t| > 0 && BorderFree(t)
    requires forall k :: 0 <= k < |parts| ==> !Occurs(parts[k], t)
    ensures ReplaceAll(Join(parts, t), t, r) == Join(parts, r)
    decreases |parts|
  {
    if |parts| == 0 {
    } else if |parts| == 1 {
      ReplaceAllAbsent(parts[0], t, r);
    } else {
      var p, rest := parts[0], Join(parts[1..], t);
      var s := p + (t + rest);
      assert Join(parts, t) == s;
      assert MatchesAt(s, t, |p|) by {
        assert s[|p|..|p| + |t|] == t;
      }
      forall i: nat | i < |p|
        ensures !MatchesAt(s, t, i)
      {
        if i + |t| <= |p| {
          assert s[i..i + |t|] == p[i..i + |t|];
          assert !MatchesAt(p, t, i);
        } else {
          OverlapIsBorder(s, t, i, |p|);
        }
      }
      ReplaceAllSkipsPrefix(p, t + rest, t, r);
      assert MatchesAt(t + rest, t, 0);
      assert (t + rest)[|t|..] == rest;
      ReplaceAllJoin(parts[1..], t, r);
      assert Join(parts, r) == p + r + Join(parts[1..], r);
    }
  }
}
