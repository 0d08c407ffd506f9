/** `s.replace(new RegExp(t, 'g'), r)` as JavaScript performs it for a pattern
    that matches only its own literal text and has no capture groups: every
    match is replaced by the replacement string with its `$` patterns expanded. */
module JsReplace {
  import opened Text

  /** The replacement text for one match (GetSubstitution of the ECMAScript
      language specification, with no capture groups): `$$` is `$`, `$&` the
      matched text, `` $` `` the text before the match, `$'` the text after
      it; every other character, including any other `$`, stands for itself. */
  function Expand(r: string, matched: string, before: string, after: string): string
    decreases |r|
  {
    if |r| == 0 then ""
    else if r[0] == '$' && |r| >= 2 && r[1] == '$' then "$" + Expand(r[2..], matched, before, after)
    else if r[0] == '$' && |r| >= 2 && r[1] == '&' then matched + Expand(r[2..], matched, before, after)
    else if r[0] == '$' && |r| >= 2 && r[1] == '`' then before + Expand(r[2..], matched, before, after)
    else if r[0] == '$' && |r| >= 2 && r[1] == '\'' then after + Expand(r[2..], matched, before, after)
    else [r[0]] + Expand(r[1..], matched, before, after)
  }

  /** The result of the global replacement from index `i` of `s` on; each
      match's replacement is expanded against the whole of `s`. */
  function ScanFrom(s: string, t: string, r: string, i: nat): string
    requires |t| > 0 && i <= |s|
    decreases |s| - i
  {
    if i == |s| then ""
    else if MatchesAt(s, t, i) then Expand(r, t, s[..i], s[i + |t|..]) + ScanFrom(s, t, r, i + |t|)
    else [s[i]] + ScanFrom(s, t, r, i + 1)
  }

  /** `s.replace(new RegExp(t, 'g'), r)`. */
  function ReplaceGlobal(s: string, t: string, r: string): string
    requires |t| > 0
  {
    ScanFrom(s, t, r, 0)
  }

  /** A replacement string without `$` is inserted as it is. */
  lemma {:induction false} ExpandLiteral(r: string, matched: string, before: string, after: string)
    requires '$' !in r
    ensures Expand(r, matched, before, after) == r
    decreases |r|
  {
    if |r| > 0 {
      assert '$' !in r[1..];
      ExpandLiteral(r[1..], matched, before, after);
      assert [r[0]] + r[1..] == r;
    }
  }

  /** Without `$` in the replacement, scanning from `i` is literal global
      replacement of the rest of `s`. */
  lemma {:induction false} ScanFromLiteral(s: string, t: string, r: string, i: nat)
    requires |t| > 0 && i <= |s| && '$' !in r
    ensures ScanFrom(s, t, r, i) == ReplaceAll(s[i..], t, r)
    decreases |s| - i
  {
    if i < |s| {
      var rest := s[i..];
      assert MatchesAt(s, t, i) <==> MatchesAt(rest, t, 0) by {
        if i + |t| <= |s| {
          assert rest[..|t|] == s[i..i + |t|];
        }
      }
      if MatchesAt(s, t, i) {
        ExpandLiteral(r, t, s[..i], s[i + |t|..]);
        ScanFromLiteral(s, t, r, i + |t|);
        assert rest[|t|..] == s[i + |t|..];
      } else {
        ScanFromLiteral(s, t, r, i + 1);
        assert rest[1..] == s[i + 1..];
      }
    }
  }

  /** Without `$` in the replacement, JavaScript's global replacement and
      literal global replacement agree. */
  lemma ReplaceGlobalLiteral(s: string, t: string, r: string)
    requires |t| > 0 && '$' !in r
    ensures ReplaceGlobal(s, t, r) == ReplaceAll(s, t, r)
  {
    ScanFromLiteral(s, t, r, 0);
    assert s[0..] == s;
  }

  /** With `$'` in the replacement the two differ: in `a{{X}}b` the value
      `$'` becomes the text after the token instead of itself. */
  lemma DollarQuoteExpands()
    ensures ReplaceGlobal("a{{X}}b", "{{X}}", "$'") == "abb"
    ensures ReplaceAll("a{{X}}b", "{{X}}", "$'") == "a$'b"
  {
    var s, t := "a{{X}}b", "{{X}}";
    assert MatchesAt(s, t, 1) by { assert s[1..6] == t; }
    assert Expand("$'", t, "a", "b") == "b" by {
      assert Expand("$'"[2..], t, "a", "b") == "";
    }
    assert ScanFrom(s, t, "$'", 6) == "b";
  }
}
