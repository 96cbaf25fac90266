/** String operations the program relies on: ASCII lower-casing, the `in`
    substring test and `str.join`. */
module Text {

  /** Lower-cases one character; only 'A'..'Z' are mapped. */
  function LowerChar(c: char): (r: char)
    ensures 'A' <= c <= 'Z' ==> r as int == c as int + 32
    ensures !('A' <= c <= 'Z') ==> r == c
    ensures !('A' <= r <= 'Z')
  {
    if 'A' <= c <= 'Z' then (c as int + 32) as char else c
  }

  /** `s.lower()`, restricted to ASCII letters. */
  function Lower(s: string): (r: string)
    ensures |r| == |s|
    ensures forall i :: 0 <= i < |s| ==> r[i] == LowerChar(s[i])
  {
    seq(|s|, i requires 0 <= i < |s| => LowerChar(s[i]))
  }

  /** `pat` occurs in `s` starting at index `i`. */
  ghost predicate OccursAt(s: string, pat: string, i: int)
  {
    0 <= i && i + |pat| <= |s| && s[i..i + |pat|] == pat
  }

  /** Python's `pat in s`, computed by scanning from the left. */
  function Contains(s: string, pat: string): bool
    decreases |s|
  {
    if |pat| > |s| then false
    else if s[..|pat|] == pat then true
    else Contains(s[1..], pat)
  }

  /** The scan finds `pat` exactly when it occurs somewhere in `s`. */
  lemma {:induction false} ContainsIff(s: string, pat: string)
    ensures Contains(s, pat) <==> exists i :: OccursAt(s, pat, i)
    decreases |s|
  {
    if |pat| > |s| {
      assert forall i :: !OccursAt(s, pat, i);
    } else if s[..|pat|] == pat {
      assert OccursAt(s, pat, 0);
    } else {
      ContainsIff(s[1..], pat);
      ContainsShift(s, pat);
    }
  }

  /** An occurrence that does not start at index 0 is an occurrence in `s[1..]`. */
  lemma ContainsShift(s: string, pat: string)
    requires |pat| <= |s| && s[..|pat|] != pat
    ensures (exists i :: OccursAt(s, pat, i)) <==> (exists i :: OccursAt(s[1..], pat, i))
  {
    if i :| OccursAt(s, pat, i) {
      assert i != 0 by { assert s[..|pat|] == s[0..|pat|]; }
      assert s[1..][i - 1..i - 1 + |pat|] == s[i..i + |pat|];
      assert OccursAt(s[1..], pat, i - 1);
    }
    if i :| OccursAt(s[1..], pat, i) {
      assert s[1..][i..i + |pat|] == s[i + 1..i + 1 + |pat|];
      assert OccursAt(s, pat, i + 1);
    }
  }

  /** Lower-casing commutes with slicing, so an occurrence of `pat` in `s`
      is an occurrence of `Lower(pat)` in `Lower(s)`: the `in` test on
      lower-cased text is case-insensitive in its pattern. */
  lemma {:induction false} OccursAtLower(s: string, pat: string, i: int)
    requires OccursAt(s, pat, i)
    ensures OccursAt(Lower(s), Lower(pat), i)
  {
    assert Lower(s)[i..i + |pat|] == Lower(s[i..i + |pat|]);
  }

  /** `str.join(sep, parts)`: the parts in order with `sep` between neighbours. */
  function Join(sep: string, parts: seq<string>): string
    decreases |parts|
  {
    if |parts| == 0 then ""
    else if |parts| == 1 then parts[0]
    else parts[0] + sep + Join(sep, parts[1..])
  }

  /** The list `[p0, sep, p1, sep, ..., p(n-1)]` that a join concatenates. */
  function Weave(sep: string, parts: seq<string>): (w: seq<string>)
    ensures |parts| > 0 ==> |w| == 2 * |parts| - 1
    ensures |parts| == 0 ==> w == []
    decreases |parts|
  {
    if |parts| <= 1 then parts else [parts[0], sep] + Weave(sep, parts[1..])
  }

  /** Concatenation of a list of strings. */
  function Concat(pieces: seq<string>): string
    decreases |pieces|
  {
    if |pieces| == 0 then "" else pieces[0] + Concat(pieces[1..])
  }

  /** Total length of a list of strings. */
  function TotalLength(parts: seq<string>): nat
    decreases |parts|
  {
    if |parts| == 0 then 0 else |parts[0]| + TotalLength(parts[1..])
  }

  /** The woven list holds the parts at even positions, in order, and
      exactly |parts| - 1 copies of the separator at odd positions. */
  lemma {:induction false} WeaveShape(sep: string, parts: seq<string>, k: nat)
    requires |parts| > 0 && k < 2 * |parts| - 1
    ensures |Weave(sep, parts)| == 2 * |parts| - 1
    ensures k % 2 == 0 ==> Weave(sep, parts)[k] == parts[k / 2]
    ensures k % 2 == 1 ==> Weave(sep, parts)[k] == sep
    decreases |parts|
  {
    if |parts| > 1 && k >= 2 {
      WeaveShape(sep, parts[1..], k - 2);
    }
  }

  /** Joining is concatenating the woven list. */
  lemma {:induction false} JoinIsConcatOfWeave(sep: string, parts: seq<string>)
    ensures Join(sep, parts) == Concat(Weave(sep, parts))
    decreases |parts|
  {
    if |parts| == 1 {
      assert Weave(sep, parts) == [parts[0]];
      assert Concat([parts[0]]) == parts[0] + Concat([]);
    } else if |parts| > 1 {
      JoinIsConcatOfWeave(sep, parts[1..]);
      var w := [parts[0], sep] + Weave(sep, parts[1..]);
      assert w[1..] == [sep] + Weave(sep, parts[1..]);
      assert ([sep] + Weave(sep, parts[1..]))[1..] == Weave(sep, parts[1..]);
    }
  }

  /** A non-empty join is as long as its parts plus |parts| - 1 separators. */
  lemma {:induction false} JoinLength(sep: string, parts: seq<string>)
    requires |parts| > 0
    ensures |Join(sep, parts)| == TotalLength(parts) + (|parts| - 1) * |sep|
    decreases |parts|
  {
    if |parts| == 1 {
      assert parts[1..] == [];
    } else {
      JoinLength(sep, parts[1..]);
    }
  }

  /** A single part is joined to itself, with no separator. */
  lemma JoinSingle(sep: string, part: string)
    ensures Join(sep, [part]) == part
  {
  }
}
