/** The few JavaScript string operations the worker's routing relies on:
    `String.prototype.includes` and `String.prototype.replace` with a
    string pattern (which replaces the FIRST occurrence only). */
module Text {
  import opened Wrappers

  /** `sub` sits in `s` starting at position `i`. */
  ghost predicate OccursAt(s: string, sub: string, i: int)
  {
    0 <= i && i + |sub| <= |s| && s[i..i + |sub|] == sub
  }

  /** Dropping the first character shifts every occurrence one place to the left. */
  lemma OccursShifted(s: string, sub: string)
    requires |s| > 0
    ensures forall j :: 0 < j ==> (OccursAt(s, sub, j) <==> OccursAt(s[1..], sub, j - 1))
  {
    forall j | 0 < j ensures OccursAt(s, sub, j) <==> OccursAt(s[1..], sub, j - 1) {
      if j + |sub| <= |s| {
        assert s[1..][j - 1..j - 1 + |sub|] == s[j..j + |sub|];
      }
    }
  }

  /** `s.indexOf(sub)`, with `None` for JavaScript's -1: the first position of `sub`. */
  function IndexOf(s: string, sub: string): (r: Option<nat>)
    ensures r.Some? ==> OccursAt(s, sub, r.value)
    ensures r.Some? ==> forall j :: 0 <= j < r.value ==> !OccursAt(s, sub, j)
    ensures r.None? ==> forall j :: !OccursAt(s, sub, j)
  {
    if sub <= s then
      assert s[0..|sub|] == s[..|sub|];
      Some(0)
    else if |s| == 0 then
      None
    else
      OccursShifted(s, sub);
      assert |sub| <= |s| ==> s[0..|sub|] != sub;
      var rest := IndexOf(s[1..], sub);
      if rest.Some? then Some(rest.value + 1) else None
  }

  /** `s.includes(sub)`: `sub` occurs somewhere in `s`. */
  function Contains(s: string, sub: string): (r: bool)
    ensures sub == [] ==> r
    ensures r ==> |sub| <= |s|
  {
    sub <= s || (|s| > 0 && Contains(s[1..], sub))
  }

  /** `includes` and `indexOf` agree, so `Contains` holds exactly when some position holds `sub`. */
  lemma {:induction false} ContainsIffOccurs(s: string, sub: string)
    ensures Contains(s, sub) <==> IndexOf(s, sub).Some?
    ensures Contains(s, sub) <==> exists i :: OccursAt(s, sub, i)
  {
    if !(sub <= s) && |s| > 0 {
      ContainsIffOccurs(s[1..], sub);
    }
  }

  /** `s.replace(pat, rep)` for a string `pat` and a replacement without `$`: only the
      first occurrence is replaced, and `rep` is inserted as it is. */
  function ReplaceFirst(s: string, pat: string, rep: string): (r: string)
    ensures IndexOf(s, pat).None? ==> r == s
    ensures IndexOf(s, pat).Some? ==>
      var i := IndexOf(s, pat).value;
      r == s[..i] + rep + s[i + |pat|..] && |r| == |s| - |pat| + |rep|
  {
    match IndexOf(s, pat)
    case None => s
    case Some(i) => s[..i] + rep + s[i + |pat|..]
  }
}
