/** The two JavaScript string built-ins the filter relies on:
    `String.prototype.toLowerCase` (restricted to ASCII letters) and
    `String.prototype.includes` (substring test). */
module JsString {

  predicate IsUpper(c: char) {
    'A' <= c <= 'Z'
  }

  /** One character through `toLowerCase`: ASCII capitals map to their
      small letter, every other character is left alone. */
  function LowerChar(c: char): (r: char)
    ensures !IsUpper(r)
    ensures !IsUpper(c) ==> r == c
    ensures IsUpper(c) ==> 'a' <= r <= 'z' && r as int - c as int == 32
  {
    if IsUpper(c) then (c as int + 32) as char else c
  }

  /** `s.toLowerCase()` on the ASCII range, character by character. */
  function Lower(s: string): (r: string)
    ensures |r| == |s|
    ensures forall i :: 0 <= i < |s| ==> r[i] == LowerChar(s[i])
    ensures forall i :: 0 <= i < |r| ==> !IsUpper(r[i])
  {
    if s == [] then [] else [LowerChar(s[0])] + Lower(s[1..])
  }

  lemma {:induction false} LowerIdempotent(s: string)
    ensures Lower(Lower(s)) == Lower(s)
  {
    var l := Lower(s);
    assert forall i :: 0 <= i < |l| ==> LowerChar(l[i]) == l[i];
  }

  lemma LowerEmpty()
    ensures Lower("") == ""
  {
  }

  predicate IsPrefix(p: string, s: string) {
    |p| <= |s| && s[..|p|] == p
  }

  /** `s.includes(p)`: `p` occurs in `s` at some offset.  The empty string
      occurs in every string, the empty string included. */
  predicate Contains(s: string, p: string): (r: bool)
    ensures r ==> |p| <= |s|
    ensures p == [] ==> r
    decreases |s|
  {
    IsPrefix(p, s) || (s != [] && Contains(s[1..], p))
  }

  /** The offset at which `p` occurs, when it does. */
  ghost predicate OccursAt(s: string, p: string, k: int) {
    0 <= k <= |s| && IsPrefix(p, s[k..])
  }

  /** `Contains` agrees with the textbook definition of a substring: some
      offset of `s` starts a copy of `p`. */
  lemma {:induction false} ContainsIffOccurs(s: string, p: string)
    ensures Contains(s, p) <==> exists k :: OccursAt(s, p, k)
    decreases |s|
  {
    if IsPrefix(p, s) {
      assert s[0..] == s;
      assert OccursAt(s, p, 0);
    } else if s != [] {
      ContainsIffOccurs(s[1..], p);
      if Contains(s[1..], p) {
        var k :| OccursAt(s[1..], p, k);
        assert s[1..][k..] == s[k + 1..];
        assert OccursAt(s, p, k + 1);
      } else {
        forall k | OccursAt(s, p, k) ensures false {
          assert k != 0 by { assert s[0..] == s; }
          assert s[1..][k - 1..] == s[k..];
          assert OccursAt(s[1..], p, k - 1);
        }
      }
    }
  }
}
