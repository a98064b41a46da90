/** How the task verifier reads the language model's answer: a submission is
    approved when "VERIFIED" occurs anywhere in the upper-cased response. */
module Verdict {

  /** ASCII upper-casing of one character. */
  function UpperChar(c: char): char
  {
    if 'a' <= c <= 'z' then (c as int - 'a' as int + 'A' as int) as char else c
  }

  /** `str.upper()` restricted to ASCII letters. */
  function Upper(s: string): (r: string)
    ensures |r| == |s|
    ensures forall i :: 0 <= i < |s| ==> r[i] == UpperChar(s[i])
  {
    if s == [] then [] else [UpperChar(s[0])] + Upper(s[1..])
  }

  /** p occurs in s starting at position i. */
  predicate OccursAt(s: string, p: string, i: nat)
  {
    i + |p| <= |s| && s[i..i + |p|] == p
  }

  /** Python's `p in s` on strings. */
  function Contains(s: string, p: string): (r: bool)
    ensures r <==> exists i: nat :: OccursAt(s, p, i)
    decreases |s|
  {
    if |s| < |p| then false
    else if s[..|p|] == p then
      assert OccursAt(s, p, 0);
      true
    else
      var rest := Contains(s[1..], p);
      assert forall i: nat :: OccursAt(s[1..], p, i) <==> OccursAt(s, p, i + 1) by {
        forall i: nat ensures OccursAt(s[1..], p, i) <==> OccursAt(s, p, i + 1) {
          if i + |p| <= |s[1..]| {
            assert s[1..][i..i + |p|] == s[i + 1..i + 1 + |p|];
          }
        }
      }
      assert !OccursAt(s, p, 0);
      assert (exists i: nat :: OccursAt(s, p, i)) ==> exists i: nat :: OccursAt(s[1..], p, i) by {
        if exists i: nat :: OccursAt(s, p, i) {
          var i: nat :| OccursAt(s, p, i);
          assert i > 0;
          assert OccursAt(s[1..], p, i - 1);
        }
      }
      rest
  }

  /** Text without lower-case ASCII letters is its own upper-casing. */
  lemma UpperKeepsUpperCase(s: string)
    requires forall i :: 0 <= i < |s| ==> !('a' <= s[i] <= 'z')
    ensures Upper(s) == s
  {
    assert forall i :: 0 <= i < |s| ==> Upper(s)[i] == s[i];
  }

  const VerifiedMarker := "VERIFIED"

  /** The characters of the reply from position i upper-case to the marker. */
  predicate SpellsMarkerAt(response: string, i: nat)
  {
    i + |VerifiedMarker| <= |response| && Upper(response[i..i + |VerifiedMarker|]) == VerifiedMarker
  }

  /** `"VERIFIED" in response.upper()`: approval means some eight
      consecutive characters of the reply spell the marker in some letter
      case, so a reply shorter than the marker never approves. */
  predicate IsVerified(response: string)
    ensures IsVerified(response) ==> exists i: nat :: SpellsMarkerAt(response, i)
    ensures |response| < |VerifiedMarker| ==> !IsVerified(response)
  {
    var u := Upper(response);
    var found := Contains(u, VerifiedMarker);
    if found then
      var i: nat :| OccursAt(u, VerifiedMarker, i);
      assert Upper(response[i..i + |VerifiedMarker|]) == u[i..i + |VerifiedMarker|];
      assert SpellsMarkerAt(response, i);
      true
    else false
  }

  /** The reply the verifier is told to give for a valid photo approves,
      in any letter case. */
  lemma VerifiedRepliesApprove()
    ensures IsVerified("VERIFIED")
    ensures IsVerified("verified")
  {
    assert OccursAt(Upper("VERIFIED"), VerifiedMarker, 0);
    assert OccursAt(Upper("verified"), VerifiedMarker, 0);
  }

  /** The reply the verifier is told to give for an invalid photo rejects. */
  lemma RejectedReplyRejects()
    ensures !IsVerified("REJECTED")
  {
    assert Upper("REJECTED") == "REJECTED";
  }

  lemma {:induction false} UpperConcat(a: string, b: string)
    ensures Upper(a + b) == Upper(a) + Upper(b)
  {
    if a != [] {
      assert (a + b)[1..] == a[1..] + b;
      UpperConcat(a[1..], b);
    }
  }

  /** Any reply that ends in the marker approves, whatever precedes it:
      the substring test cannot tell "VERIFIED" from "NOT VERIFIED". */
  lemma MarkerSuffixApproves(prefix: string)
    ensures IsVerified(prefix + VerifiedMarker)
  {
    UpperConcat(prefix, VerifiedMarker);
    assert Upper(VerifiedMarker) == VerifiedMarker;
    var u := Upper(prefix + VerifiedMarker);
    assert u[|prefix|..|prefix| + |VerifiedMarker|] == VerifiedMarker;
    assert OccursAt(u, VerifiedMarker, |prefix|);
  }

  /** The check is a substring test, so a reply that negates the marker
      still approves. */
  lemma NegatedReplyIsVerified()
    ensures IsVerified("NOT VERIFIED")
  {
    MarkerSuffixApproves("NOT ");
    assert "NOT " + VerifiedMarker == "NOT VERIFIED";
  }
}
