/** Derivation of the numeric sender id from the archive's `from_id` token
    (`str.replace('user', '')` followed by a cast to an unsigned 64-bit integer). */
module Sender {
  import opened Results

  const UserTag: string := "user"
  const Uint64Limit: int := 0x1_0000_0000_0000_0000

  /** `s.replace(pat, "")`: one left-to-right scan deleting non-overlapping
      occurrences of `pat`. An empty pattern leaves `s` as it is. */
  function RemoveAll(s: string, pat: string): (r: string)
    ensures |r| <= |s|
    decreases |s|
  {
    if |pat| == 0 || |s| == 0 then s
    else if |pat| <= |s| && s[..|pat|] == pat then RemoveAll(s[|pat|..], pat)
    else [s[0]] + RemoveAll(s[1..], pat)
  }

  /** `pat` occurs in `s` at position `i`. */
  predicate OccursAt(s: string, pat: string, i: int)
  {
    0 <= i && i + |pat| <= |s| && s[i..i + |pat|] == pat
  }

  predicate IsDigit(c: char)
  {
    '0' <= c <= '9'
  }

  function DigitValue(c: char): nat
    requires IsDigit(c)
  {
    (c as int) - ('0' as int)
  }

  /** The number a string of decimal digits denotes, read most significant first. */
  function DigitsValue(s: string): nat
    requires forall i :: 0 <= i < |s| ==> IsDigit(s[i])
  {
    if |s| == 0 then 0 else DigitsValue(s[..|s| - 1]) * 10 + DigitValue(s[|s| - 1])
  }

  /** The cast of a string to `uint64`: a non-empty run of ASCII digits whose
      value fits in 64 bits; anything else is rejected. */
  function ParseUnsigned(s: string): (r: Option<nat>)
    ensures r.Some? ==> r.value < Uint64Limit
    ensures r.Some? ==> |s| > 0 && forall i :: 0 <= i < |s| ==> IsDigit(s[i])
  {
    if |s| > 0 && (forall i :: 0 <= i < |s| ==> IsDigit(s[i])) && DigitsValue(s) < Uint64Limit
    then Some(DigitsValue(s))
    else None
  }

  /** The sender id of a raw `from_id` token such as `"user12345"`. */
  function FromId(token: string): (r: Option<nat>)
    ensures r.Some? ==> r.value < Uint64Limit
  {
    ParseUnsigned(RemoveAll(token, UserTag))
  }

  /** The canonical decimal spelling of `n`. */
  function Decimal(n: nat): (r: string)
    ensures |r| > 0
    ensures forall i :: 0 <= i < |r| ==> IsDigit(r[i])
  {
    var d := ['0' + ((n % 10) as char)];
    if n < 10 then d else Decimal(n / 10) + d
  }

  // ---------------------------------------------------------------------------
  // Properties

  lemma {:induction false} DigitsOfDecimal(n: nat)
    ensures DigitsValue(Decimal(n)) == n
  {
    var d := ['0' + ((n % 10) as char)];
    if n >= 10 {
      DigitsOfDecimal(n / 10);
      var s := Decimal(n / 10) + d;
      assert s[..|s| - 1] == Decimal(n / 10);
    }
  }

  /** Reading back a decimal spelling gives the number: the cast inverts printing. */
  lemma ParseDecimal(n: nat)
    requires n < Uint64Limit
    ensures ParseUnsigned(Decimal(n)) == Some(n)
  {
    DigitsOfDecimal(n);
  }

  /** Text before the first occurrence is copied unchanged: when no occurrence
      starts inside `a`, deleting from `a + b` keeps `a` and goes on with `b`. */
  lemma {:induction false} RemoveAllKeepsPrefix(a: string, b: string, pat: string)
    requires |pat| > 0
    requires forall i :: 0 <= i < |a| ==> !OccursAt(a + b, pat, i)
    ensures RemoveAll(a + b, pat) == a + RemoveAll(b, pat)
  {
    if |a| > 0 {
      var s := a + b;
      assert !OccursAt(s, pat, 0);
      assert RemoveAll(s, pat) == [s[0]] + RemoveAll(s[1..], pat) by {
        if |pat| <= |s| {
          assert s[..|pat|] == s[0..0 + |pat|];
        }
      }
      assert s[1..] == a[1..] + b;
      forall i | 0 <= i < |a[1..]|
        ensures !OccursAt(a[1..] + b, pat, i)
      {
        if OccursAt(a[1..] + b, pat, i) {
          assert s[i + 1..i + 1 + |pat|] == (a[1..] + b)[i..i + |pat|];
          assert OccursAt(s, pat, i + 1);
        }
      }
      RemoveAllKeepsPrefix(a[1..], b, pat);
      assert [a[0]] + (a[1..] + RemoveAll(b, pat)) == a + RemoveAll(b, pat);
    } else {
      assert a + b == b;
      assert a + RemoveAll(b, pat) == RemoveAll(b, pat);
    }
  }

  /** An occurrence at the front is deleted. */
  lemma RemoveAllLeading(s: string, pat: string)
    requires |pat| > 0
    ensures RemoveAll(pat + s, pat) == RemoveAll(s, pat)
  {
    assert (pat + s)[..|pat|] == pat;
    assert (pat + s)[|pat|..] == s;
  }

  /** The first occurrence is deleted and the text before it kept: with no
      occurrence starting inside `a`, `a + pat + b` loses exactly that `pat`,
      and the scan resumes after it. */
  lemma RemoveAllFirst(a: string, b: string, pat: string)
    requires |pat| > 0
    requires forall i :: 0 <= i < |a| ==> !OccursAt(a + pat + b, pat, i)
    ensures RemoveAll(a + pat + b, pat) == a + RemoveAll(b, pat)
  {
    assert a + pat + b == a + (pat + b);
    RemoveAllKeepsPrefix(a, pat + b, pat);
    RemoveAllLeading(b, pat);
  }

  /** A string in which the pattern does not occur is left unchanged. */
  lemma RemoveAllAbsent(s: string, pat: string)
    requires |pat| > 0
    requires forall i :: !OccursAt(s, pat, i)
    ensures RemoveAll(s, pat) == s
  {
    assert s + [] == s;
    RemoveAllKeepsPrefix(s, [], pat);
  }

  /** A string without the pattern's first letter has no occurrence of it. */
  lemma {:induction false} NoFirstLetter(s: string, pat: string)
    requires |pat| > 0
    requires forall i :: 0 <= i < |s| ==> s[i] != pat[0]
    ensures forall i :: !OccursAt(s, pat, i)
  {
    forall i
      ensures !OccursAt(s, pat, i)
    {
      if 0 <= i && i + |pat| <= |s| {
        assert s[i..i + |pat|][0] == s[i];
      }
    }
  }

  /** The tagged reference `"user" + decimal(n)` yields the id `n`. */
  lemma FromTaggedId(n: nat)
    requires n < Uint64Limit
    ensures FromId(UserTag + Decimal(n)) == Some(n)
  {
    var s := UserTag + Decimal(n);
    assert s[..|UserTag|] == UserTag;
    assert s[|UserTag|..] == Decimal(n);
    NoFirstLetter(Decimal(n), UserTag);
    RemoveAllAbsent(Decimal(n), UserTag);
    ParseDecimal(n);
  }

  /** `"user12345"` gives 12345. */
  lemma FromIdExample()
    ensures FromId("user12345") == Some(12345)
  {
    assert Decimal(12345) == "12345";
    FromTaggedId(12345);
  }

  /** The tag is deleted, not required: an untagged numeric token is accepted too. */
  lemma UntaggedTokenAccepted(n: nat)
    requires n < Uint64Limit
    ensures FromId(Decimal(n)) == Some(n)
  {
    NoFirstLetter(Decimal(n), UserTag);
    RemoveAllAbsent(Decimal(n), UserTag);
    ParseDecimal(n);
  }

  /** The deletion is a single pass: an occurrence formed by a deletion stays,
      so `"uuserser1"` is not a valid sender token. */
  lemma SinglePassDeletion()
    ensures RemoveAll("uuserser1", UserTag) == "user1"
    ensures FromId("uuserser1") == None
  {
    var s := "uuserser1";
    assert s[..4][1] != UserTag[1];
    assert s[1..][..4] == UserTag;
    assert s[1..][4..] == "ser1";
    assert RemoveAll("ser1", UserTag) == "ser1" by {
      NoFirstLetter("ser1", UserTag);
      RemoveAllAbsent("ser1", UserTag);
    }
    assert !IsDigit("user1"[0]);
  }
}
