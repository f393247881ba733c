/** Byte strings and the standard-library searches the source relies on.

    A byte is a Dafny `char`; codes 128 and above stand for the negative values of the
    source's signed `char`.  `npos` is modelled as -1.
 */
module Text {

  datatype Option<+T> = None | Some(value: T)

  /** The marker that ends a request body. */
  const SENTINEL: string := "EOF%"

  predicate OccursAt(s: string, pattern: string, i: nat) {
    i + |pattern| <= |s| && s[i..i + |pattern|] == pattern
  }

  predicate Contains(s: string, pattern: string) {
    exists i :: 0 <= i <= |s| && OccursAt(s, pattern, i)
  }

  predicate EndsWith(s: string, pattern: string) {
    |pattern| <= |s| && s[|s| - |pattern|..] == pattern
  }

  /** `std::string::find`, started at position `from`. */
  function FindFrom(s: string, pattern: string, from: nat): (r: int)
    requires from <= |s|
    ensures r == -1 ==> forall i :: from <= i <= |s| ==> !OccursAt(s, pattern, i)
    ensures r != -1 ==> from <= r <= |s| && OccursAt(s, pattern, r)
    ensures r != -1 ==> forall i :: from <= i < r ==> !OccursAt(s, pattern, i)
    decreases |s| - from
  {
    if OccursAt(s, pattern, from) then from
    else if from == |s| then -1
    else FindFrom(s, pattern, from + 1)
  }

  /** `std::string::find`: the first occurrence, or -1. */
  function Find(s: string, pattern: string): (r: int)
    ensures r == -1 <==> !Contains(s, pattern)
    ensures r != -1 ==> 0 <= r <= |s| && OccursAt(s, pattern, r)
    ensures r != -1 ==> forall i :: 0 <= i < r ==> !OccursAt(s, pattern, i)
  {
    FindFrom(s, pattern, 0)
  }

  /** `std::string::find_last_of` with two characters: the last position of `c` or `d`, or -1. */
  function LastOf(s: string, c: char, d: char): (r: int)
    ensures -1 <= r < |s|
  {
    if s == "" then -1
    else if s[|s| - 1] == c || s[|s| - 1] == d then |s| - 1
    else LastOf(s[..|s| - 1], c, d)
  }

  lemma {:induction false} LastOfSpec(s: string, c: char, d: char)
    ensures var r := LastOf(s, c, d);
            && (r >= 0 ==> s[r] == c || s[r] == d)
            && forall i :: r < i < |s| ==> s[i] != c && s[i] != d
    decreases |s|
  {
    if s != "" && s[|s| - 1] != c && s[|s| - 1] != d {
      LastOfSpec(s[..|s| - 1], c, d);
    }
  }

  lemma LastOfUnique(s: string, c: char, d: char, k: nat)
    requires k < |s| && (s[k] == c || s[k] == d)
    requires forall i :: k < i < |s| ==> s[i] != c && s[i] != d
    ensures LastOf(s, c, d) == k
  {
    LastOfSpec(s, c, d);
    var r := LastOf(s, c, d);
    assert !(r < k) && !(r > k);
  }

  lemma LastOfConcat(a: string, b: string, c: char, d: char)
    requires LastOf(b, c, d) >= 0
    ensures LastOf(a + b, c, d) == |a| + LastOf(b, c, d)
  {
    LastOfSpec(b, c, d);
    var k := |a| + LastOf(b, c, d);
    assert forall i :: |a| <= i < |a + b| ==> (a + b)[i] == b[i - |a|];
    LastOfUnique(a + b, c, d, k);
  }

  // ----- the sentinel -----

  /** Adding one byte to a sentinel-free string completes a sentinel exactly at the end. */
  lemma SentinelOnlyAtEnd(s: string, b: char)
    requires !Contains(s, SENTINEL)
    ensures Contains(s + [b], SENTINEL) <==> EndsWith(s + [b], SENTINEL)
    ensures EndsWith(s + [b], SENTINEL) ==> Find(s + [b], SENTINEL) == |s| - 3
  {
    var t := s + [b];
    forall i | 0 <= i <= |t| && i != |t| - 4
      ensures !OccursAt(t, SENTINEL, i)
    {
      if i + 4 <= |s| {
        assert t[i..i + 4] == s[i..i + 4];
        assert !OccursAt(s, SENTINEL, i);
      }
    }
    if |t| >= 4 {
      assert t[|t| - 4..|t| - 4 + 4] == t[|t| - 4..];
      assert EndsWith(t, SENTINEL) <==> OccursAt(t, SENTINEL, |t| - 4);
    }
  }

  /** No proper prefix of the sentinel is one of its suffixes, so a body cannot run into it. */
  lemma SentinelHasNoBorder(body: string, i: nat)
    requires !Contains(body, SENTINEL)
    requires i <= |body| + 4 && i != |body|
    ensures !OccursAt(body + SENTINEL, SENTINEL, i)
  {
    var t := body + SENTINEL;
    if i + 4 <= |body| {
      assert t[i..i + 4] == body[i..i + 4];
      assert !OccursAt(body, SENTINEL, i);
    } else if i + 4 <= |t| {
      assert t[i..i + 4][3] == t[i + 3];
    }
  }

  lemma SentinelAfterBody(body: string)
    ensures OccursAt(body + SENTINEL, SENTINEL, |body|)
    ensures 0 <= Find(body + SENTINEL, SENTINEL) <= |body|
    ensures !Contains(body, SENTINEL) <==> Find(body + SENTINEL, SENTINEL) == |body|
  {
    var t := body + SENTINEL;
    assert t[|body|..|body| + 4] == SENTINEL;
    assert OccursAt(t, SENTINEL, |body|);
    assert Contains(t, SENTINEL);
    var k := Find(t, SENTINEL);
    if !Contains(body, SENTINEL) {
      forall i | 0 <= i < |body|
        ensures !OccursAt(t, SENTINEL, i)
      {
        SentinelHasNoBorder(body, i);
      }
    }
    if k == |body| {
      FoundFirst(body);
    }
  }

  lemma FoundFirst(body: string)
    requires Find(body + SENTINEL, SENTINEL) == |body|
    ensures !Contains(body, SENTINEL)
  {
    var t := body + SENTINEL;
    assert t[|body|..|body| + 4] == SENTINEL;
    forall i | 0 <= i <= |body|
      ensures !OccursAt(body, SENTINEL, i)
    {
      if i + 4 <= |body| {
        assert t[i..i + 4] == body[i..i + 4];
        assert !OccursAt(t, SENTINEL, i);
      }
    }
  }

  /** What the server keeps of a body: the bytes before the first sentinel of body + sentinel. */
  function Framed(body: string): (r: string)
    ensures r <= body
  {
    SentinelAfterBody(body);
    body[..Find(body + SENTINEL, SENTINEL)]
  }

  /** The framed body holds no sentinel, is followed by one, and is the whole body exactly when
      the body holds none. */
  lemma FramedSpec(body: string)
    ensures !Contains(Framed(body), SENTINEL)
    ensures Framed(body) + SENTINEL <= body + SENTINEL
    ensures Framed(body) == body <==> !Contains(body, SENTINEL)
  {
    SentinelAfterBody(body);
    var t := body + SENTINEL;
    var k := Find(t, SENTINEL);
    assert Framed(body) == t[..k];
    assert t[..k] + SENTINEL == t[..k + 4];
    FramedClean(t, k);
  }

  lemma FramedClean(t: string, k: nat)
    requires k <= |t| && forall i :: 0 <= i < k ==> !OccursAt(t, SENTINEL, i)
    ensures !Contains(t[..k], SENTINEL)
  {
    forall i | 0 <= i <= k
      ensures !OccursAt(t[..k], SENTINEL, i)
    {
      if i + 4 <= k {
        assert t[..k][i..i + 4] == t[i..i + 4];
        assert !OccursAt(t, SENTINEL, i);
      }
    }
  }
}
