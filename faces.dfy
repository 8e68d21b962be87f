/** Six-sided die faces and the tallies that both dice resolvers keep of them. */
module DiceFaces {

  /** A face a six-sided die can show, the range of random.randint(1, 6). */
  predicate IsFace(v: int) {
    1 <= v <= 6
  }

  /** Every entry of s could have been drawn by random.randint(1, 6). */
  predicate AllFaces(s: seq<int>) {
    forall i :: 0 <= i < |s| ==> IsFace(s[i])
  }

  /** Concatenating two lists of faces gives a list of faces. */
  lemma FacesAppend(a: seq<int>, b: seq<int>)
    requires AllFaces(a) && AllFaces(b)
    ensures AllFaces(a + b)
  {
    forall i | 0 <= i < |a + b| ensures IsFace((a + b)[i]) {
      if i < |a| {
        assert (a + b)[i] == a[i];
      } else {
        assert (a + b)[i] == b[i - |a|];
      }
    }
  }

  /** The number of times Python's range(n) iterates. */
  function Iterations(n: int): (k: nat) {
    if n > 0 then n else 0
  }

  /** The number of entries of s in lo..hi. */
  function CountBetween(s: seq<int>, lo: int, hi: int): (c: nat)
    ensures c <= |s|
  {
    if s == [] then 0
    else CountBetween(s[..|s| - 1], lo, hi) + (if lo <= s[|s| - 1] <= hi then 1 else 0)
  }

  /** Tallies add up over concatenation. */
  lemma {:induction false} CountAppend(a: seq<int>, b: seq<int>, lo: int, hi: int)
    ensures CountBetween(a + b, lo, hi) == CountBetween(a, lo, hi) + CountBetween(b, lo, hi)
    decreases |b|
  {
    if b == [] {
      assert a + b == a;
    } else {
      assert (a + b)[..|a + b| - 1] == a + b[..|b| - 1];
      CountAppend(a, b[..|b| - 1], lo, hi);
    }
  }

  /** Every entry of s is counted exactly when all of s lies in lo..hi. */
  lemma {:induction false} CountAllIff(s: seq<int>, lo: int, hi: int)
    ensures CountBetween(s, lo, hi) == |s| <==> forall i :: 0 <= i < |s| ==> lo <= s[i] <= hi
  {
    if s != [] {
      var t := s[..|s| - 1];
      CountAllIff(t, lo, hi);
      if forall i :: 0 <= i < |s| ==> lo <= s[i] <= hi {
        assert forall i :: 0 <= i < |t| ==> lo <= t[i] <= hi by {
          forall i | 0 <= i < |t| ensures lo <= t[i] <= hi {
            assert t[i] == s[i];
          }
        }
      }
    }
  }

  /** Every face is a 1 or lies in 2..6, so the energy and the fury gained from s account for
      every one of its dice. */
  lemma {:induction false} EnergyPlusFury(s: seq<int>)
    requires AllFaces(s)
    ensures CountBetween(s, 2, 6) + CountBetween(s, 1, 1) == |s|
  {
    if s != [] {
      EnergyPlusFury(s[..|s| - 1]);
    }
  }
}
