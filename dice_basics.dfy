/** The bucketed dice pool: a six-bucket counting sort of each batch of dice and a
    resolver that tallies energy, fury and void dice from the buckets. */
module DiceBasics {
  import opened DiceFaces

  /** What one call of DicePool.Roll hands back. */
  datatype RollResult = RollResult(values: seq<int>, faces: seq<nat>, energy: int, fury: int)

  /** The only failure of the counting sort: a subscript outside the six-slot count list. */
  datatype Error = IndexError

  datatype Result<T> = Ok(value: T) | Err(error: Error)

  /** `count[num - 1]` is a legal Python subscript of a six-slot list exactly when num is in -5..6. */
  predicate Indexable(num: int) {
    -5 <= num <= 6
  }

  predicate AllIndexable(s: seq<int>) {
    forall i :: 0 <= i < |s| ==> Indexable(s[i])
  }

  /** The slot that `count[num - 1]` names; a negative subscript counts from the end, so a 0 lands in slot 5. */
  function Slot(num: int): (k: nat)
    requires Indexable(num)
    ensures k < 6
  {
    if num - 1 < 0 then num - 1 + 6 else num - 1
  }

  /** The count list after bumping count[num - 1] once for each num of s, in order. */
  function Histogram(s: seq<int>): (h: seq<nat>)
    requires AllIndexable(s)
    ensures |h| == 6
  {
    if s == [] then [0, 0, 0, 0, 0, 0]
    else
      var h := Histogram(s[..|s| - 1]);
      var k := Slot(s[|s| - 1]);
      h[k := h[k] + 1]
  }

  function Sum(h: seq<nat>): (t: nat) {
    if h == [] then 0 else Sum(h[..|h| - 1]) + h[|h| - 1]
  }

  /** Python's `[v] * n`. */
  function Repeat(v: int, n: nat): (r: seq<int>)
    ensures |r| == n
    ensures forall i :: 0 <= i < n ==> r[i] == v
  {
    if n == 0 then [] else Repeat(v, n - 1) + [v]
  }

  /** The sorted list after the first i passes of the reconstruction loop. */
  function ExpandUpTo(count: seq<nat>, i: nat): (r: seq<int>)
    requires i <= |count|
  {
    if i == 0 then [] else ExpandUpTo(count, i - 1) + Repeat(i, count[i - 1])
  }

  /** Each face i + 1 emitted count[i] times, faces in ascending order. */
  function Expand(count: seq<nat>): (r: seq<int>)
    requires |count| == 6
    ensures |r| == Sum(count)
  {
    ExpandUpToCounts(count, 6);
    assert count[..6] == count;
    ExpandUpTo(count, 6)
  }

  /** Slot i of h holds the number of occurrences of the face i + 1 in s. */
  predicate CountsOf(h: seq<nat>, s: seq<int>) {
    |h| == 6 && forall i :: 0 <= i < 6 ==> h[i] == multiset(s)[i + 1]
  }

  predicate Sorted(s: seq<int>) {
    forall a, b :: 0 <= a < b < |s| ==> s[a] <= s[b]
  }

  lemma {:induction false} SumBump(h: seq<nat>, k: nat)
    requires k < |h|
    ensures Sum(h[k := h[k] + 1]) == Sum(h) + 1
  {
    var g := h[k := h[k] + 1];
    if k < |h| - 1 {
      assert g[..|g| - 1] == h[..|h| - 1][k := h[k] + 1];
      SumBump(h[..|h| - 1], k);
    } else {
      assert g[..|g| - 1] == h[..|h| - 1];
    }
  }

  /** Every value bumps exactly one slot, so the counts add up to the number of values. */
  lemma {:induction false} HistogramSum(s: seq<int>)
    requires AllIndexable(s)
    ensures Sum(Histogram(s)) == |s|
  {
    if s == [] {
      var z: seq<nat> := [0, 0, 0, 0, 0, 0];
      assert Sum(z[..1]) == 0 by { assert z[..1][..0] == []; }
      assert Sum(z[..2]) == 0 by { assert z[..2][..1] == z[..1]; }
      assert Sum(z[..3]) == 0 by { assert z[..3][..2] == z[..2]; }
      assert Sum(z[..4]) == 0 by { assert z[..4][..3] == z[..3]; }
      assert Sum(z[..5]) == 0 by { assert z[..5][..4] == z[..4]; }
      assert z[..6] == z;
    } else {
      var t := s[..|s| - 1];
      HistogramSum(t);
      SumBump(Histogram(t), Slot(s[|s| - 1]));
    }
  }

  /** Slot i holds the occurrences of i + 1 and, through the negative subscripts, those of i - 5. */
  lemma {:induction false} HistogramCounts(s: seq<int>)
    requires AllIndexable(s)
    ensures forall i :: 0 <= i < 6 ==> Histogram(s)[i] == multiset(s)[i + 1] + multiset(s)[i - 5]
  {
    if s != [] {
      var t, x := s[..|s| - 1], s[|s| - 1];
      assert s == t + [x];
      HistogramCounts(t);
    }
  }

  /** On faces 1..6, slot i holds exactly the occurrences of i + 1. */
  lemma HistogramOfFaces(s: seq<int>)
    requires AllFaces(s)
    ensures AllIndexable(s)
    ensures CountsOf(Histogram(s), s)
  {
    HistogramCounts(s);
    forall v | v <= 0
      ensures multiset(s)[v] == 0
    {
      assert forall j :: 0 <= j < |s| ==> s[j] != v;
      assert v !in s;
    }
  }

  /** The slots the resolver reads: slot 0 is the fury, slots 1..5 the energy, slots 4..5 the void dice. */
  lemma {:induction false} HistogramTallies(s: seq<int>)
    requires AllFaces(s)
    ensures AllIndexable(s)
    ensures var h := Histogram(s);
      && h[0] == CountBetween(s, 1, 1)
      && h[1] + h[2] + h[3] + h[4] + h[5] == CountBetween(s, 2, 6)
      && h[4] + h[5] == CountBetween(s, 5, 6)
  {
    if s != [] {
      HistogramTallies(s[..|s| - 1]);
    }
  }

  lemma {:induction false} RepeatCounts(v: int, n: nat)
    ensures forall x :: multiset(Repeat(v, n))[x] == if x == v then n else 0
  {
    if n > 0 {
      RepeatCounts(v, n - 1);
    }
  }

  /** The first i passes of the reconstruction emit Sum(count[..i]) values, count[j] copies of
      j + 1 for each j < i. */
  lemma {:induction false} ExpandUpToCounts(count: seq<nat>, i: nat)
    requires i <= |count|
    ensures |ExpandUpTo(count, i)| == Sum(count[..i])
    ensures forall v :: multiset(ExpandUpTo(count, i))[v] == if 1 <= v <= i then count[v - 1] else 0
  {
    if i > 0 {
      ExpandUpToCounts(count, i - 1);
      RepeatCounts(i, count[i - 1]);
      assert count[..i][..i - 1] == count[..i - 1];
    }
  }

  /** The first i passes of the reconstruction emit faces 1..i in ascending order. */
  lemma {:induction false} ExpandUpToSorted(count: seq<nat>, i: nat)
    requires i <= |count|
    ensures Sorted(ExpandUpTo(count, i))
    ensures forall j :: 0 <= j < |ExpandUpTo(count, i)| ==> 1 <= ExpandUpTo(count, i)[j] <= i
  {
    if i > 0 {
      ExpandUpToSorted(count, i - 1);
      var a, b := ExpandUpTo(count, i - 1), Repeat(i, count[i - 1]);
      assert ExpandUpTo(count, i) == a + b;
      forall x, y | 0 <= x < y < |a + b|
        ensures (a + b)[x] <= (a + b)[y]
      {
        if y < |a| {
          assert (a + b)[x] == a[x] && (a + b)[y] == a[y];
        } else if x < |a| {
          assert (a + b)[x] == a[x] && (a + b)[y] == b[y - |a|];
        } else {
          assert (a + b)[x] == b[x - |a|] && (a + b)[y] == b[y - |a|];
        }
      }
      forall j | 0 <= j < |a + b|
        ensures 1 <= (a + b)[j] <= i
      {
        if j < |a| {
          assert (a + b)[j] == a[j];
        } else {
          assert (a + b)[j] == b[j - |a|];
        }
      }
    }
  }

  /** The counting sort sorts faces: the output is ascending, as long as the input, a permutation
      of it, and the counts record each face's occurrences and add up to the number of dice. */
  lemma CountingSortSorts(s: seq<int>)
    requires AllFaces(s)
    ensures AllIndexable(s)
    ensures var h := Histogram(s);
      && Sum(h) == |s|
      && CountsOf(h, s)
      && |Expand(h)| == |s|
      && Sorted(Expand(h))
      && multiset(Expand(h)) == multiset(s)
  {
    HistogramOfFaces(s);
    HistogramSum(s);
    var h := Histogram(s);
    ExpandUpToCounts(h, 6);
    ExpandUpToSorted(h, 6);
    assert h[..6] == h;
    forall v
      ensures multiset(Expand(h))[v] == multiset(s)[v]
    {
      if !IsFace(v) {
        assert forall j :: 0 <= j < |s| ==> s[j] != v;
        assert v !in s;
      }
    }
    assert multiset(Expand(h)) == multiset(s);
  }

  /** Among the inputs that raise no IndexError, the counting sort returns a permutation of its
      input exactly when every value is a face: a 0 down to a -5 is counted as a 6 down to a 1. */
  lemma PermutationIffFaces(s: seq<int>)
    requires AllIndexable(s)
    ensures multiset(Expand(Histogram(s))) == multiset(s) <==> AllFaces(s)
  {
    if AllFaces(s) {
      CountingSortSorts(s);
    } else {
      var j :| 0 <= j < |s| && !IsFace(s[j]);
      var h := Histogram(s);
      ExpandUpToCounts(h, 6);
      assert s[j] in multiset(s);
      assert multiset(Expand(h))[s[j]] == 0;
    }
  }

  /** dice_basics.py:81 negates the pending count where its comment says it subtracts the dice
      just rolled. After a pass over the values s the pending count is therefore
      `-|s| + (slot 4 + slot 5)`, which is never positive: the loop stops after its first pass,
      even when every die showed 5 or 6, and the void dice it counts are never rolled. */
  lemma NegatedCountStopsLoop(s: seq<int>)
    requires AllFaces(s) && |s| > 0
    ensures AllIndexable(s)
    ensures var h := Histogram(s);
      && h[4] + h[5] == CountBetween(s, 5, 6)
      && -|s| + (h[4] + h[5]) <= 0
      && (-|s| + (h[4] + h[5]) == 0 <==> forall i :: 0 <= i < |s| ==> 5 <= s[i] <= 6)
  {
    HistogramTallies(s);
    CountAllIff(s, 5, 6);
  }

  class DicePool {
    var basicDicePool: int
    var voidDicePool: int
    var furyDicePool: int

    constructor ()
      ensures basicDicePool == 5 && voidDicePool == 0 && furyDicePool == 0
    {
      basicDicePool := 5;
      voidDicePool := 0;
      furyDicePool := 0;
    }

    /** `counting_sort`: bucket the values into a six-slot count list, then rebuild them in
        ascending order. A value outside -5..6 makes `count[num - 1]` raise IndexError. */
    static method CountingSort(rolledDiceValues: seq<int>) returns (r: Result<(seq<int>, seq<nat>)>)
      ensures r.Ok? <==> AllIndexable(rolledDiceValues)
      ensures r.Ok? ==> r.value.1 == Histogram(rolledDiceValues) && r.value.0 == Expand(r.value.1)
      ensures AllFaces(rolledDiceValues) ==>
        && r.Ok?
        && |r.value.0| == |rolledDiceValues|
        && Sorted(r.value.0)
        && multiset(r.value.0) == multiset(rolledDiceValues)
        && Sum(r.value.1) == |rolledDiceValues|
        && CountsOf(r.value.1, rolledDiceValues)
    {
      var count := new nat[6](_ => 0);
      var j := 0;
      while j < |rolledDiceValues|
        invariant 0 <= j <= |rolledDiceValues|
        invariant AllIndexable(rolledDiceValues[..j])
        invariant count[..] == Histogram(rolledDiceValues[..j])
      {
        var num := rolledDiceValues[j];
        if !Indexable(num) {
          return Err(IndexError);
        }
        assert rolledDiceValues[..j + 1][..j] == rolledDiceValues[..j];
        count[Slot(num)] := count[Slot(num)] + 1;
        j := j + 1;
      }
      assert rolledDiceValues[..j] == rolledDiceValues;
      var sortedArr: seq<int> := [];
      for i := 0 to 6
        invariant sortedArr == ExpandUpTo(count[..], i)
      {
        sortedArr := sortedArr + Repeat(i + 1, count[i]);
      }
      if AllFaces(rolledDiceValues) {
        CountingSortSorts(rolledDiceValues);
      }
      return Ok((sortedArr, count[..]));
    }

    /** `generate_values`: the next n draws of the random source, which starts at position p. */
    static function GenerateValues(draws: seq<int>, p: nat, n: int): (values: seq<int>)
      requires AllFaces(draws) && p + Iterations(n) <= |draws|
      ensures |values| == Iterations(n)
      ensures AllFaces(values)
      ensures forall i :: 0 <= i < |values| ==> values[i] == draws[p + i]
    {
      draws[p..p + Iterations(n)]
    }

    /** `roll_dice`: the counting sort of the next n draws. */
    static method RollDice(draws: seq<int>, p: nat, n: int) returns (diceRolls: seq<int>, faceCounts: seq<nat>)
      requires AllFaces(draws) && p + Iterations(n) <= |draws|
      ensures var v := GenerateValues(draws, p, n);
        && AllIndexable(v)
        && faceCounts == Histogram(v)
        && diceRolls == Expand(faceCounts)
        && |diceRolls| == Iterations(n)
        && Sorted(diceRolls)
        && multiset(diceRolls) == multiset(v)
    {
      var r := CountingSort(GenerateValues(draws, p, n));
      diceRolls, faceCounts := r.value.0, r.value.1;
    }

    /** `roll`: resolve the basic dice, drawing from position p on, and return the next position.
        Because of dice_basics.py:81 only the basic dice are rolled; the 5s and 6s among them are
        added to the void dice pool and to nothing else. */
    method Roll(draws: seq<int>, p: nat) returns (result: RollResult, q: nat)
      requires AllFaces(draws) && p + Iterations(basicDicePool) <= |draws|
      modifies this`voidDicePool
      ensures q == p + Iterations(basicDicePool)
      ensures var rolled := draws[p..q];
        && AllIndexable(rolled)
        && result.values == Expand(Histogram(rolled))
        && |result.values| == |rolled|
        && Sorted(result.values)
        && multiset(result.values) == multiset(rolled)
        && result.faces == (if basicDicePool > 0 then Histogram(rolled) else [])
        && result.energy == CountBetween(rolled, 2, 6)
        && result.fury == CountBetween(rolled, 1, 1)
        && voidDicePool == old(voidDicePool) + CountBetween(rolled, 5, 6)
    {
      ghost var rolled := draws[p..p + Iterations(basicDicePool)];
      HistogramTallies(rolled);
      var unrolledDice := basicDicePool;
      var pos := p;
      var rolledDicePool: seq<int> := [];
      var rolledDiceFaces: seq<nat> := [];
      var accumulatedEnergy := 0;
      var accumulatedFury := 0;
      ghost var passed := false;
      while unrolledDice > 0
        invariant !passed ==> unrolledDice == basicDicePool && pos == p
        invariant !passed ==> rolledDicePool == [] && rolledDiceFaces == []
        invariant !passed ==> accumulatedEnergy == 0 && accumulatedFury == 0
        invariant !passed ==> voidDicePool == old(voidDicePool)
        invariant passed ==> basicDicePool > 0 && unrolledDice <= 0 && pos == p + basicDicePool
        invariant passed ==> rolledDicePool == Expand(Histogram(rolled))
        invariant passed ==> rolledDiceFaces == Histogram(rolled)
        invariant passed ==> accumulatedEnergy == CountBetween(rolled, 2, 6)
        invariant passed ==> accumulatedFury == CountBetween(rolled, 1, 1)
        invariant passed ==> voidDicePool == old(voidDicePool) + CountBetween(rolled, 5, 6)
      {
        var subRoll, faces := RollDice(draws, pos, unrolledDice);
        assert GenerateValues(draws, pos, unrolledDice) == rolled;
        pos := pos + unrolledDice;
        rolledDicePool := rolledDicePool + subRoll;
        rolledDiceFaces := rolledDiceFaces + faces;

        unrolledDice := -unrolledDice;

        accumulatedEnergy := accumulatedEnergy + faces[1] + faces[2] + faces[3] + faces[4] + faces[5];
        accumulatedFury := accumulatedFury + faces[0];

        var addedVoidDice := faces[4] + faces[5];
        unrolledDice := unrolledDice + addedVoidDice;
        voidDicePool := voidDicePool + addedVoidDice;

        assert unrolledDice <= 0 by {
          NegatedCountStopsLoop(rolled);
        }
        passed := true;
      }
      q := pos;
      assert rolled == draws[p..q];
      if !passed {
        assert rolled == [];
        assert CountBetween(rolled, 2, 6) == 0 && CountBetween(rolled, 1, 1) == 0 && CountBetween(rolled, 5, 6) == 0;
      }
      assert |Expand(Histogram(rolled))| == |rolled| && Sorted(Expand(Histogram(rolled)))
        && multiset(Expand(Histogram(rolled))) == multiset(rolled) by {
        CountingSortSorts(rolled);
      }
      result := RollResult(rolledDicePool, rolledDiceFaces, accumulatedEnergy, accumulatedFury);
    }
  }
}
