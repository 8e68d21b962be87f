/** The recursive dice roller of the game window: every 4, 5 or 6 blows up into a chain of bonus
    dice, and each die adds energy or fury points to the player's state. */
module Dicey {
  import opened DiceFaces

  class PlayerState {
    var energy: int
    var furyPoints: int

    constructor (energy: int := 0, furyPoints: int := 0)
      ensures this.energy == energy && this.furyPoints == furyPoints
    {
      this.energy := energy;
      this.furyPoints := furyPoints;
    }
  }

  /** The faces on which a die blows up. */
  predicate Explodes(v: int) {
    4 <= v <= 6
  }

  /** A blow-up chain drawn from position p on meets a non-exploding draw before the draws run out. */
  predicate ChainEnds(d: seq<int>, p: nat)
    decreases |d| - p
  {
    p < |d| && (Explodes(d[p]) ==> ChainEnds(d, p + 1))
  }

  /** The dice of one blow-up chain drawn from position p on: the draws up to and including the
      first one that does not explode. */
  function Chain(d: seq<int>, p: nat): (c: seq<int>)
    requires ChainEnds(d, p)
    ensures 1 <= |c| && p + |c| <= |d|
    decreases |d| - p
  {
    if Explodes(d[p]) then [d[p]] + Chain(d, p + 1) else [d[p]]
  }

  /** A top-level draw at position p whose blow-up chain, if it has one, ends within the draws. */
  predicate TopLevelEnds(d: seq<int>, p: nat) {
    p < |d| && (Explodes(d[p]) ==> ChainEnds(d, p + 1))
  }

  /** The bonus dice that the top-level die drawn at position p brings along. */
  function BonusDice(d: seq<int>, p: nat): (c: seq<int>)
    requires TopLevelEnds(d, p)
    ensures p + 1 + |c| <= |d|
  {
    if Explodes(d[p]) then Chain(d, p + 1) else []
  }

  /** The top-level dice, the bonus dice and the position after the last draw used. */
  datatype Outcome = Outcome(values: seq<int>, temps: seq<int>, next: nat)

  /** The draws from position p on are enough for n top-level dice and all their chains. */
  predicate Enough(d: seq<int>, p: nat, n: nat)
    decreases n, 0
  {
    p <= |d| && (n > 0 ==> Enough(d, p, n - 1) && TopLevelEnds(d, Resolve(d, p, n - 1).next))
  }

  /** n top-level dice drawn from position p on, each 4, 5 or 6 followed at once by its chain:
      the outcome of the first n - 1 dice, then the next draw and its chain. */
  function Resolve(d: seq<int>, p: nat, n: nat): (o: Outcome)
    requires Enough(d, p, n)
    ensures |o.values| == n
    ensures o.next == p + |o.values| + |o.temps| <= |d|
    decreases n, 1
  {
    if n == 0 then Outcome([], [], p)
    else
      var o := Resolve(d, p, n - 1);
      var bonus := BonusDice(d, o.next);
      Outcome(o.values + [d[o.next]], o.temps + bonus, o.next + 1 + |bonus|)
  }

  /** The outcome of i + 1 dice extends that of i dice by the next draw and its chain. */
  lemma ResolveNext(d: seq<int>, p: nat, i: nat, values: seq<int>, temps: seq<int>, here: nat)
    requires Enough(d, p, i + 1) && Enough(d, p, i) && Resolve(d, p, i) == Outcome(values, temps, here)
    ensures TopLevelEnds(d, here)
    ensures Resolve(d, p, i + 1) ==
      Outcome(values + [d[here]], temps + BonusDice(d, here), here + 1 + |BonusDice(d, here)|)
  {
  }

  /** Draws enough for n dice are enough for any fewer. */
  lemma {:induction false} EnoughPrefix(d: seq<int>, p: nat, i: nat, n: nat)
    requires i <= n && Enough(d, p, n)
    ensures Enough(d, p, i)
    decreases n
  {
    if i < n {
      EnoughPrefix(d, p, i, n - 1);
    }
  }

  /** ChainEnds holds exactly when a draw in 1..3 lies ahead: the first of them ends the chain. */
  lemma {:induction false} ChainEndsIff(d: seq<int>, p: nat)
    requires AllFaces(d)
    ensures ChainEnds(d, p) <==> exists k :: p <= k < |d| && d[k] <= 3
    decreases |d| - p
  {
    if p < |d| {
      ChainEndsIff(d, p + 1);
      if d[p] <= 3 {
        assert ChainEnds(d, p);
      } else if exists k :: p <= k < |d| && d[k] <= 3 {
        var k :| p <= k < |d| && d[k] <= 3;
        assert p + 1 <= k;
      }
    }
  }

  /** A non-empty block of s is its first entry followed by the rest of the block. */
  lemma SliceCons(s: seq<int>, i: nat, j: nat)
    requires i < j <= |s|
    ensures s[i..j] == [s[i]] + s[i + 1..j]
  {
  }

  /** A chain is the block of draws from p on, in the order drawn. */
  lemma {:induction false} ChainIsSlice(d: seq<int>, p: nat)
    requires ChainEnds(d, p)
    ensures Chain(d, p) == d[p..p + |Chain(d, p)|]
    decreases |d| - p
  {
    if Explodes(d[p]) {
      var c, rest := Chain(d, p), Chain(d, p + 1);
      ChainIsSlice(d, p + 1);
      SliceCons(d, p, p + 1 + |rest|);
      assert c == [d[p]] + rest && |c| == 1 + |rest|;
    } else {
      assert d[p..p + 1] == [d[p]];
    }
  }

  /** A chain runs up to and including the first draw that does not explode: every die of it
      but the last explodes, and the last does not. */
  lemma {:induction false} ChainIsRun(d: seq<int>, p: nat)
    requires ChainEnds(d, p)
    ensures var c := Chain(d, p);
      (forall i :: 0 <= i < |c| - 1 ==> Explodes(c[i])) && !Explodes(c[|c| - 1])
    decreases |d| - p
  {
    if Explodes(d[p]) {
      ChainIsRun(d, p + 1);
      var c, rest := Chain(d, p), Chain(d, p + 1);
      assert c == [d[p]] + rest;
      assert forall i :: 1 <= i < |c| ==> c[i] == rest[i - 1];
    }
  }

  /** Every die of a chain but its last shows 4, 5 or 6; the last shows 1, 2 or 3, so a chain
      holds exactly one die in 1..3. */
  lemma {:induction false} ChainShape(d: seq<int>, p: nat)
    requires AllFaces(d) && ChainEnds(d, p)
    ensures var c := Chain(d, p);
      && AllFaces(c)
      && (forall i :: 0 <= i < |c| - 1 ==> 4 <= c[i] <= 6)
      && 1 <= c[|c| - 1] <= 3
      && CountBetween(c, 1, 3) == 1
      && CountBetween(c, 4, 6) == |c| - 1
    decreases |d| - p
  {
    var c := Chain(d, p);
    if Explodes(d[p]) {
      var rest := Chain(d, p + 1);
      ChainShape(d, p + 1);
      assert c == [d[p]] + rest;
      CountAppend([d[p]], rest, 1, 3);
      CountAppend([d[p]], rest, 4, 6);
      assert CountBetween([d[p]], 1, 3) == 0 && CountBetween([d[p]], 4, 6) == 1 by {
        assert [d[p]][..0] == [];
      }
      assert forall i :: 1 <= i < |c| ==> c[i] == rest[i - 1];
    } else {
      assert c == [d[p]];
      assert CountBetween(c, 1, 3) == 1 && CountBetween(c, 4, 6) == 0 by {
        assert c[..0] == [];
      }
    }
  }

  /** A top-level die at position p and its bonus dice are the next draws. */
  lemma BonusDiceAreRun(d: seq<int>, p: nat)
    requires TopLevelEnds(d, p)
    ensures d[p..p + 1 + |BonusDice(d, p)|] == [d[p]] + BonusDice(d, p)
  {
    if Explodes(d[p]) {
      ChainIsSlice(d, p + 1);
    }
  }

  /** A top-level die brings one bonus die in 1..3 when it shows 4..6, and none otherwise. */
  lemma BonusDiceCounts(d: seq<int>, p: nat)
    requires AllFaces(d) && TopLevelEnds(d, p)
    ensures CountBetween(BonusDice(d, p), 1, 3) == CountBetween([d[p]], 4, 6)
    ensures AllFaces(BonusDice(d, p))
  {
    assert [d[p]][..0] == [];
    if Explodes(d[p]) {
      ChainShape(d, p + 1);
    }
  }

  /** A block of s splits at any position inside it. */
  lemma SliceSplit(s: seq<int>, i: nat, j: nat, k: nat)
    requires i <= j <= k <= |s|
    ensures s[i..k] == s[i..j] + s[j..k]
  {
  }

  /** Consuming one more block of draws, a die c and its chain, adds both to the tally. */
  lemma ConsumeStep(consumed: seq<int>, block: seq<int>, values: seq<int>, temps: seq<int>,
                    c: int, chain: seq<int>, values': seq<int>, temps': seq<int>)
    requires multiset(consumed) == multiset(values) + multiset(temps)
    requires block == [c] + chain && values' == values + [c] && temps' == temps + chain
    ensures multiset(consumed + block) == multiset(values') + multiset(temps')
  {
  }

  /** Drawing the top-level die at position here and its chain adds both to the tally of the
      draws consumed from p on. */
  lemma ConsumeBlock(d: seq<int>, p: nat, here: nat, values: seq<int>, temps: seq<int>,
                     o: Outcome)
    requires p <= here && TopLevelEnds(d, here)
    requires multiset(d[p..here]) == multiset(values) + multiset(temps)
    requires o.values == values + [d[here]] && o.temps == temps + BonusDice(d, here)
    requires o.next == here + 1 + |BonusDice(d, here)|
    ensures multiset(d[p..o.next]) == multiset(o.values) + multiset(o.temps)
  {
    BonusDiceAreRun(d, here);
    SliceSplit(d, p, here, o.next);
    ConsumeStep(d[p..here], d[here..o.next], values, temps, d[here], BonusDice(d, here),
                o.values, o.temps);
  }

  /** The draws consumed are exactly the dice recorded. */
  lemma {:induction false} ResolveConsumes(d: seq<int>, p: nat, n: nat)
    requires Enough(d, p, n)
    ensures var o := Resolve(d, p, n);
      multiset(d[p..o.next]) == multiset(o.values) + multiset(o.temps)
    decreases n
  {
    if n > 0 {
      var prev := Resolve(d, p, n - 1);
      ResolveConsumes(d, p, n - 1);
      ConsumeBlock(d, p, prev.next, prev.values, prev.temps, Resolve(d, p, n));
    }
  }

  /** Every die recorded is a face when every draw is. */
  lemma {:induction false} ResolveFaces(d: seq<int>, p: nat, n: nat)
    requires AllFaces(d) && Enough(d, p, n)
    ensures AllFaces(Resolve(d, p, n).values) && AllFaces(Resolve(d, p, n).temps)
    decreases n
  {
    if n > 0 {
      var prev := Resolve(d, p, n - 1);
      ResolveFaces(d, p, n - 1);
      BonusDiceCounts(d, prev.next);
      assert IsFace(d[prev.next]);
      FacesAppend(prev.values, [d[prev.next]]);
      FacesAppend(prev.temps, BonusDice(d, prev.next));
    }
  }

  /** One chain per blown-up top-level die: the bonus dice in 1..3 are as many as the top-level
      dice in 4..6. */
  lemma {:induction false} OneChainPerBlowUp(d: seq<int>, p: nat, n: nat)
    requires AllFaces(d) && Enough(d, p, n)
    ensures var o := Resolve(d, p, n);
      CountBetween(o.temps, 1, 3) == CountBetween(o.values, 4, 6)
    decreases n
  {
    if n > 0 {
      var prev := Resolve(d, p, n - 1);
      OneChainPerBlowUp(d, p, n - 1);
      CountAppend(prev.values, [d[prev.next]], 4, 6);
      CountAppend(prev.temps, BonusDice(d, prev.next), 1, 3);
      BonusDiceCounts(d, prev.next);
    }
  }

  /** Every die drawn adds one energy or one fury point: the draws consumed equal the energy plus
      the fury gained. */
  lemma DrawsMatchGains(d: seq<int>, p: nat, n: nat)
    requires AllFaces(d) && Enough(d, p, n)
    ensures var o := Resolve(d, p, n);
      o.next - p ==
        CountBetween(o.values, 2, 6) + CountBetween(o.temps, 2, 6) +
        CountBetween(o.values, 1, 1) + CountBetween(o.temps, 1, 1)
  {
    ResolveFaces(d, p, n);
    var o := Resolve(d, p, n);
    EnergyPlusFury(o.values);
    EnergyPlusFury(o.temps);
  }

  /** Recording one more top-level die v and its chain adds their tallies. */
  lemma GainsStep(values: seq<int>, temps: seq<int>, v: int, chain: seq<int>, lo: int, hi: int)
    ensures CountBetween(values + [v], lo, hi) + CountBetween(temps + chain, lo, hi) ==
      CountBetween(values, lo, hi) + CountBetween(temps, lo, hi) + (if lo <= v <= hi then 1 else 0) +
      CountBetween(chain, lo, hi)
  {
    CountAppend(temps, chain, lo, hi);
  }

  /** `handle_blow_up`: draw one bonus die at position p and, while the draws blow up, keep
      drawing; returns the chain and the position after it. */
  method HandleBlowUp(playerState: PlayerState, d: seq<int>, p: nat) returns (tempDice: seq<int>, q: nat)
    requires ChainEnds(d, p)
    modifies playerState
    ensures tempDice == Chain(d, p) && q == p + |tempDice|
    ensures playerState.energy == old(playerState.energy) + CountBetween(tempDice, 2, 6)
    ensures playerState.furyPoints == old(playerState.furyPoints) + CountBetween(tempDice, 1, 1)
    decreases |d| - p
  {
    tempDice := [];
    var value := d[p];
    q := p + 1;
    tempDice := tempDice + [value];
    if value in {2, 3} {
      playerState.energy := playerState.energy + 1;
    } else if value in {4, 5} {
      playerState.energy := playerState.energy + 1;
      var more;
      more, q := HandleBlowUp(playerState, d, q);
      CountAppend(tempDice, more, 2, 6);
      CountAppend(tempDice, more, 1, 1);
      tempDice := tempDice + more;
    } else if value == 1 {
      playerState.furyPoints := playerState.furyPoints + 1;
    } else if value == 6 {
      playerState.energy := playerState.energy + 1;
      var more;
      more, q := HandleBlowUp(playerState, d, q);
      CountAppend(tempDice, more, 2, 6);
      CountAppend(tempDice, more, 1, 1);
      tempDice := tempDice + more;
    }
  }

  /** One turn of the loop of `roll_dice`: draw the top-level die at position q, append it to
      diceValues, score it and, on a 4, 5 or 6, blow it up and append the chain to temporaryDice;
      returns both lists and the position after the draws used. */
  method RollTopLevelDie(playerState: PlayerState, d: seq<int>, diceValues: seq<int>,
                         temporaryDice: seq<int>, q: nat)
    returns (diceValues': seq<int>, temporaryDice': seq<int>, q': nat)
    requires TopLevelEnds(d, q)
    modifies playerState
    ensures diceValues' == diceValues + [d[q]]
    ensures temporaryDice' == temporaryDice + BonusDice(d, q)
    ensures q' == q + 1 + |BonusDice(d, q)|
    ensures playerState.energy ==
      old(playerState.energy) + (if 2 <= d[q] <= 6 then 1 else 0) + CountBetween(BonusDice(d, q), 2, 6)
    ensures playerState.furyPoints ==
      old(playerState.furyPoints) + (if d[q] == 1 then 1 else 0) + CountBetween(BonusDice(d, q), 1, 1)
  {
    var value := d[q];
    q' := q + 1;
    diceValues' := diceValues + [value];
    temporaryDice' := temporaryDice;
    if value == 1 {
      playerState.furyPoints := playerState.furyPoints + 1;
    } else if value in {2, 3} {
      playerState.energy := playerState.energy + 1;
    } else if value in {4, 5} {
      playerState.energy := playerState.energy + 1;
      var more;
      more, q' := HandleBlowUp(playerState, d, q');
      temporaryDice' := temporaryDice' + more;
    } else if value == 6 {
      playerState.energy := playerState.energy + 1;
      var more;
      more, q' := HandleBlowUp(playerState, d, q');
      temporaryDice' := temporaryDice' + more;
    }
  }

  /** `roll_dice`: roll diceCount dice from position p on, blowing up every 4, 5 and 6; returns
      the top-level dice, the bonus dice and the position after the last draw used. A diceCount
      of 0 or less rolls nothing, as Python's range does. */
  method RollDice(diceCount: int, playerState: PlayerState, d: seq<int>, p: nat)
    returns (diceValues: seq<int>, temporaryDice: seq<int>, q: nat)
    requires p <= |d| && (diceCount > 0 ==> Enough(d, p, diceCount))
    modifies playerState
    ensures diceCount <= 0 ==> diceValues == [] && temporaryDice == [] && q == p
    ensures diceCount > 0 ==> Resolve(d, p, diceCount) == Outcome(diceValues, temporaryDice, q)
    ensures playerState.energy ==
      old(playerState.energy) + CountBetween(diceValues, 2, 6) + CountBetween(temporaryDice, 2, 6)
    ensures playerState.furyPoints ==
      old(playerState.furyPoints) + CountBetween(diceValues, 1, 1) + CountBetween(temporaryDice, 1, 1)
  {
    diceValues, temporaryDice, q := [], [], p;
    var i: nat := 0;
    while i < diceCount
      invariant i <= diceCount || i == 0
      invariant Enough(d, p, i) && Resolve(d, p, i) == Outcome(diceValues, temporaryDice, q)
      invariant playerState.energy ==
        old(playerState.energy) + CountBetween(diceValues, 2, 6) + CountBetween(temporaryDice, 2, 6)
      invariant playerState.furyPoints ==
        old(playerState.furyPoints) + CountBetween(diceValues, 1, 1) + CountBetween(temporaryDice, 1, 1)
    {
      EnoughPrefix(d, p, i + 1, diceCount);
      ResolveNext(d, p, i, diceValues, temporaryDice, q);
      GainsStep(diceValues, temporaryDice, d[q], BonusDice(d, q), 2, 6);
      GainsStep(diceValues, temporaryDice, d[q], BonusDice(d, q), 1, 1);
      diceValues, temporaryDice, q := RollTopLevelDie(playerState, d, diceValues, temporaryDice, q);
      i := i + 1;
    }
  }
}
