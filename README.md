# Dicey: dice resolution, modelled and verified in Dafny

This project models the dice-resolution core of *dicey*, a small Python dice game, and proves
properties of that model. The game has two resolvers and the model covers both as written:

- **`DicePool` (dice_basics.py)**: a bucketed resolver.
  - `counting_sort` buckets a batch of values into a six-slot count list and rebuilds it in
    ascending order.
  - `roll` rolls the basic dice and scores the batch from the buckets. Each 2+ gives one energy,
    each 1 gives one fury, and each 5 or 6 adds one to the persistent void dice pool.
- **`roll_dice` / `handle_blow_up` (dicey.py)**: a recursive resolver.
  - Every 4, 5 or 6 blows up into a chain of bonus dice, and the chain keeps drawing while the
    draws are 4..6.
  - Every die scores into a mutable `PlayerState`: one fury point on a 1, one energy on 2..6.

Randomness is an explicit input. The dice are read from a sequence of draws `d` starting at a
position `p`, and every method returns the position after the draws it used. `AllFaces(d)` says
every draw lies in 1..6, the range of `random.randint(1, 6)`.

Files:

- `faces.dfy`, module `DiceFaces`: faces and the tallies `CountBetween(s, lo, hi)` that both
  resolvers keep.
- `dice_basics.dfy`, module `DiceBasics`: `RollResult` and the class `DicePool`.
  - `CountingSort` runs over a six-slot array.
  - `Roll` is a `while` loop that updates the `voidDicePool` field.
- `dicey.dfy`, module `Dicey`: the class `PlayerState` and two methods that update its fields.
  - `HandleBlowUp` is recursive; its termination measure is the number of draws left.
  - `RollDice` is a loop.

Each method is proved against its specification function:

- the counting sort against `Histogram` and `Expand`;
- `handle_blow_up` against `Chain`;
- `roll_dice` against `Resolve`, whose definition reads: the outcome of the first n − 1 dice,
  then the next draw, then its chain if it blows up.

Two preconditions stand in for an endless random source and say that the draws suffice:

- `ChainEnds(d, p)`: a non-exploding draw lies ahead.
- `Enough(d, p, n)`: every top-level die and every chain of the n dice fits within `d`.

`ChainEndsIff` shows that `ChainEnds` holds exactly when some draw in 1..3 lies ahead.

Where the code and its own comments disagree, the model follows the code:

- **Void dice are never rolled.** The comments at dice_basics.py:65-67 and :80 say the pending
  count decreases by the dice just rolled and grows by the dice added, so the void dice would be
  rolled in a further pass. dice_basics.py:81 negates the pending count instead, so the loop of
  `roll` stops after its first pass.
  - `NegatedCountStopsLoop` proves this.
  - `DicePool.Roll` states the resulting behaviour: exactly the basic dice are rolled, and their
    5s and 6s only raise `voidDicePool`.

Other behaviour of the code that the model keeps:

- The two files use different thresholds, and each keeps its own. dicey.py blows up on 4+
  (dicey.py:26-31, 41-43). dice_basics.py counts 5+ as void dice (dice_basics.py:93), as its
  comments at dice_basics.py:3 and :92 say.
- `counting_sort` raises IndexError for a value outside -5..6. Values -5..0 wrap around through
  Python's negative subscripts. `CountingSort` models both, and `PermutationIffFaces` gives the
  consequence.
- A negative dice count rolls nothing, as Python's `range` does.

## Model

| member | source | states |
|---|---|---|
| DiceBasics.DicePool.constructor | dice_basics.py:27-30 | A new pool holds 5 basic dice, 0 void dice and 0 fury dice. |
| DiceBasics.DicePool.CountingSort | dice_basics.py:33-50 | The sort fails with IndexError exactly when some value lies outside -5..6. Otherwise it returns the count list of the values and their ascending reconstruction. On faces 1..6 it succeeds, and the output is ascending, as long as the input, a permutation of it (same multiset), and the counts give each face's occurrences and sum to the input length. |
| DiceBasics.Repeat | dice_basics.py:47 | `[v] * n` has length n and every entry equal to v. |
| DiceBasics.RepeatCounts | dice_basics.py:47 | `[v] * n` holds v n times and nothing else. |
| DiceBasics.HistogramSum | dice_basics.py:35-41 | For any input that raises no IndexError, the six counts add up to the number of values. |
| DiceBasics.HistogramCounts | dice_basics.py:38-41 | Slot i counts the occurrences of i + 1 and, through the wrap-around of negative subscripts, those of i − 5. |
| DiceBasics.HistogramOfFaces | dice_basics.py:34-41 | On faces 1..6, slot i holds exactly the occurrences of i + 1. |
| DiceBasics.Histogram | dice_basics.py:34-41 | The count list built by bumping `count[num - 1]` once per value, in order, has six slots. |
| DiceBasics.Expand | dice_basics.py:43-48 | Rebuilding from a six-slot count list emits as many values as the counts add up to. |
| DiceBasics.ExpandUpToCounts | dice_basics.py:43-48 | After the first i reconstruction passes, the output length is the sum of the first i counts, and each face j ≤ i appears count[j − 1] times; no other value appears. |
| DiceBasics.ExpandUpToSorted | dice_basics.py:43-48 | After the first i reconstruction passes, the output is ascending and lies within 1..i. |
| DiceBasics.CountingSortSorts | dice_basics.py:33-50 | On faces 1..6: the counts sum to the length and record each face's occurrences, and the reconstruction is ascending, equally long, and a permutation of the input. |
| DiceBasics.PermutationIffFaces | dice_basics.py:39-41 | Among inputs that raise no IndexError, the output is a permutation of the input if and only if every value is in 1..6. |
| DiceBasics.HistogramTallies | dice_basics.py:86-93 | On faces, slot 0 counts the 1s, slots 1..5 together count the values in 2..6, and slots 4..5 count the 5s and 6s. |
| DiceBasics.NegatedCountStopsLoop | dice_basics.py:74-94 | After one pass over a non-empty batch, the negated pending count plus the added void dice is never positive. It is zero exactly when every die showed 5 or 6. Either way the loop ends after its first pass. |
| DiceBasics.DicePool.GenerateValues | dice_basics.py:53-54 | Returns exactly max(n, 0) values, each in 1..6, namely the next draws in order. |
| DiceBasics.DicePool.RollDice | dice_basics.py:56-59 | Returns the count list and sorted list of the next n draws. The sorted list is ascending, has max(n, 0) entries, and is a permutation of those draws. |
| DiceBasics.DicePool.Roll | dice_basics.py:61-102 | Consumes exactly the basic dice. Values are the sorted basic dice: ascending, one per basic die, a permutation of the draws. Faces is their six-slot count list, or empty when the pool is 0 or less. Energy is the number of 2+ dice and fury the number of 1s. The void pool grows by exactly the number of 5s and 6s; the basic and fury pools are unchanged. |
| DiceFaces.EnergyPlusFury | dice_basics.py:86-90 | On faces, every die is counted once, as energy (2..6) or as fury (1): energy + fury = number of dice. |
| DiceFaces.CountAppend | dicey.py:28 | Tallies of a concatenation are the sums of the tallies of its parts, as when `extend` appends a chain. |
| Dicey.PlayerState.constructor | dicey.py:10-13 | A player state holds the given energy and fury points, both 0 by default. |
| Dicey.Chain | dicey.py:35-49 | A blow-up chain has at least one die and fits within the draws. |
| Dicey.ChainEndsIff | dicey.py:35-49 | On faces, a blow-up chain from position p ends within the draws if and only if some draw from p on shows 1..3. |
| Dicey.ChainIsSlice | dicey.py:37-38 | A chain is the block of draws from its start position, in the order drawn. |
| Dicey.ChainIsRun | dicey.py:39-48 | Every die of a chain but the last shows 4..6, and the last does not. |
| Dicey.ChainShape | dicey.py:39-48 | On faces: all but the last die show 4..6, the last shows 1..3, and the chain holds exactly one die in 1..3 and one fewer die in 4..6 than its length. |
| Dicey.BonusDice | dicey.py:22-31 | The bonus dice of a top-level die fit within the draws that follow it. |
| Dicey.BonusDiceAreRun | dicey.py:20-31 | A top-level die and its bonus dice are the next block of draws, in order. |
| Dicey.BonusDiceCounts | dicey.py:26-31 | On faces, a top-level die brings along exactly one bonus die in 1..3 when it shows 4..6 and none in 1..3 otherwise, and its bonus dice are faces. |
| Dicey.Resolve | dicey.py:16-32 | n top-level dice give exactly n dice values. The draws consumed are those values plus the bonus dice and fit within the draws. |
| Dicey.ResolveConsumes | dicey.py:16-32 | The draws consumed are, as a multiset, exactly the top-level dice plus the bonus dice. |
| Dicey.ResolveFaces | dicey.py:19-38 | On faces, every top-level die and every bonus die is a face. |
| Dicey.OneChainPerBlowUp | dicey.py:26-31 | The bonus dice hold as many values in 1..3 as the top-level dice hold values in 4..6: one chain per blown-up die. |
| Dicey.DrawsMatchGains | dicey.py:20-31 | On faces, the number of draws consumed equals the energy plus the fury points gained. |
| Dicey.HandleBlowUp | dicey.py:35-49 | Returns the chain drawn from p and the position after it. Energy rises by the chain's dice in 2..6 and fury points by its 1s. |
| Dicey.RollTopLevelDie | dicey.py:20-31 | Appends the next draw to the dice values and its bonus dice to the temporary dice. Energy rises by one if the draw is 2..6, plus the chain's dice in 2..6; fury rises by one if the draw is 1, plus the chain's 1s. |
| Dicey.RollDice | dicey.py:16-32 | A count of 0 or less returns two empty lists and changes nothing. Otherwise the dice values, the temporary dice and the position reached are exactly `Resolve` of that many dice. In every case energy rises by the number of dice in 2..6 across both lists and fury points by the number of 1s across both. |

## Left out

- The pygame window, event loop and drawing (`main`, `draw_dice`, `draw_individual_dice`) and the layout dataclass `DiceDrawDeets`: user interface and I/O with floating-point geometry.
- The `random` module: it becomes an explicit sequence of draws. Neither the distribution of results nor almost-sure termination of the blow-up chains is modelled. `ChainEnds` and `Enough` require the given draws to suffice; a Python run with an endless source has no such precondition.
- Dicey.HandleBlowUp: deep chains that would exhaust Python's recursion limit are not modelled; the model's recursion is bounded only by the draws.
- Dicey.RollTopLevelDie: the body of the loop of `roll_dice`, split out as a method of its own. It appends the same values, in the same order, as the inline loop body.
- The fury dice and the effects of fury and void dice described in the header comments of dice_basics.py: no code implements them. `furyDicePool` is only initialised and left unchanged.
- dice_basics.py:81 is modelled as written, not corrected. The void dice it adds are never rolled.
- Integer width: Python integers are unbounded, so the model's unbounded `int` and `nat` need no wrap-around.
