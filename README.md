# Memory flip: a verified model of the game core

A Dafny model of the game logic of `script.js`, a browser memory-matching
card game. An n-by-n grid of face-down cards is dealt. The player turns up
two cards at a time. A matching pair stays face up; otherwise both cards
turn back. The game ends when every pair is found, and the best run per
grid size (lowest time, then fewest moves) is kept.

The model has four modules:

- `Wrappers` (`wrappers.dfy`): the `Option` type used for the source's
  `null`-able picks and missing records.
- `Deck` (`deck.dfy`): the grid arithmetic of `setGrid`, face generation
  (`generateFaces`), deck construction (`buildBoard`), and the in-place
  Fisher–Yates shuffle (`shuffleArray`, Knuth's Algorithm P) on an `array`.
  The shuffle's random index at step `i` is a supplied draw in `[0, i]`. The
  shuffle is specified by the function `Shuffled`. It is proved to return a
  permutation of its input, and every permutation is shown to be reachable
  by some valid draws. Each face id below `pairsTotal` occurs exactly twice
  in the deck, both before and after the shuffle.
- `Records` (`records.dfy`): the best-record test and update of
  `finishGame`. The store is a map from grid size to a `(time, moves)`
  record, with time in whole tenths of a second.
- `Game` (`session.dfy`): the page's module-level state as a class
  `Session`. The per-card `flipped` and `matched` classes are two boolean
  arrays, and a pick is a card index. `Click` models `onCardClick`.
  `Resolve` models the two delayed bodies that `onCardClick` schedules, and
  each body is its own method (`ResolveMatch`, `ResolveMismatch`). The class
  also has `ResetPick`, `ResetStats`, `FinishGame`, `BuildBoard` and
  `StartGame`, and its constructor is the page load. The invariant `Valid()`
  states the following:
  - matched cards are a subset of flipped cards;
  - the flipped, unmatched cards are exactly the picks, so at most two;
  - `lock` holds exactly when a second card has been picked;
  - `2*found` equals the number of matched cards;
  - `found <= pairsTotal`;
  - the board has `n*n == 2*pairsTotal` cards with every id exactly twice.

The constructor and `StartGame` are proved to establish this invariant, and
`Click` and `Resolve` to keep it. `ResetPick`, `ResetStats` and `FinishGame`
are the source's helpers; they state only the fields they change.

The records the browser's storage already holds when the page loads are a
parameter of the constructor. Randomness is a parameter too. It supplies the colour of each face (in place of
`randColor`) and the draws of the shuffle (in place of `Math.random`). The
displayed elapsed time that `finishGame` reads is an input to `Resolve`.

## Model

| member | source | states |
|---|---|---|
| `Deck.SetGrid` | script.js:24-27 | an n-by-n grid has `n*n` cards; for even `n`, `pairsTotal` is exactly half of that |
| `Deck.GenerateFaces` | script.js:41-56 | `pairsTotal` faces with ids `0..pairsTotal-1`; the emoji style is used iff the box is checked and `gridSize <= 8`, with glyph `emojis[i % 59]`; otherwise every face gets its supplied colour |
| `Deck.BuildDeck` | script.js:69-73 | the deck has `2*|faces|` cards, and card `k` is face `k/2`, so each face is pushed twice in order |
| `Deck.DoubledHasPairs` | script.js:69-73 | doubling faces `0..p-1` gives a deck in which each id below `p` occurs exactly twice and no other id occurs |
| `Deck.ShuffleArray` | script.js:58-63 | the array ends equal to `Shuffled` of its old contents, with the same multiset of elements |
| `Deck.ShuffleStepsPermutes` | script.js:59-62 | each run of the loop's steps `i..1`, swapping position `i` with a draw in `[0, i]`, keeps the length and the multiset |
| `Deck.ShuffledPermutes` | script.js:58-63 | the whole shuffle returns a permutation of its input |
| `Deck.ShuffleStepsIds` | script.js:58-63 | shuffling cards and then reading their ids gives the same sequence as shuffling the ids |
| `Deck.ShuffledHasPairs` | script.js:65-74 | the shuffled deck still holds every id below `pairsTotal` exactly twice |
| `Deck.ShuffleStepsReadsDrawsUpTo` | script.js:59-61 | steps `i..1` depend only on the draws of those steps |
| `Deck.ShuffleStepsReaches` | script.js:59-62 | if the positions above `i` are already in place, any rearrangement of the first `i+1` elements can be reached by some valid draws |
| `Deck.ShuffledReachesEvery` | script.js:58-63 | every permutation of the input is the result of the shuffle for some valid draws |
| `Deck.PermutationKeepsStyles` | script.js:65-74 | rearranging the deck keeps every card's style as `generateFaces` gave it to its id |
| `Deck.DoubledFaces` | script.js:41-56 | the unshuffled deck (the generated faces, each pushed twice in order; lines 68-73) has `2*pairsTotal` cards, every id below `pairsTotal` exactly twice, and every card in its generated style |
| `Deck.NewDeck` | script.js:65-74 | the deck `buildBoard` deals is exactly `Shuffled(DoubledFaces(..), draws)`: `2*pairsTotal` cards, every id exactly twice, and each card in the style `generateFaces` gives its id |
| `Deck.TwoPairDeal` | script.js:58-74 | on a 2-by-2 board the draws 3, 1, 1 (steps 3, 2, 1) deal the ids in the order 0, 1, 0, 1 |
| `Records.LookupAfterRecord` | script.js:164-171 | after `finishGame`'s update, the record `showBest` reads for the size exists, is no worse than the run just finished and than the earlier record, and is one of the two; lookups for other sizes are unchanged |
| `Records.RecordIfBetter` | script.js:164-170 | the record is replaced (and "improved" reported) iff none is stored or the candidate is lexicographically strictly better on (time, moves); otherwise the store is unchanged; afterwards the stored record is no worse than the candidate |
| `Records.RecordAllIsBest` | script.js:164-170 | after any series of finished runs of one size, the stored record is no worse than each run and no worse than the earlier record; it is one of the runs or that earlier record; other sizes are untouched |
| `Game.CountTrue` | script.js:124-126 | the number of set flags never exceeds the number of cards |
| `Game.CountTrueSet` | script.js:124-126 | marking one more card matched raises the matched count by exactly one |
| `Game.CountTrueFull` | script.js:129 | the count equals the number of cards iff every flag is set |
| `Game.Session.AtMostTwoPending` | script.js:107-119 | in every valid state at most two cards are flipped and unmatched |
| `Game.Session.CompleteIffAllMatched` | script.js:126-129 | `found == pairsTotal` holds iff every card is matched |
| `Game.Session.constructor` | script.js:12-22 | the globals' initial values, then `setGrid(4)` and `startGame` (lines 219-220): a valid, idle 16-card board dealt as `Shuffled(DoubledFaces(8, 4, ..), draws)`, with all counters at zero, and the records kept from earlier visits as the store |
| `Game.Session.BuildBoard` | script.js:65-104 | the cards are the deal `Shuffled(DoubledFaces(..), draws)`: `2*pairsTotal` cards with every id twice, every card face down and unmatched |
| `Game.Session.ResetStats` | script.js:189-195 | `moves` and `found` become 0 and the timer stops |
| `Game.Session.FreshBoardValid` | script.js:197-202 | a freshly dealt board with nothing turned, no pick and no pair found satisfies the session invariant |
| `Game.Session.StartGame` | script.js:197-202 | from the idle state: a valid new session on an `n*n` board dealt as `Shuffled(DoubledFaces(..), draws)`, with every card face down, no picks, zero moves and found pairs, the timer stopped, and the records kept |
| `Game.Session.Click` | script.js:107-120 | a click while locked or on a matched or face-up card changes nothing (this includes the first pick); a first pick flips the card, records it, starts the timer iff `moves == 0 && found == 0`, and leaves `moves` alone; a second pick flips the card, sets `lock`, and adds exactly one move; the invariant is kept |
| `Game.Session.ResetPick` | script.js:140-142 | both picks are cleared and `lock` is released; nothing else changes |
| `Game.Session.FinishGame` | script.js:161-170 | the timer stops, and the store and the "improved" flag are those of `RecordIfBetter` for `(elapsed, moves)` under the current grid size |
| `Game.Session.Resolve` | script.js:122-137 | equal ids mark both picks matched and add exactly one found pair; different ids turn both picks face down and leave `found` unchanged; either way the picks are cleared and the lock released; the game finishes iff `found` reaches `pairsTotal`, iff every card is matched, and only on a match, and then the record step of `finishGame` runs |
| `Game.Session.ResolveMatch` | script.js:123-130 | the match body: both picks become matched, `found` rises by one, the pick is reset, and `finishGame` runs exactly when `found == pairsTotal` |
| `Game.Session.ResolveMismatch` | script.js:132-136 | the mismatch body: both picks turn face down, the pick is reset, and the game is not complete |
| `Game.Turn` | script.js:107-137 | two clicks on different face-down cards and then the resolution: one move, and a pair found iff the ids are equal |
| `Game.TwoPairFromStart` | script.js:197-202 | `startGame(2)` with the draws that deal A, B, A, B, then that game: three moves, both pairs found, the run offered to the store under size 2 |
| `Game.TwoPairGame` | script.js:107-142 | the 2-by-2 game with deck A, B, A, B played 0/1, 0/2, 1/3 ends after three moves with both pairs found and the run offered to the store |

## Left out

- DOM work (creating card elements, `innerHTML`, class toggling on elements, CSS variables, the card-size brackets at script.js:28-31 and 76-102) is presentation. The `flipped` and `matched` classes are modelled as boolean arrays.
- `showBest` (script.js:177-187) only displays the stored record. Its lookup is `Records.Lookup`, and `Records.LookupAfterRecord` states what it reads after a finished game.
- `randColor` (script.js:34-39) and `Math.random`: colours and shuffle draws are supplied. The HSL ranges of `randColor` are not modelled. Uniformity of the shuffle is a probabilistic claim and cannot be stated here; the model proves that the result is a permutation and that every permutation is reachable.
- The timer (`startTimer`, `stopTimer`, `performance.now`, `requestAnimationFrame`, `toFixed`, `parseFloat(...) || 0`, script.js:144-159 and 163) is reduced to a `timerRunning` flag. The final time is an input in whole tenths of a second.
- `setTimeout` scheduling and its delays (400 ms, 700 ms, 200 ms) are not modelled. Resolution is the explicit step `Resolve`, callable only while `lock` holds. The completion `alert` is not modelled.
- `localStorage` JSON serialisation and the `memory_best_<n>` key strings are not modelled. The store is a map keyed by grid size.
- Event-listener wiring and `parseInt` on the size select (script.js:204-217) are not modelled. The start and shuffle buttons correspond to `StartGame(n, …)`. The size-select listener calls `setGrid` in the middle of a game without rebuilding the board, so `pairsTotal` and the key of the record no longer describe the board being played. The model calls the grid arithmetic only from `StartGame`.
- Deck.SetGrid: requires an even `n`. For odd `n` the source computes a fractional `pairsTotal`, and a board with that value can never finish. The grid sizes offered are even.
- Game.Session.StartGame: requires the idle state (no picks, unlocked). `startGame` does not call `resetPick`, so a restart while a pick or a resolution is pending leaves stale picks that the source does not handle.
