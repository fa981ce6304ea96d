/** The pick/resolve state machine of script.js: the page's module-level
    game state (gridSize .. found), onCardClick, the two delayed resolution
    bodies with resetPick, resetStats, finishGame and startGame. */
module Game {
  import opened Wrappers
  import Deck
  import Records

  /** The number of set flags. */
  function CountTrue(s: seq<bool>): (c: nat)
    ensures c <= |s|
  {
    if s == [] then 0 else (if s[0] then 1 else 0) + CountTrue(s[1..])
  }

  /** Setting one clear flag raises the count by exactly one. */
  lemma {:induction false} CountTrueSet(s: seq<bool>, k: nat)
    requires k < |s| && !s[k]
    ensures CountTrue(s[k := true]) == CountTrue(s) + 1
  {
    if k > 0 {
      CountTrueSet(s[1..], k - 1);
      assert s[k := true][1..] == s[1..][k - 1 := true];
    } else {
      assert s[k := true][1..] == s[1..];
    }
  }

  /** No flag set, no count. */
  lemma {:induction false} CountTrueNone(s: seq<bool>)
    requires forall k :: 0 <= k < |s| ==> !s[k]
    ensures CountTrue(s) == 0
  {
    if s != [] { CountTrueNone(s[1..]); }
  }

  /** The count reaches the length exactly when every flag is set. */
  lemma {:induction false} CountTrueFull(s: seq<bool>)
    ensures CountTrue(s) == |s| <==> forall k :: 0 <= k < |s| ==> s[k]
  {
    if s != [] {
      CountTrueFull(s[1..]);
      assert forall k :: 1 <= k < |s| ==> s[k] == s[1..][k - 1];
    }
  }

  /** The side of the board the page starts with. */
  const InitialGridSize: nat := 4

  /** What a fresh board on an n-by-n grid needs from the random source: a
      colour per face unless emoji faces are used, and the shuffle's draws. */
  predicate Supplied(n: nat, emojiChecked: bool, colours: seq<Deck.Hsl>, draws: seq<nat>)
  {
    (!Deck.UsesEmoji(emojiChecked, n) ==> 2 * |colours| >= n * n)
    && Deck.ValidDraws(draws, n * n)
  }

  /** The page's game state. The flags of card k stand for the `flipped`
      and `matched` classes of its element; a pick is a card index. */
  class Session {
    var gridSize: nat
    var totalCards: nat
    var pairsTotal: nat
    var cards: seq<Deck.Face>
    var flipped: array<bool>
    var matched: array<bool>
    var firstCard: Option<nat>
    var secondCard: Option<nat>
    var lock: bool
    var moves: nat
    var found: nat
    var timerRunning: bool
    var best: Records.Store

    /** The cards flipped face up and not yet matched. */
    ghost function Pending(): set<nat>
      reads this, flipped, matched
    {
      set k | 0 <= k < |cards| && k < flipped.Length && k < matched.Length && flipped[k] && !matched[k]
    }

    /** The picks are exactly the pending cards: none, a first, or a first
        and a different second. */
    ghost predicate PicksValid()
      reads this, flipped, matched
      requires flipped.Length == |cards| && matched.Length == |cards|
    {
      (firstCard.None? ==> secondCard.None?)
      && (firstCard.Some? ==>
            firstCard.value < |cards| && flipped[firstCard.value] && !matched[firstCard.value])
      && (secondCard.Some? ==>
            secondCard.value < |cards| && flipped[secondCard.value] && !matched[secondCard.value]
            && Some(secondCard.value) != firstCard)
      && (forall k :: 0 <= k < |cards| && flipped[k] && !matched[k] ==>
            firstCard == Some(k) || secondCard == Some(k))
    }

    /** The session invariant. */
    ghost predicate Valid()
      reads this, flipped, matched
    {
      flipped != matched
      && flipped.Length == |cards| && matched.Length == |cards|
      && totalCards == gridSize * gridSize && |cards| == totalCards == 2 * pairsTotal
      && Deck.HasPairs(cards, pairsTotal)
      && (forall k :: 0 <= k < |cards| && matched[k] ==> flipped[k])
      && PicksValid()
      && (lock <==> secondCard.Some?)
      && 2 * found == CountTrue(matched[..])
      && found <= pairsTotal
    }

    /** A card a click may pick: no resolution pending, not matched, face down. */
    predicate Selectable(i: nat)
      reads this, flipped, matched
      requires i < flipped.Length && i < matched.Length
    {
      !lock && !matched[i] && !flipped[i]
    }

    /** At most two cards are ever face up and unmatched. */
    lemma AtMostTwoPending()
      requires Valid()
      ensures |Pending()| <= 2
    {
      var picks := (if firstCard.Some? then {firstCard.value} else {})
                   + (if secondCard.Some? then {secondCard.value} else {});
      assert Pending() <= picks;
      assert picks == Pending() + (picks - Pending());
      assert |picks| <= 2;
    }

    /** The game is complete exactly when every card is matched. */
    lemma CompleteIffAllMatched()
      requires Valid()
      ensures found == pairsTotal <==> forall k :: 0 <= k < matched.Length ==> matched[k]
    {
      CountTrueFull(matched[..]);
    }

    /** The page load: the globals' initial values, then setGrid(4) and
        startGame. `stored` is what the browser's storage already holds
        from earlier visits. */
    constructor (stored: Records.Store, emojiChecked: bool, colours: seq<Deck.Hsl>, draws: seq<nat>)
      requires Supplied(InitialGridSize, emojiChecked, colours, draws)
      ensures Valid() && fresh(flipped) && fresh(matched)
      ensures gridSize == InitialGridSize && pairsTotal == 8 && |cards| == 16
      ensures forall k :: 0 <= k < |cards| ==> Deck.StyledAsGenerated(cards[k], gridSize, emojiChecked, colours)
      ensures Idle() && moves == 0 && found == 0 && !timerRunning
      ensures forall k :: 0 <= k < |cards| ==> !flipped[k] && !matched[k]
      ensures cards == Deck.Shuffled(Deck.DoubledFaces(pairsTotal, gridSize, emojiChecked, colours), draws)
      ensures best == stored
    {
      gridSize, totalCards, pairsTotal := InitialGridSize, 16, 8;
      cards := [];
      flipped := new bool[0];
      matched := new bool[0];
      firstCard, secondCard, lock := None, None, false;
      moves, found, timerRunning := 0, 0, false;
      best := stored;
      new;
      StartGame(InitialGridSize, emojiChecked, colours, draws);
    }

    /** No pick is pending and no resolution is scheduled. */
    predicate Idle()
      reads this
    {
      firstCard.None? && secondCard.None? && !lock
    }

    /** buildBoard: a fresh shuffled deck for the current grid, every card
        face down and unmatched. */
    method BuildBoard(emojiChecked: bool, colours: seq<Deck.Hsl>, draws: seq<nat>)
      requires !Deck.UsesEmoji(emojiChecked, gridSize) ==> |colours| >= pairsTotal
      requires Deck.ValidDraws(draws, 2 * pairsTotal)
      modifies this`cards, this`flipped, this`matched
      ensures fresh(flipped) && fresh(matched) && flipped != matched
      ensures |cards| == 2 * pairsTotal && Deck.HasPairs(cards, pairsTotal)
      ensures cards == Deck.Shuffled(Deck.DoubledFaces(pairsTotal, gridSize, emojiChecked, colours), draws)
      ensures forall k :: 0 <= k < |cards| ==> Deck.StyledAsGenerated(cards[k], gridSize, emojiChecked, colours)
      ensures flipped[..] == seq(|cards|, _ => false) && matched[..] == seq(|cards|, _ => false)
    {
      cards := Deck.NewDeck(pairsTotal, gridSize, emojiChecked, colours, draws);
      flipped := new bool[|cards|](_ => false);
      matched := new bool[|cards|](_ => false);
    }

    /** A freshly dealt board with no card turned, no pick and no pair
        found satisfies the session invariant. */
    lemma FreshBoardValid()
      requires flipped != matched && flipped.Length == |cards| && matched.Length == |cards|
      requires totalCards == gridSize * gridSize && |cards| == totalCards == 2 * pairsTotal
      requires Deck.HasPairs(cards, pairsTotal)
      requires flipped[..] == seq(|cards|, _ => false) && matched[..] == seq(|cards|, _ => false)
      requires Idle() && found == 0
      ensures Valid()
    {
      CountTrueNone(matched[..]);
    }

    /** resetStats: moves and found back to zero, the timer stopped. */
    method ResetStats()
      modifies this`moves, this`found, this`timerRunning
      ensures moves == 0 && found == 0 && !timerRunning
    {
      moves, found := 0, 0;
      timerRunning := false;
    }

    /** startGame on an n-by-n grid: setGrid, buildBoard and resetStats. The
        source does not clear the picks here, so a restart is modelled only
        from the idle state. */
    method StartGame(n: nat, emojiChecked: bool, colours: seq<Deck.Hsl>, draws: seq<nat>)
      requires Idle()
      requires n % 2 == 0 && Supplied(n, emojiChecked, colours, draws)
      modifies this`gridSize, this`totalCards, this`pairsTotal, this`cards, this`flipped, this`matched
      modifies this`moves, this`found, this`timerRunning
      ensures Valid() && fresh(flipped) && fresh(matched)
      ensures gridSize == n && totalCards == n * n && 2 * pairsTotal == totalCards
      ensures cards == Deck.Shuffled(Deck.DoubledFaces(pairsTotal, gridSize, emojiChecked, colours), draws)
      ensures forall k :: 0 <= k < |cards| ==> Deck.StyledAsGenerated(cards[k], gridSize, emojiChecked, colours)
      ensures Idle() && moves == 0 && found == 0 && !timerRunning
      ensures forall k :: 0 <= k < |cards| ==> !flipped[k] && !matched[k]
    {
      var g := Deck.SetGrid(n);
      gridSize, totalCards, pairsTotal := g.gridSize, g.totalCards, g.pairsTotal;
      BuildBoard(emojiChecked, colours, draws);
      ResetStats();
      FreshBoardValid();
    }

    /** onCardClick on card i. A locked board, or a matched or face-up card,
        ignores the click. Otherwise the card turns face up and becomes the
        first pick (starting the timer on the session's very first pick) or
        the second pick, which locks the board and counts one move. */
    method Click(i: nat)
      requires Valid() && i < |cards|
      modifies flipped, this`firstCard, this`secondCard, this`lock, this`moves, this`timerRunning
      ensures Valid()
      ensures !old(Selectable(i)) ==>
                flipped[..] == old(flipped[..]) && firstCard == old(firstCard)
                && secondCard == old(secondCard) && lock == old(lock)
                && moves == old(moves) && timerRunning == old(timerRunning)
      ensures old(Selectable(i)) && old(firstCard).None? ==>
                flipped[..] == old(flipped[..])[i := true]
                && firstCard == Some(i) && secondCard.None? && !lock && moves == old(moves)
                && timerRunning == (old(timerRunning) || (moves == 0 && found == 0))
      ensures old(Selectable(i)) && old(firstCard).Some? ==>
                flipped[..] == old(flipped[..])[i := true]
                && firstCard == old(firstCard) && secondCard == Some(i) && lock
                && moves == old(moves) + 1 && timerRunning == old(timerRunning)
    {
      if lock { return; }
      if matched[i] || flipped[i] { return; }
      flipped[i] := true;
      if firstCard.None? {
        firstCard := Some(i);
        if moves == 0 && found == 0 { timerRunning := true; }
        return;
      }
      secondCard := Some(i);
      lock := true;
      moves := moves + 1;
    }

    /** resetPick: both picks cleared and the board unlocked. */
    method ResetPick()
      modifies this`firstCard, this`secondCard, this`lock
      ensures Idle()
    {
      firstCard, secondCard, lock := None, None, false;
    }

    /** finishGame: the timer stops and the run (elapsed tenths of a second,
        moves) is kept for this grid size if it beats the stored best. */
    method FinishGame(elapsed: nat) returns (improved: bool)
      modifies this`timerRunning, this`best
      ensures !timerRunning
      ensures (best, improved) == Records.RecordIfBetter(old(best), gridSize, Records.Record(elapsed, moves))
    {
      timerRunning := false;
      var stored := Records.RecordIfBetter(best, gridSize, Records.Record(elapsed, moves));
      best := stored.0;
      improved := stored.1;
    }

    /** The delayed bodies onCardClick schedules after a second pick. Equal
        face ids: both cards become matched and one more pair is found, and
        if that was the last pair the game finishes. Different ids: both
        cards turn face down again. Either way the picks are cleared and the
        board unlocked. `elapsed` is the time shown when it runs. */
    method Resolve(elapsed: nat) returns (finished: bool, improved: bool)
      requires Valid() && lock
      modifies flipped, matched, this`firstCard, this`secondCard, this`lock, this`found
      modifies this`timerRunning, this`best
      ensures Valid() && Idle()
      ensures var a, b := old(firstCard).value, old(secondCard).value;
              if cards[a].id == cards[b].id then
                matched[..] == old(matched[..])[a := true][b := true]
                && flipped[..] == old(flipped[..]) && found == old(found) + 1
              else
                flipped[..] == old(flipped[..])[a := false][b := false]
                && matched[..] == old(matched[..]) && found == old(found)
      ensures finished <==> found == pairsTotal
      ensures finished <==> forall k :: 0 <= k < matched.Length ==> matched[k]
      ensures finished ==> cards[old(firstCard).value].id == cards[old(secondCard).value].id
      ensures finished ==>
                !timerRunning
                && (best, improved) == Records.RecordIfBetter(old(best), gridSize, Records.Record(elapsed, moves))
      ensures !finished ==> !improved && best == old(best) && timerRunning == old(timerRunning)
    {
      if cards[firstCard.value].id == cards[secondCard.value].id {
        finished, improved := ResolveMatch(elapsed);
      } else {
        ResolveMismatch();
        finished, improved := false, false;
      }
    }

    /** The body scheduled for a matching pair. */
    method ResolveMatch(elapsed: nat) returns (finished: bool, improved: bool)
      requires Valid() && lock
      requires cards[firstCard.value].id == cards[secondCard.value].id
      modifies matched, this`firstCard, this`secondCard, this`lock, this`found
      modifies this`timerRunning, this`best
      ensures Valid() && Idle()
      ensures matched[..] == old(matched[..])[old(firstCard).value := true][old(secondCard).value := true]
      ensures found == old(found) + 1
      ensures finished <==> found == pairsTotal
      ensures finished <==> forall k :: 0 <= k < matched.Length ==> matched[k]
      ensures finished ==>
                !timerRunning
                && (best, improved) == Records.RecordIfBetter(old(best), gridSize, Records.Record(elapsed, moves))
      ensures !finished ==> !improved && best == old(best) && timerRunning == old(timerRunning)
    {
      var a, b := firstCard.value, secondCard.value;
      ghost var before := matched[..];
      matched[a] := true;
      matched[b] := true;
      CountTrueSet(before, a);
      CountTrueSet(before[a := true], b);
      assert matched[..] == before[a := true][b := true];
      found := found + 1;
      ResetPick();
      CountTrueFull(matched[..]);
      if found == pairsTotal {
        improved := FinishGame(elapsed);
        finished := true;
      } else {
        finished, improved := false, false;
      }
    }

    /** The body scheduled for a mismatched pair. */
    method ResolveMismatch()
      requires Valid() && lock
      requires cards[firstCard.value].id != cards[secondCard.value].id
      modifies flipped, this`firstCard, this`secondCard, this`lock
      ensures Valid() && Idle()
      ensures flipped[..] == old(flipped[..])[old(firstCard).value := false][old(secondCard).value := false]
      ensures found < pairsTotal
    {
      var a, b := firstCard.value, secondCard.value;
      flipped[a] := false;
      flipped[b] := false;
      ResetPick();
      CountTrueFull(matched[..]);
    }
  }

  /** One turn from the idle state: two clicks on different face-down
      cards, then the scheduled resolution. It costs one move; it finds a
      pair exactly when the two ids are equal, and otherwise leaves both
      cards face down again. */
  method Turn(s: Session, a: nat, b: nat, elapsed: nat) returns (finished: bool, improved: bool)
    requires s.Valid() && s.Idle() && a < |s.cards| && b < |s.cards| && a != b
    requires !s.flipped[a] && !s.matched[a] && !s.flipped[b] && !s.matched[b]
    modifies s`firstCard, s`secondCard, s`lock, s`moves, s`found, s`timerRunning, s`best
    modifies s.flipped, s.matched
    ensures s.Valid() && s.Idle() && s.moves == old(s.moves) + 1
    ensures s.cards[a].id == s.cards[b].id ==>
              s.matched[..] == old(s.matched[..])[a := true][b := true]
              && s.flipped[..] == old(s.flipped[..])[a := true][b := true] && s.found == old(s.found) + 1
    ensures s.cards[a].id != s.cards[b].id ==>
              s.matched[..] == old(s.matched[..]) && s.flipped[..] == old(s.flipped[..])
              && s.found == old(s.found)
    ensures finished <==> s.found == s.pairsTotal
    ensures finished ==> (s.best, improved) == Records.RecordIfBetter(old(s.best), s.gridSize, Records.Record(elapsed, s.moves))
    ensures !finished ==> s.best == old(s.best)
  {
    s.Click(a);
    s.Click(b);
    finished, improved := s.Resolve(elapsed);
  }

  /** A 2-by-2 game whose deck reads A, B, A, B, played as: 0 then 1 (no
      match), 0 then 2 (match), 1 then 3 (match, the last pair). The game
      ends after three moves with both pairs found, and the run is offered
      to the store. */
  method TwoPairGame(s: Session, elapsed: nat) returns (improved: bool)
    requires s.Valid() && s.Idle() && |s.cards| == 4 && s.moves == 0 && s.found == 0
    requires forall k :: 0 <= k < 4 ==> !s.flipped[k] && !s.matched[k]
    requires s.cards[0].id == s.cards[2].id && s.cards[1].id == s.cards[3].id
    requires s.cards[0].id != s.cards[1].id
    modifies s`firstCard, s`secondCard, s`lock, s`moves, s`found, s`timerRunning, s`best
    modifies s.flipped, s.matched
    ensures s.Valid() && s.Idle() && s.moves == 3 && s.found == s.pairsTotal == 2
    ensures forall k :: 0 <= k < 4 ==> s.matched[k]
    ensures (s.best, improved) == Records.RecordIfBetter(old(s.best), s.gridSize, Records.Record(elapsed, 3))
  {
    var finished;
    finished, improved := Turn(s, 0, 1, elapsed);
    assert s.found == 0 && !finished;
    finished, improved := Turn(s, 0, 2, elapsed);
    assert s.found == 1 && !finished;
    finished, improved := Turn(s, 1, 3, elapsed);
    assert s.matched[..] == [true, true, true, true];
  }

  /** startGame on a 2-by-2 board with the draws that deal A, B, A, B,
      followed by the game of TwoPairGame: it ends after three moves with
      both pairs found. */
  method TwoPairFromStart(s: Session, emojiChecked: bool, colours: seq<Deck.Hsl>, elapsed: nat)
    returns (improved: bool)
    requires s.Idle()
    requires Supplied(2, emojiChecked, colours, [0, 1, 1, 3])
    modifies s
    ensures s.Valid() && s.Idle() && s.gridSize == 2 && s.moves == 3 && s.found == s.pairsTotal == 2
    ensures (s.best, improved) == Records.RecordIfBetter(old(s.best), 2, Records.Record(elapsed, 3))
  {
    s.StartGame(2, emojiChecked, colours, [0, 1, 1, 3]);
    Deck.TwoPairDeal(emojiChecked, colours);
    assert Deck.Ids(s.cards) == [0, 1, 0, 1];
    assert s.cards[0].id == 0 && s.cards[1].id == 1 && s.cards[2].id == 0 && s.cards[3].id == 1;
    improved := TwoPairGame(s, elapsed);
  }
}
