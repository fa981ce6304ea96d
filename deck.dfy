/** Board geometry, face generation, deck construction and the in-place
    Fisher-Yates shuffle of script.js (setGrid, generateFaces, buildBoard,
    shuffleArray). Randomness is supplied by the caller: the colour of each
    face and the index drawn at each step of the shuffle. */
module Deck {

  /** The geometry setGrid stores: an n-by-n board of n*n cards. */
  datatype Grid = Grid(gridSize: nat, totalCards: nat, pairsTotal: nat)

  /** setGrid's arithmetic. An even side gives a whole number of pairs that
      exactly fills the board. */
  function SetGrid(n: nat): (g: Grid)
    requires n % 2 == 0
    ensures g.gridSize == n && g.totalCards == n * n
    ensures 2 * g.pairsTotal == g.totalCards
  {
    var half := n / 2;
    assert n * n == 2 * (half * n);
    Grid(n, n * n, n * n / 2)
  }

  /** A colour as randColor builds it: hue, saturation and lightness. */
  datatype Hsl = Hsl(hue: nat, saturation: nat, lightness: nat)

  /** How a face is drawn: a glyph from the palette, or a colour. */
  datatype Style = Emoji(glyph: string) | Colour(colour: Hsl)

  /** A face; two cards match exactly when their faces have equal ids. */
  datatype Face = Face(id: nat, style: Style)

  /** The emoji palette, used round-robin by face id. */
  const Emojis: seq<string> := [
      "🐶", "🐱", "🦊", "🐻", "🐼", "🐨", "🐯", "🦁", "🐮", "🐷",
      "🐸", "🐵", "🐔", "🐧", "🐦", "🦉", "🦄", "🐝", "🐛", "🦋",
      "🐌", "🐢", "🐍", "🐙", "🦀", "🦞", "🦑", "🦐", "🌵", "🌸",
      "🌞", "⭐", "🍎", "🍌", "🍇", "🍓", "🍒", "🍉", "🍍", "🍔",
      "🍕", "🍣", "🍩", "🍪", "☕", "🍺", "⚽", "🎲", "🎯", "🎵",
      "🎮", "🚗", "✈️", "🚀", "🛸", "🏰", "🎁", "🎈", "🎭"
  ]

  /** Emoji faces are only offered on boards of at most this side. */
  const EmojiGridLimit: nat := 8

  /** generateFaces' style choice: emoji when asked for and the grid is small. */
  predicate UsesEmoji(emojiChecked: bool, gridSize: nat)
  {
    emojiChecked && gridSize <= EmojiGridLimit
  }

  /** generateFaces: faces 0 .. pairsTotal-1, each with the palette glyph at
      its id, or else with the colour supplied for it. */
  method GenerateFaces(pairsTotal: nat, gridSize: nat, emojiChecked: bool, colours: seq<Hsl>)
    returns (faces: seq<Face>)
    requires !UsesEmoji(emojiChecked, gridSize) ==> |colours| >= pairsTotal
    ensures |faces| == pairsTotal
    ensures forall i :: 0 <= i < |faces| ==> faces[i].id == i
    ensures forall i :: 0 <= i < |faces| ==> (faces[i].style.Emoji? <==> UsesEmoji(emojiChecked, gridSize))
    ensures UsesEmoji(emojiChecked, gridSize) ==>
              forall i :: 0 <= i < |faces| ==> faces[i].style.glyph == Emojis[i % |Emojis|]
    ensures !UsesEmoji(emojiChecked, gridSize) ==>
              forall i :: 0 <= i < |faces| ==> faces[i].style.colour == colours[i]
  {
    faces := [];
    if UsesEmoji(emojiChecked, gridSize) {
      for i := 0 to pairsTotal
        invariant |faces| == i
        invariant forall k :: 0 <= k < i ==> faces[k] == Face(k, Emoji(Emojis[k % |Emojis|]))
      {
        faces := faces + [Face(i, Emoji(Emojis[i % |Emojis|]))];
      }
    } else {
      for i := 0 to pairsTotal
        invariant |faces| == i
        invariant forall k :: 0 <= k < i ==> faces[k] == Face(k, Colour(colours[k]))
      {
        faces := faces + [Face(i, Colour(colours[i]))];
      }
    }
  }

  /** buildBoard's first loop: every face pushed twice, in order. */
  method BuildDeck(faces: seq<Face>) returns (deck: seq<Face>)
    ensures |deck| == 2 * |faces|
    ensures forall k :: 0 <= k < |deck| ==> deck[k] == faces[k / 2]
  {
    deck := [];
    for n := 0 to |faces|
      invariant |deck| == 2 * n
      invariant forall k :: 0 <= k < |deck| ==> deck[k] == faces[k / 2]
    {
      var f := faces[n];
      deck := deck + [f];
      deck := deck + [f];
    }
  }

  /** The face ids of a row of cards. */
  function Ids(s: seq<Face>): (r: seq<nat>)
  {
    seq(|s|, k requires 0 <= k < |s| => s[k].id)
  }

  /** Every id below `pairs` occurs exactly twice, and no other id occurs. */
  ghost predicate HasPairs(deck: seq<Face>, pairs: nat)
  {
    forall id: nat :: multiset(Ids(deck))[id] == (if id < pairs then 2 else 0)
  }

  /** Pushing faces 0 .. p-1 twice each gives every id exactly twice. */
  lemma {:induction false} DoubledHasPairs(faces: seq<Face>, deck: seq<Face>)
    requires forall i :: 0 <= i < |faces| ==> faces[i].id == i
    requires |deck| == 2 * |faces|
    requires forall k :: 0 <= k < |deck| ==> deck[k] == faces[k / 2]
    ensures HasPairs(deck, |faces|)
  {
    if |faces| == 0 {
      assert Ids(deck) == [];
    } else {
      var p := |faces| - 1;
      var front := deck[..2 * p];
      DoubledHasPairs(faces[..p], front);
      assert deck == front + [faces[p], faces[p]];
      assert Ids(deck) == Ids(front) + [p, p];
    }
  }

  /** The swap at the heart of shuffleArray. */
  function Swap<T>(s: seq<T>, i: nat, j: nat): (r: seq<T>)
    requires i < |s| && j < |s|
    ensures |r| == |s|
  {
    s[i := s[j]][j := s[i]]
  }

  /** Draws a uniform source may give a shuffle of n elements: the draw for
      step i lies in [0, i]. Entry 0 is never used. */
  predicate ValidDraws(draws: seq<nat>, n: nat)
  {
    |draws| == n && forall i :: 0 <= i < n ==> draws[i] <= i
  }

  /** The steps i, i-1, ..., 1 of shuffleArray's descending loop. */
  function ShuffleSteps<T>(s: seq<T>, draws: seq<nat>, i: nat): (r: seq<T>)
    requires ValidDraws(draws, |s|) && i < |s|
    decreases i
  {
    if i == 0 then s else ShuffleSteps(Swap(s, i, draws[i]), draws, i - 1)
  }

  /** The whole of shuffleArray on a sequence. */
  function Shuffled<T>(s: seq<T>, draws: seq<nat>): (r: seq<T>)
    requires ValidDraws(draws, |s|)
  {
    if |s| == 0 then s else ShuffleSteps(s, draws, |s| - 1)
  }

  /** Every step of the shuffle keeps the length and the elements. */
  lemma {:induction false} ShuffleStepsPermutes<T>(s: seq<T>, draws: seq<nat>, i: nat)
    requires ValidDraws(draws, |s|) && i < |s|
    decreases i
    ensures |ShuffleSteps(s, draws, i)| == |s|
    ensures multiset(ShuffleSteps(s, draws, i)) == multiset(s)
  {
    if i > 0 {
      var t := Swap(s, i, draws[i]);
      assert multiset(t) == multiset(s);
      ShuffleStepsPermutes(t, draws, i - 1);
    }
  }

  /** The shuffle returns a permutation of its input. */
  lemma ShuffledPermutes<T>(s: seq<T>, draws: seq<nat>)
    requires ValidDraws(draws, |s|)
    ensures |Shuffled(s, draws)| == |s|
    ensures multiset(Shuffled(s, draws)) == multiset(s)
  {
    if |s| > 0 { ShuffleStepsPermutes(s, draws, |s| - 1); }
  }

  /** Shuffling cards and then reading their ids is shuffling the ids. */
  lemma {:induction false} ShuffleStepsIds(s: seq<Face>, draws: seq<nat>, i: nat)
    requires ValidDraws(draws, |s|) && i < |s|
    decreases i
    ensures Ids(ShuffleSteps(s, draws, i)) == ShuffleSteps(Ids(s), draws, i)
  {
    if i > 0 {
      var t := Swap(s, i, draws[i]);
      assert Ids(t) == Swap(Ids(s), i, draws[i]);
      ShuffleStepsIds(t, draws, i - 1);
    }
  }

  /** A shuffled deck still holds every id exactly twice. */
  lemma ShuffledHasPairs(deck: seq<Face>, pairs: nat, draws: seq<nat>)
    requires ValidDraws(draws, |deck|)
    requires HasPairs(deck, pairs)
    ensures HasPairs(Shuffled(deck, draws), pairs)
  {
    if |deck| > 0 {
      ShuffleStepsIds(deck, draws, |deck| - 1);
      ShuffledPermutes(Ids(deck), draws);
    }
  }

  /** The steps i, ..., 1 read no draw but those of steps 1 .. i. */
  lemma {:induction false} ShuffleStepsReadsDrawsUpTo<T>(s: seq<T>, d1: seq<nat>, d2: seq<nat>, i: nat)
    requires ValidDraws(d1, |s|) && ValidDraws(d2, |s|) && i < |s|
    requires forall k :: 0 < k <= i ==> d1[k] == d2[k]
    decreases i
    ensures ShuffleSteps(s, d1, i) == ShuffleSteps(s, d2, i)
  {
    if i > 0 {
      ShuffleStepsReadsDrawsUpTo(Swap(s, i, d1[i]), d1, d2, i - 1);
    }
  }

  /** With positions above i already in place, any rearrangement of the
      first i+1 elements is reached by some valid draws for steps i .. 1. */
  lemma {:induction false} ShuffleStepsReaches<T>(s: seq<T>, t: seq<T>, i: nat) returns (draws: seq<nat>)
    requires i < |s| == |t|
    requires multiset(s[..i + 1]) == multiset(t[..i + 1])
    requires s[i + 1..] == t[i + 1..]
    decreases i
    ensures ValidDraws(draws, |s|) && ShuffleSteps(s, draws, i) == t
  {
    if i == 0 {
      draws := seq(|s|, k => k);
      assert s[..1] == [s[0]] && t[..1] == [t[0]];
      assert s[0] in multiset(t[..1]);
      assert s == s[..1] + s[1..] && t == t[..1] + t[1..];
    } else {
      assert t[i] in multiset(s[..i + 1]);
      var j :| 0 <= j <= i && s[..i + 1][j] == t[i];
      SwapIntoPlace(s, t, i, j);
      var u := Swap(s, i, j);
      var inner := ShuffleStepsReaches(u, t, i - 1);
      draws := inner[i := j];
      ShuffleStepsReadsDrawsUpTo(u, draws, inner, i - 1);
    }
  }

  /** One step of ShuffleStepsReaches: swapping the wanted element into
      position i leaves a rearrangement of the first i elements to do. */
  lemma SwapIntoPlace<T>(s: seq<T>, t: seq<T>, i: nat, j: nat)
    requires 0 < i < |s| == |t| && j <= i && s[j] == t[i]
    requires multiset(s[..i + 1]) == multiset(t[..i + 1])
    requires s[i + 1..] == t[i + 1..]
    ensures multiset(Swap(s, i, j)[..i]) == multiset(t[..i])
    ensures Swap(s, i, j)[i..] == t[i..]
  {
    var u := Swap(s, i, j);
    assert u[..i + 1] == Swap(s[..i + 1], i, j);
    assert multiset(u[..i + 1]) == multiset(s[..i + 1]);
    assert u[..i + 1] == u[..i] + [t[i]] && t[..i + 1] == t[..i] + [t[i]];
    assert multiset(u[..i]) + multiset{t[i]} == multiset(t[..i]) + multiset{t[i]};
    MultisetCancel(multiset(u[..i]), multiset(t[..i]), t[i]);
    assert u[i..] == [t[i]] + s[i + 1..] && t[i..] == [t[i]] + t[i + 1..];
  }

  /** Taking the same element from two equal multisets leaves equal ones. */
  lemma MultisetCancel<T>(left: multiset<T>, right: multiset<T>, x: T)
    requires left + multiset{x} == right + multiset{x}
    ensures left == right
  {
    assert forall y :: left[y] == (left + multiset{x})[y] - multiset{x}[y];
    assert forall y :: right[y] == (right + multiset{x})[y] - multiset{x}[y];
  }

  /** Every arrangement of a deck can come out of the shuffle: for each
      permutation t of s there are valid draws that make the shuffle give t. */
  lemma ShuffledReachesEvery<T>(s: seq<T>, t: seq<T>) returns (draws: seq<nat>)
    requires multiset(s) == multiset(t)
    ensures ValidDraws(draws, |s|) && Shuffled(s, draws) == t
  {
    assert |s| == |multiset(s)| == |t|;
    if |s| == 0 {
      draws := [];
    } else {
      assert s[..|s|] == s && t[..|t|] == t;
      draws := ShuffleStepsReaches(s, t, |s| - 1);
    }
  }

  /** shuffleArray: the array ends as the shuffle of its old contents, which
      is a permutation of them. */
  method ShuffleArray<T>(a: array<T>, draws: seq<nat>)
    requires ValidDraws(draws, a.Length)
    modifies a
    ensures a[..] == Shuffled(old(a[..]), draws)
    ensures multiset(a[..]) == multiset(old(a[..]))
  {
    var i := a.Length - 1;
    while i > 0
      invariant a.Length == 0 ==> i == -1
      invariant a.Length > 0 ==> 0 <= i < a.Length
      invariant a.Length > 0 ==> ShuffleSteps(a[..], draws, i) == Shuffled(old(a[..]), draws)
    {
      var j := draws[i];
      ghost var before := a[..];
      var t := a[i];
      a[i] := a[j];
      a[j] := t;
      assert a[..] == Swap(before, i, j);
      i := i - 1;
    }
    ShuffledPermutes(old(a[..]), draws);
  }

  /** The style generateFaces gives a face: the palette glyph at its id
      when emoji faces are used, and otherwise the colour supplied for it. */
  predicate StyledAsGenerated(f: Face, gridSize: nat, emojiChecked: bool, colours: seq<Hsl>)
  {
    if UsesEmoji(emojiChecked, gridSize) then f.style == Emoji(Emojis[f.id % |Emojis|])
    else f.id < |colours| && f.style == Colour(colours[f.id])
  }

  /** Rearranging a deck keeps every card's style as generated. */
  lemma PermutationKeepsStyles(s: seq<Face>, t: seq<Face>, gridSize: nat, emojiChecked: bool, colours: seq<Hsl>)
    requires multiset(s) == multiset(t)
    requires forall k :: 0 <= k < |s| ==> StyledAsGenerated(s[k], gridSize, emojiChecked, colours)
    ensures forall k :: 0 <= k < |t| ==> StyledAsGenerated(t[k], gridSize, emojiChecked, colours)
  {
    forall k | 0 <= k < |t|
      ensures StyledAsGenerated(t[k], gridSize, emojiChecked, colours)
    {
      assert t[k] in multiset(s);
    }
  }

  /** The face generateFaces makes for id i. */
  function GeneratedFace(i: nat, gridSize: nat, emojiChecked: bool, colours: seq<Hsl>): Face
    requires !UsesEmoji(emojiChecked, gridSize) ==> i < |colours|
  {
    Face(i, if UsesEmoji(emojiChecked, gridSize) then Emoji(Emojis[i % |Emojis|]) else Colour(colours[i]))
  }

  /** The deck buildBoard holds before the shuffle: the generated faces,
      each pushed twice in order. Every id below pairsTotal occurs exactly
      twice in it, and every card has its generated style. */
  function DoubledFaces(pairsTotal: nat, gridSize: nat, emojiChecked: bool, colours: seq<Hsl>): (r: seq<Face>)
    requires !UsesEmoji(emojiChecked, gridSize) ==> |colours| >= pairsTotal
    ensures |r| == 2 * pairsTotal && HasPairs(r, pairsTotal)
    ensures forall k :: 0 <= k < |r| ==> StyledAsGenerated(r[k], gridSize, emojiChecked, colours)
  {
    var faces := seq(pairsTotal, i requires 0 <= i < pairsTotal => GeneratedFace(i, gridSize, emojiChecked, colours));
    var r := seq(2 * pairsTotal, k requires 0 <= k < 2 * pairsTotal => faces[k / 2]);
    DoubledHasPairs(faces, r);
    r
  }

  /** buildBoard's deck: generated faces, doubled, shuffled in place. It is
      the shuffle of DoubledFaces by the supplied draws, so it has
      2*pairsTotal cards, every id below pairsTotal exactly twice, and each
      card carries the style generateFaces gives its id. */
  method NewDeck(pairsTotal: nat, gridSize: nat, emojiChecked: bool, colours: seq<Hsl>, draws: seq<nat>)
    returns (deck: seq<Face>)
    requires !UsesEmoji(emojiChecked, gridSize) ==> |colours| >= pairsTotal
    requires ValidDraws(draws, 2 * pairsTotal)
    ensures deck == Shuffled(DoubledFaces(pairsTotal, gridSize, emojiChecked, colours), draws)
    ensures |deck| == 2 * pairsTotal
    ensures HasPairs(deck, pairsTotal)
    ensures forall k :: 0 <= k < |deck| ==> StyledAsGenerated(deck[k], gridSize, emojiChecked, colours)
  {
    var faces := GenerateFaces(pairsTotal, gridSize, emojiChecked, colours);
    var doubled := BuildDeck(faces);
    assert forall i :: 0 <= i < |faces| ==> faces[i] == GeneratedFace(i, gridSize, emojiChecked, colours);
    assert doubled == DoubledFaces(pairsTotal, gridSize, emojiChecked, colours);
    var a := new Face[|doubled|](k requires 0 <= k < |doubled| => doubled[k]);
    assert a[..] == doubled;
    ShuffleArray(a, draws);
    deck := a[..];
    ShuffledHasPairs(doubled, pairsTotal, draws);
    PermutationKeepsStyles(doubled, deck, gridSize, emojiChecked, colours);
  }

  /** On a 2-by-2 board the draws 3, 1, 1 for steps 3, 2, 1 deal the ids
      in the order 0, 1, 0, 1. */
  lemma TwoPairDeal(emojiChecked: bool, colours: seq<Hsl>)
    requires !UsesEmoji(emojiChecked, 2) ==> |colours| >= 2
    ensures ValidDraws([0, 1, 1, 3], 4)
    ensures Ids(Shuffled(DoubledFaces(2, 2, emojiChecked, colours), [0, 1, 1, 3])) == [0, 1, 0, 1]
  {
    var d := DoubledFaces(2, 2, emojiChecked, colours);
    var draws := [0, 1, 1, 3];
    assert Ids(d) == [0, 0, 1, 1];
    var s3 := Swap(d, 3, 3);
    var s2 := Swap(s3, 2, 1);
    assert Shuffled(d, draws) == ShuffleSteps(s2, draws, 1) == Swap(s2, 1, 1);
    assert Ids(Swap(s2, 1, 1)) == [0, 1, 0, 1];
  }
}
