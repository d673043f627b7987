/**
 * The deck primitives of classes/game.js: `Game.fillDeck` and
 * `Game.shuffleDeck`. The source draws from `Math.random`; here the random
 * choices are parameters, so that every fact proved holds whatever they are.
 */
module Deck {
  import opened Cards

  /** The deck is padded to this many cards before dealing. */
  const MIN_DECK_SIZE := 30

  /**
   * The deck `fillDeck` produces: the voters' cards, followed by as many
   * random cards as it takes to reach MIN_DECK_SIZE. `draw(k)` is the card
   * chosen by the k-th random draw.
   */
  function Padded(deck: seq<Card>, draw: nat -> Card): (r: seq<Card>)
    ensures |r| == if |deck| < MIN_DECK_SIZE then MIN_DECK_SIZE else |deck|
    ensures r[..|deck|] == deck
    ensures forall k :: |deck| <= k < |r| ==> r[k] == draw(k - |deck|)
  {
    var missing := if |deck| < MIN_DECK_SIZE then MIN_DECK_SIZE - |deck| else 0;
    deck + seq(missing, (k: nat) => draw(k))
  }

  /** `fillDeck`: push random cards while the deck is shorter than MIN_DECK_SIZE. */
  method FillDeck(deck: seq<Card>, draw: nat -> Card) returns (filled: seq<Card>)
    ensures |filled| >= MIN_DECK_SIZE && |filled| >= |deck|
    ensures filled[..|deck|] == deck
    ensures filled == Padded(deck, draw)
  {
    filled := deck;
    while |filled| < MIN_DECK_SIZE
      invariant |deck| <= |filled| <= |Padded(deck, draw)|
      invariant filled == Padded(deck, draw)[..|filled|]
      decreases MIN_DECK_SIZE - |filled|
    {
      filled := filled + [draw(|filled| - |deck|)];
    }
  }

  /** Exchange the cards at positions i and j. */
  function Swap(s: seq<Card>, i: nat, j: nat): (r: seq<Card>)
    requires i < |s| && j < |s|
    ensures |r| == |s| && multiset(r) == multiset(s)
    ensures r[i] == s[j] && r[j] == s[i]
    ensures forall k :: 0 <= k < |s| && k != i && k != j ==> r[k] == s[k]
  {
    s[i := s[j]][j := s[i]]
  }

  /**
   * `shuffleDeck`: the source sorts the deck in place with a random
   * comparator. Whatever that sort does, it rearranges the deck; the
   * rearrangement is given here as the sequence of transpositions it amounts
   * to (a pair naming a position outside the deck exchanges nothing).
   */
  function ShuffleDeck(s: seq<Card>, swaps: seq<(nat, nat)>): (r: seq<Card>)
    ensures |r| == |s|
    ensures multiset(r) == multiset(s)
    decreases |swaps|
  {
    if |swaps| == 0 then s
    else
      var (i, j) := swaps[0];
      ShuffleDeck(if i < |s| && j < |s| then Swap(s, i, j) else s, swaps[1..])
  }

  /** Swapping two positions at or after i leaves the prefix before i and the multiset after it alone. */
  lemma SwapInSuffix(s: seq<Card>, i: nat, j: nat)
    requires i <= j < |s|
    ensures Swap(s, i, j)[..i] == s[..i]
    ensures multiset(Swap(s, i, j)[i..]) == multiset(s[i..])
  {
    var r := Swap(s, i, j);
    assert s == s[..i] + s[i..];
    assert r == r[..i] + r[i..];
    assert r[..i] == s[..i];
  }

  /**
   * The model of the shuffle loses no outcome: every rearrangement of the
   * deck is what ShuffleDeck gives for some sequence of transpositions.
   */
  lemma {:induction false} ShuffleReachesEveryArrangement(s: seq<Card>, t: seq<Card>)
    requires multiset(s) == multiset(t)
    ensures exists swaps :: ShuffleDeck(s, swaps) == t
  {
    assert |s| == |multiset(s)| == |multiset(t)| == |t|;
    assert s[..0] == t[..0] && s[0..] == s && t[0..] == t;
    ReachFrom(s, t, 0);
  }

  /** One transposition followed by the rest, with positions already inside the deck. */
  lemma ShuffleFirstSwap(s: seq<Card>, i: nat, j: nat, rest: seq<(nat, nat)>)
    requires i < |s| && j < |s|
    ensures ShuffleDeck(s, [(i, j)] + rest) == ShuffleDeck(Swap(s, i, j), rest)
  {
    assert ([(i, j)] + rest)[1..] == rest;
  }

  /** Bringing the wanted card to position i extends the agreeing prefix by one. */
  lemma PlaceNext(s: seq<Card>, t: seq<Card>, i: nat, j: nat)
    requires |s| == |t| && i <= j < |s|
    requires s[..i] == t[..i] && multiset(s[i..]) == multiset(t[i..]) && s[j] == t[i]
    ensures Swap(s, i, j)[..i + 1] == t[..i + 1]
    ensures multiset(Swap(s, i, j)[i + 1..]) == multiset(t[i + 1..])
  {
    var r := Swap(s, i, j);
    SwapInSuffix(s, i, j);
    ExtendPrefix(r, t, i);
    DropHead(r, t, i);
  }

  lemma ExtendPrefix(r: seq<Card>, t: seq<Card>, i: nat)
    requires i < |r| && i < |t| && r[..i] == t[..i] && r[i] == t[i]
    ensures r[..i + 1] == t[..i + 1]
  {
    assert r[..i + 1] == r[..i] + [r[i]];
    assert t[..i + 1] == t[..i] + [t[i]];
  }

  lemma DropHead(r: seq<Card>, t: seq<Card>, i: nat)
    requires i < |r| && i < |t| && multiset(r[i..]) == multiset(t[i..]) && r[i] == t[i]
    ensures multiset(r[i + 1..]) == multiset(t[i + 1..])
  {
    assert r[i..] == [r[i]] + r[i + 1..];
    assert t[i..] == [t[i]] + t[i + 1..];
    assert multiset(r[i..]) == multiset{r[i]} + multiset(r[i + 1..]);
    assert multiset(t[i..]) == multiset{t[i]} + multiset(t[i + 1..]);
    var restR, restT := multiset(r[i + 1..]), multiset(t[i + 1..]);
    forall c: Card ensures restR[c] == restT[c] {
      assert multiset(r[i..])[c] == multiset(t[i..])[c];
    }
    assert restR == restT;
  }

  /** A card of the remaining part of t is somewhere in the remaining part of s. */
  lemma FindInSuffix(s: seq<Card>, t: seq<Card>, i: nat) returns (j: nat)
    requires |s| == |t| && i < |s| && multiset(s[i..]) == multiset(t[i..])
    ensures i <= j < |s| && s[j] == t[i]
  {
    assert t[i..][0] == t[i];
    assert t[i] in multiset(s[i..]);
    var k :| 0 <= k < |s[i..]| && s[i..][k] == t[i];
    j := i + k;
  }

  lemma {:induction false} ReachFrom(s: seq<Card>, t: seq<Card>, i: nat)
    requires |s| == |t| && i <= |s|
    requires s[..i] == t[..i]
    requires multiset(s[i..]) == multiset(t[i..])
    ensures exists swaps :: ShuffleDeck(s, swaps) == t
    decreases |s| - i
  {
    if i == |s| {
      assert s == s[..i] && t == t[..i];
      assert ShuffleDeck(s, []) == t;
    } else {
      var j := FindInSuffix(s, t, i);
      PlaceNext(s, t, i, j);
      ReachFrom(Swap(s, i, j), t, i + 1);
      var rest :| ShuffleDeck(Swap(s, i, j), rest) == t;
      ShuffleFirstSwap(s, i, j, rest);
      assert ShuffleDeck(s, [(i, j)] + rest) == t;
    }
  }
}
