/**
 * Cards and the Rock/Paper/Scissors dominance table of classes/game.js
 * (the `Card` enumeration and the `Compare` object).
 */
module Cards {
  import opened Wrappers

  datatype Card = Rock | Paper | Scissors

  /** Position of a card in the source's enumeration: ROCK = 0, PAPER = 1, SCISSORS = 2. */
  function Index(c: Card): (i: nat)
    ensures i < 3
  {
    match c
    case Rock => 0
    case Paper => 1
    case Scissors => 2
  }

  /** The card a vote index stands for; an index other than 0, 1 or 2 stands for none. */
  function FromIndex(i: int): (c: Option<Card>)
    ensures c.Some? <==> 0 <= i < 3
    ensures c.Some? ==> Index(c.value) == i
  {
    if i == 0 then Some(Rock)
    else if i == 1 then Some(Paper)
    else if i == 2 then Some(Scissors)
    else None
  }

  /** Index and FromIndex are inverse on the three cards. */
  lemma IndexRoundTrip(c: Card)
    ensures FromIndex(Index(c)) == Some(c)
  {
  }

  /**
   * Reference definition of dominance, independent of the `Compare` table:
   * a card beats the card one step below it, cyclically, in the enumeration.
   */
  predicate Beats(a: Card, b: Card) {
    (Index(a) - Index(b)) % 3 == 1
  }

  /** Column `strongTo` of `Compare`: the card that `c` beats. */
  function StrongTo(c: Card): (d: Card)
    ensures Beats(c, d)
  {
    match c
    case Rock => Scissors
    case Paper => Rock
    case Scissors => Paper
  }

  /** Column `weakTo` of `Compare`: the card that beats `c`. */
  function WeakTo(c: Card): (d: Card)
    ensures Beats(d, c)
  {
    match c
    case Rock => Paper
    case Paper => Scissors
    case Scissors => Rock
  }

  /** The table is a 3-cycle: for every card, `strongTo` and `weakTo` are the two other cards. */
  lemma CompareIsThreeCycle(c: Card)
    ensures StrongTo(c) != c && WeakTo(c) != c && StrongTo(c) != WeakTo(c)
    ensures {c, StrongTo(c), WeakTo(c)} == {Rock, Paper, Scissors}
    ensures StrongTo(StrongTo(StrongTo(c))) == c
  {
  }

  /** The two columns are inverse to each other. */
  lemma StrongToWeakToDual(a: Card, b: Card)
    ensures StrongTo(a) == b <==> WeakTo(b) == a
  {
  }

  /** Dominance is irreflexive, asymmetric and total on distinct cards. */
  lemma BeatsIsTournament(a: Card, b: Card)
    ensures !Beats(a, a)
    ensures Beats(a, b) ==> !Beats(b, a)
    ensures a != b ==> Beats(a, b) || Beats(b, a)
  {
  }

  /** How a round ends between the first and the second player in key order. */
  datatype Outcome = FirstWins | SecondWins | Tie

  /**
   * The comparison `revealCards` performs: the first player wins when the
   * second card is the first card's `strongTo`, the second player wins when
   * it is the first card's `weakTo`, and otherwise the round is a draw.
   */
  function Resolve(a: Card, b: Card): (o: Outcome)
    ensures o == FirstWins <==> Beats(a, b)
    ensures o == SecondWins <==> Beats(b, a)
    ensures o == Tie <==> a == b
  {
    if StrongTo(a) == b then FirstWins
    else if WeakTo(a) == b then SecondWins
    else Tie
  }
}
