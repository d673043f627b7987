/**
 * The `Player` and `Voter` records of classes/game.js and the pure
 * computations the `Game` methods perform on them: name lookup, the
 * `forEach` folds over `Object.keys`, the `splice` of a hand, the bet
 * clamp, the credit total and the seat tables sent to clients.
 *
 * A table is a sequence in `Object.keys` order, which for the names used
 * here is insertion order.
 */
module Roster {
  import opened Wrappers
  import opened Cards

  const INITIAL_CREDITS := 120
  const MAX_PLAYERS := 2
  const MAX_VOTERS := 30
  const HAND_SIZE := 3

  /** A seat: `number` is 1 or 2, `selection` is None until a card is picked. */
  datatype Player = Player(number: int, name: string, credits: int, hand: seq<Card>,
                           selection: Option<Card>, isReady: bool)

  datatype Voter = Voter(name: string, voted: bool)

  /**
   * The `Player` constructor: seat `number`, the initial credits, and a
   * player who holds no cards, has picked nothing, is not ready and has not
   * yet won.
   */
  function NewPlayer(number: int, name: string): (p: Player)
    ensures p.number == number && p.name == name && p.credits == INITIAL_CREDITS
    ensures !HasCards(p) && !HasSelection(p) && !IsReady(p) && !IsRich(p)
  {
    Player(number, name, INITIAL_CREDITS, [], None, false)
  }

  /** The `Voter` constructor: a registered voter has not voted yet. */
  function NewVoter(name: string): (v: Voter)
    ensures v.name == name && !HasVoted(v)
  {
    Voter(name, false)
  }

  predicate PlayerNamesDistinct(ps: seq<Player>) {
    forall i, j :: 0 <= i < j < |ps| ==> ps[i].name != ps[j].name
  }

  predicate VoterNamesDistinct(vs: seq<Voter>) {
    forall i, j :: 0 <= i < j < |vs| ==> vs[i].name != vs[j].name
  }

  /**
   * Position of the entry whose key is `name`, if any: the lookup
   * `this.players[name]` / `this.voters[name]` on a table in key order.
   */
  function Find<T>(s: seq<T>, key: T -> string, name: string): (r: Option<nat>)
    ensures r.None? <==> forall i :: 0 <= i < |s| ==> key(s[i]) != name
    ensures r.Some? ==> r.value < |s| && key(s[r.value]) == name
  {
    if |s| == 0 then None
    else if key(s[0]) == name then Some(0)
    else match Find(s[1..], key, name)
      case None => None
      case Some(k) => Some(k + 1)
  }

  function FindPlayer(ps: seq<Player>, name: string): Option<nat> {
    Find(ps, (p: Player) => p.name, name)
  }

  function FindVoter(vs: seq<Voter>, name: string): Option<nat> {
    Find(vs, (v: Voter) => v.name, name)
  }

  /** The sequence without its k-th element, the rest in order (`delete`, `splice(k, 1)`). */
  function RemoveAt<T>(s: seq<T>, k: nat): (r: seq<T>)
    requires k < |s|
    ensures |r| == |s| - 1
    ensures forall i :: 0 <= i < k ==> r[i] == s[i]
    ensures forall i :: k <= i < |r| ==> r[i] == s[i + 1]
    ensures multiset(r) + multiset{s[k]} == multiset(s)
  {
    assert s == s[..k] + [s[k]] + s[k + 1..];
    s[..k] + s[k + 1..]
  }

  /** The flag a `forEach` loop computes when it starts true and falls to false on any miss. */
  function All<T>(s: seq<T>, p: T -> bool): (r: bool)
    ensures r <==> forall i :: 0 <= i < |s| ==> p(s[i])
  {
    if |s| == 0 then true else All(s[..|s| - 1], p) && p(s[|s| - 1])
  }

  /** The flag a `forEach` loop computes when it starts false and rises to true on any hit. */
  function Any<T>(s: seq<T>, p: T -> bool): (r: bool)
    ensures r <==> exists i :: 0 <= i < |s| && p(s[i])
  {
    if |s| == 0 then false else Any(s[..|s| - 1], p) || p(s[|s| - 1])
  }

  /** The position a `forEach` loop that overwrites a variable on every hit leaves behind: the last hit. */
  function Last<T>(s: seq<T>, p: T -> bool): (r: Option<nat>)
    ensures r.None? <==> forall i :: 0 <= i < |s| ==> !p(s[i])
    ensures r.Some? ==> r.value < |s| && p(s[r.value])
    ensures r.Some? ==> forall i :: r.value < i < |s| ==> !p(s[i])
  {
    if |s| == 0 then None
    else if p(s[|s| - 1]) then Some(|s| - 1)
    else Last(s[..|s| - 1], p)
  }

  /** Extending the scanned prefix by one element: the step of every loop that computes `Last`. */
  lemma {:induction false} LastStep<T>(s: seq<T>, p: T -> bool, i: nat)
    requires i < |s|
    ensures Last(s[..i + 1], p) == if p(s[i]) then Some(i) else Last(s[..i], p)
  {
    assert s[..i + 1][..i] == s[..i];
  }

  /**
   * `makeCardSelection` on one hand: the selection is `hand[idx]`, which is
   * undefined (no selection) outside the hand, and the hand loses the element
   * `splice(idx, 1)` removes, a negative index counting from the end.
   */
  function Pick(hand: seq<Card>, idx: int): (r: (Option<Card>, seq<Card>))
    ensures r.0.Some? <==> 0 <= idx < |hand|
    ensures 0 <= idx < |hand| ==>
              r.0.value == hand[idx] && |r.1| == |hand| - 1 &&
              multiset(r.1) + multiset{hand[idx]} == multiset(hand) &&
              (forall i :: 0 <= i < |r.1| ==> r.1[i] == hand[if i < idx then i else i + 1])
    ensures idx >= |hand| ==> r.1 == hand
    ensures idx < 0 && hand != [] ==>
              var k := if |hand| + idx < 0 then 0 else |hand| + idx;
              |r.1| == |hand| - 1 && multiset(r.1) + multiset{hand[k]} == multiset(hand)
  {
    var selection := if 0 <= idx < |hand| then Some(hand[idx]) else None;
    var start := if idx >= 0 then idx else if |hand| + idx < 0 then 0 else |hand| + idx;
    (selection, if start < |hand| then RemoveAt(hand, start) else hand)
  }

  /**
   * `proposeBet` on an integer bet: a bet above the proposer's credits
   * becomes those credits, and then a bet that is not positive becomes 1.
   */
  function ClampBet(credits: int, bet: int): (r: int)
    ensures r >= 1
    ensures credits >= 1 ==> r <= credits
    ensures 1 <= bet <= credits ==> r == bet
    ensures 1 <= credits < bet ==> r == credits
    ensures bet <= 0 || credits <= 0 ==> r == 1
  {
    var capped := if credits < bet then credits else bet;
    if capped <= 0 then 1 else capped
  }

  /** `Math.trunc` on a number: rounds toward zero. */
  function Trunc(x: real): (n: int)
    ensures x >= 0.0 ==> n as real <= x < n as real + 1.0
    ensures x < 0.0 ==> n as real - 1.0 < x <= n as real
  {
    if x >= 0.0 then x.Floor else -((-x).Floor)
  }

  /**
   * `proposeBet` exactly as written, on any number: clamp to the credits,
   * replace a bet that is not positive by 1, and only then truncate.
   */
  function ProposedBetAsWritten(credits: int, bet: real): (r: int)
    ensures r >= 0
    ensures r == 0 <==> 0.0 < bet < 1.0 && credits >= 1
  {
    var capped := if (credits as real) < bet then credits as real else bet;
    var floored := if capped <= 0.0 then 1.0 else capped;
    Trunc(floored)
  }

  /** A bet of half a credit leaves the shared bet at zero. */
  lemma FractionalBetIsZero()
    ensures ProposedBetAsWritten(INITIAL_CREDITS, 0.5) == 0
  {
  }

  /**
   * The bet as evidently intended: truncate first, then clamp, so that the
   * result is always a whole bet of at least one credit.
   */
  function ProposedBet(credits: int, bet: real): (r: int)
    ensures r >= 1
    ensures credits >= 1 ==> r <= credits
    ensures bet == (bet.Floor as real) ==> r == ClampBet(credits, bet.Floor)
  {
    ClampBet(credits, Trunc(bet))
  }

  /** On whole numbers and on numbers of at least one, the source and the intended bet agree. */
  lemma {:induction false} ProposedBetAgrees(credits: int, bet: real)
    requires bet == (bet.Floor as real) || bet >= 1.0 || bet <= 0.0
    ensures ProposedBetAsWritten(credits, bet) == ProposedBet(credits, bet)
  {
  }

  /** The per-player tests the `Game` queries fold over. */
  function IsReady(p: Player): bool { p.isReady }
  function HasSelection(p: Player): bool { p.selection.Some? }
  function HasCards(p: Player): bool { |p.hand| > 0 }
  function HasVoted(v: Voter): bool { v.voted }

  /** A player holding at least twice the initial credits has won the game. */
  function IsRich(p: Player): bool { p.credits >= INITIAL_CREDITS * 2 }

  /** The test `player != name` of `playerRetire`. */
  function NotNamed(name: string): Player -> bool {
    (p: Player) => p.name != name
  }

  /**
   * The name a `forEach` loop that assigns `winner = player` on every hit
   * leaves in `winner`: that of the last hit, or the previous value.
   */
  function LastName(ps: seq<Player>, p: Player -> bool, previous: Option<string>): (r: Option<string>)
    ensures r.Some? && r != previous ==> exists i :: 0 <= i < |ps| && p(ps[i]) && ps[i].name == r.value
    ensures (exists i :: 0 <= i < |ps| && p(ps[i])) ==> r.Some? && exists i :: 0 <= i < |ps| && p(ps[i]) && ps[i].name == r.value
    ensures (forall i :: 0 <= i < |ps| ==> !p(ps[i])) ==> r == previous
  {
    match Last(ps, p)
    case None => previous
    case Some(i) => Some(ps[i].name)
  }

  /** With two distinct names seated, the last player not named like seat k is the other seat. */
  lemma OtherOfTwo(ps: seq<Player>, k: nat, previous: Option<string>)
    requires |ps| == 2 && k < 2 && PlayerNamesDistinct(ps)
    ensures LastName(ps, NotNamed(ps[k].name), previous) == Some(ps[1 - k].name)
  {
    assert NotNamed(ps[k].name)(ps[1 - k]);
    assert !NotNamed(ps[k].name)(ps[k]);
  }

  /** What `revealCards` and `updatePhaseOnPlayersReady` do to single players. */
  function ClearReady(p: Player): Player { p.(isReady := false) }
  function ClearSelection(p: Player): Player { p.(selection := None) }
  function ClearRound(p: Player): Player { p.(hand := [], selection := None) }

  /** The string `revealCards` stores in `winner` after a tie. */
  const DRAW := "Draw"

  /**
   * The round `revealCards` settles between the first and the second player
   * in key order, both having selected: the winner of the comparison takes
   * the bet from the other; a tie moves nothing. Gives both players after
   * the round and the name recorded as winner.
   */
  function Settle(first: Player, second: Player, bet: int): (r: (Player, Player, string))
    requires first.selection.Some? && second.selection.Some?
    ensures var a, b := first.selection.value, second.selection.value;
            (Beats(a, b) ==> r == (first.(credits := first.credits + bet),
                                   second.(credits := second.credits - bet), first.name)) &&
            (Beats(b, a) ==> r == (first.(credits := first.credits - bet),
                                   second.(credits := second.credits + bet), second.name)) &&
            (a == b ==> r == (first, second, DRAW))
    ensures r.0.credits + r.1.credits == first.credits + second.credits
  {
    match Resolve(first.selection.value, second.selection.value)
    case FirstWins =>
      (first.(credits := first.credits + bet), second.(credits := second.credits - bet), first.name)
    case SecondWins =>
      (first.(credits := first.credits - bet), second.(credits := second.credits + bet), second.name)
    case Tie =>
      (first, second, DRAW)
  }

  /**
   * The bet is clamped only to the proposer's credits, so a round lost with
   * a bet above the loser's credits leaves the loser in debt.
   */
  lemma LoserCanGoNegative(first: Player, second: Player, bet: int)
    requires first.selection.Some? && second.selection.Some?
    requires Beats(first.selection.value, second.selection.value)
    requires bet > second.credits
    ensures Settle(first, second, bet).1.credits < 0
  {
  }

  /** The sum of all players' credits. */
  function TotalCredits(ps: seq<Player>): int {
    if |ps| == 0 then 0 else TotalCredits(ps[..|ps| - 1]) + ps[|ps| - 1].credits
  }

  /** Replacing one player changes the total by exactly that player's change of credits. */
  lemma {:induction false} TotalCreditsUpdate(ps: seq<Player>, k: nat, p: Player)
    requires k < |ps|
    ensures TotalCredits(ps[k := p]) == TotalCredits(ps) - ps[k].credits + p.credits
  {
    var n := |ps| - 1;
    if k < n {
      assert ps[k := p][..n] == ps[..n][k := p];
      TotalCreditsUpdate(ps[..n], k, p);
    } else {
      assert ps[k := p][..n] == ps[..n];
    }
  }

  /** The test `player.number == n`. */
  function HoldsSeat(n: int): Player -> bool {
    (p: Player) => p.number == n
  }

  /** No player after position i holds i's seat. */
  predicate LastOfSeat(ps: seq<Player>, i: nat)
    requires i < |ps|
  {
    forall j :: i < j < |ps| ==> ps[j].number != ps[i].number
  }

  /**
   * What one slot of the seat table ends up holding: the players are visited
   * in key order and each is written to slot `number - 1`, so the slot holds
   * the last player with that seat number.
   */
  function SeatOccupant(ps: seq<Player>, n: int): (r: Option<Player>)
    ensures r.None? <==> forall i :: 0 <= i < |ps| ==> ps[i].number != n
    ensures r.Some? ==> r.value in ps && r.value.number == n
    ensures forall i :: 0 <= i < |ps| && ps[i].number == n && LastOfSeat(ps, i) ==> r == Some(ps[i])
  {
    match Last(ps, HoldsSeat(n))
    case None => None
    case Some(i) => Some(ps[i])
  }

  /** The two-entry table of `getPlayersState` and `getPlayersSelections`, by seat. */
  function SeatTable(ps: seq<Player>): (t: seq<Option<Player>>)
    ensures |t| == MAX_PLAYERS
    ensures forall s :: 0 <= s < MAX_PLAYERS ==> t[s] == SeatOccupant(ps, s + 1)
  {
    [SeatOccupant(ps, 1), SeatOccupant(ps, 2)]
  }

  /** One entry of `getPlayersState`: everything but the socket and the hand. */
  datatype PlayerView = PlayerView(number: int, name: string, credits: int,
                                   selection: Option<Card>, isReady: bool)

  function ViewOf(p: Player): PlayerView {
    PlayerView(p.number, p.name, p.credits, p.selection, p.isReady)
  }

  /** One entry of `getPlayersSelections`. */
  datatype SelectionView = SelectionView(number: int, name: string, selection: Option<Card>)

  function SelectionOf(p: Player): SelectionView {
    SelectionView(p.number, p.name, p.selection)
  }

  /** One entry of `getVotersState`. */
  datatype VoterView = VoterView(name: string, voted: bool)
}
