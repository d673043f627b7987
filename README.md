# Vote Rock-Paper-Scissors: the game session in Dafny

This project models the `Game` session engine of a two-player, credit-betting
Rock-Paper-Scissors game. An audience of voters decides which cards go into the deck.
One `Game` holds:

- a two-seat player table and a voter table, both in `Object.keys` (insertion) order;
- the phase: LOBBY, BETTING, VOTING, DRAWING, RESOLUTION or FINISHED;
- the single shared bet, the deck and the winner.

Its operations seat players and voters, toggle readiness and advance the phase when both
players are ready. They also clamp bets, record votes into the deck, and pad, shuffle and
deal the deck three cards per player. The last ones pick cards from a hand, settle a round
by the cyclic dominance table, and end the game on a forfeit.

Files:

- `wrappers.dfy`: `Option`, which stands for JavaScript's `null`/`undefined`.
- `cards.dfy`: the `Card` enumeration and the `Compare` table (`StrongTo`, `WeakTo`). A reference
  dominance relation `Beats` is defined independently of the table, by position in the
  enumeration. `Resolve` is the comparison a round makes.
- `deck.dfy`: `fillDeck` and `shuffleDeck`. The random choices are parameters: a function
  `draw` gives the k-th random card, and the shuffle is a sequence of transpositions.
- `roster.dfy`: the `Player` and `Voter` records, and the pure computations the `Game`
  methods perform. These are name lookup, the flag folds of the `forEach` loops,
  `hand[idx]` with `splice(idx, 1)`, the bet clamp, round settlement, the credit total
  and the seat tables sent to clients.
- `game.dfy`: class `Game`. Its fields are the source's fields. Its methods change them in
  place. `Valid()` is the invariant every method keeps: the counters bound the tables
  (at most 2 players, at most 30 voters), seat numbers are 1 or 2, and keys are distinct.
- `scenarios.dfy`: walk-throughs of a session proved from the contracts alone. They cover
  seating, the lobby, the bet clamp, dealing with no voters, a win, a draw, an out-of-range
  vote, a forfeit and a reused seat number.

Where the code and the intended design differ, the model follows the code. The one exception is the
fractional bet under "## Findings": `Session.Game.ProposeBet` uses the corrected bet.

- A vote with an index other than 0, 1 or 2 adds no card, but still marks the voter as
  having voted.
- The guard at `classes/game.js:196` does not stop a voter from voting twice. It throws for a
  non-voter, so `MakeVote` requires a registered voter.
- Dealt cards are not removed from the deck. The deck is emptied only when a round is won,
  the game goes on, and a player is seated, because the clearing sits inside the loop over
  the players (`classes/game.js:334-339`). After a draw in which the hands are used up, BETTING
  starts again with the old deck kept. The next deal then pads and shuffles the old cards
  together with the new votes (`Session.Game.AdvanceFromResolution`).
- A new player's seat number is the seat count after the increment, not the free seat.
  After a removal, two players can share seat 2 (`Scenarios.SeatNumberReusedAfterRemoval`).
- `addPlayer` and `addVoter` overwrite an existing entry of the same name in place and still
  increment the counter.
- `proposeBet` does not look at the phase, and `makeCardSelection` does not refuse a second pick.
- After a win, the game finishes if ANY player holds at least 240 credits. The last such
  player in key order becomes the winner.
- The draw marker is the string `"Draw"`, as in the source, so a player named `Draw` who wins
  a round is taken for a draw.
- The bet is clamped only to the proposer's credits, not to the opponent's. A player who
  loses with a bet above their credits ends with negative credits (`Roster.LoserCanGoNegative`).
- The voter cap is the 30 hard-coded in the class, and the initial credits are 120.

## Model

| member | source | states |
|---|---|---|
| Cards.Index | classes/game.js:17-21 | each card's number in the enumeration is 0, 1 or 2 |
| Cards.FromIndex | classes/game.js:200-212 | a vote index denotes a card exactly when it is 0, 1 or 2, and then the card with that number |
| Cards.IndexRoundTrip | classes/game.js:17-21 | number and card convert back and forth without loss |
| Cards.StrongTo | classes/game.js:23-36 | the `strongTo` column gives a card that the card beats (Rock>Scissors, Paper>Rock, Scissors>Paper) |
| Cards.WeakTo | classes/game.js:23-36 | the `weakTo` column gives a card that beats the card |
| Cards.CompareIsThreeCycle | classes/game.js:23-36 | for every card, `strongTo` and `weakTo` are the two other cards, and three `strongTo` steps come back to it |
| Cards.StrongToWeakToDual | classes/game.js:23-36 | `strongTo(a) = b` if and only if `weakTo(b) = a` |
| Cards.BeatsIsTournament | classes/game.js:23-36 | no card beats itself; of two distinct cards exactly one beats the other |
| Cards.Resolve | classes/game.js:152-166 | the first player wins iff their card beats the second's; the second wins iff the reverse holds; a draw iff the cards are equal |
| Deck.Padded | classes/game.js:64-72 | the filled deck keeps the old deck as a prefix, is padded with random cards to at least 30, and is never shortened |
| Deck.FillDeck | classes/game.js:64-72 | the push loop yields exactly the padded deck |
| Deck.ShuffleDeck | classes/game.js:74-76 | shuffling keeps the length and the multiset of cards |
| Deck.ShuffleReachesEveryArrangement | classes/game.js:74-76 | every rearrangement of the deck is some shuffle outcome, so the model of the shuffle excludes none |
| Roster.NewPlayer | classes/game.js:40-51 | a new player has the given seat number and name and 120 credits; they hold no cards, have picked nothing, are not ready and have not won |
| Roster.NewVoter | classes/game.js:53-60 | a new voter has the given name and has not voted |
| Roster.Find | classes/game.js:93-95 | a name is found iff some entry of the table has that key, and then the position found holds it |
| Session.Game.IsPlayer | classes/game.js:93-95 | true iff some seated player has the key |
| Session.Game.IsVoter | classes/game.js:181-183 | true iff some registered voter has the key |
| Roster.RemoveAt | classes/game.js:171-179 | deleting one entry keeps the others in order and removes exactly that element from the multiset |
| Roster.All | classes/game.js:284-299 | a flag that starts true and is cleared on any miss ends true iff every element passes |
| Roster.Any | classes/game.js:404-414 | a flag that starts false and is set on any hit ends true iff some element passes |
| Roster.Last | classes/game.js:423-434 | a variable overwritten on every hit ends at the last hit, and at nothing iff there was no hit |
| Roster.LastName | classes/game.js:113-117 | the winner a forEach loop leaves is a name of a matching player, or the previous value when none matches |
| Roster.OtherOfTwo | classes/game.js:107-118 | with two distinct players seated, the forfeit loop names the other player |
| Roster.Pick | classes/game.js:136-143 | a valid index selects `hand[idx]`, and the hand loses exactly that card, the rest in order; an index past the end selects nothing and keeps the hand; a negative one selects nothing and removes one card counted from the end |
| Roster.ClampBet | classes/game.js:126-133 | for a whole bet: the result is at least 1; it is at most the credits when they are at least 1; it equals the bet when the bet is between 1 and the credits |
| Roster.Trunc | classes/game.js:133 | `Math.trunc` rounds toward zero |
| Roster.ProposedBetAsWritten | classes/game.js:126-133 | the bet as written is never negative, and is 0 exactly for a bet strictly between 0 and 1 from a player with credits |
| Roster.FractionalBetIsZero | classes/game.js:126-133 | half a credit proposed by a player with 120 credits leaves the bet at 0 |
| Roster.ProposedBet | classes/game.js:120-134 | the corrected bet is at least 1, at most the credits when they are at least 1, and equals the clamp for whole bets |
| Roster.ProposedBetAgrees | classes/game.js:126-133 | the written and the corrected bet agree on whole bets and on bets of at least 1 or at most 0 |
| Roster.Settle | classes/game.js:145-169 | the card winner gains the bet and the loser loses it, and the winner's name is recorded; a tie records `Draw` and moves nothing; the two players' total is unchanged |
| Roster.LoserCanGoNegative | classes/game.js:155-162 | a player who loses a round with a bet above their credits ends with negative credits |
| Roster.TotalCreditsUpdate | classes/game.js:155-162 | replacing one player changes the total credits by exactly that player's change |
| Roster.SeatOccupant | classes/game.js:230-238 | a seat slot is empty iff no player has that number; otherwise it holds the last player in key order with that number |
| Roster.SeatTable | classes/game.js:228-240 | the table has two slots, slot s holding the occupant of seat s+1 |
| Session.Game.constructor | classes/game.js:78-91 | a new game is in LOBBY with no players or voters, bet 0, an empty deck and no winner |
| Session.Game.AddPlayer | classes/game.js:97-105 | with fewer than 2 counted seats it succeeds: the count goes up, and the player gets seat number = new count, 120 credits, an empty hand, no selection and not ready (appended, or overwriting the same name in place); with 2 it fails and changes nothing |
| Session.Game.RemovePlayer | classes/game.js:171-179 | succeeds iff the name is seated; then the entry is deleted with the order kept and the count goes down |
| Session.Game.AddVoter | classes/game.js:185-193 | with fewer than 30 counted voters it registers a voter who has not voted and increments the count; otherwise nothing changes |
| Session.Game.RemoveVoter | classes/game.js:217-225 | succeeds iff the name is registered; then the entry is deleted with the order kept and the count goes down |
| Session.Game.PlayerRetire | classes/game.js:107-118 | a non-player changes nothing; a player ends the game (FINISHED), and with two seated the other player becomes the winner |
| Session.Game.ProposeBet | classes/game.js:120-134 | a non-player changes nothing; otherwise the shared bet becomes the corrected clamp of the proposal: at least 1, and at most the proposer's credits when they are at least 1. It equals the bet as written for every proposal except a fraction strictly between 0 and 1 |
| Session.Game.MakeCardSelection | classes/game.js:136-143 | only the picking player changes: the selection becomes `hand[idx]` and the hand loses that card, as in Pick |
| Session.Game.ArePlayersFinished | classes/game.js:351-362 | true iff every seated player has a selection |
| Session.Game.RevealCards | classes/game.js:145-169 | a no-op until everyone has selected; then the round is settled between the two players in key order, the phase is RESOLUTION, and total credits are conserved |
| Session.Game.MakeVote | classes/game.js:195-215 | the deck gains ROCK, PAPER or SCISSORS for index 0, 1 or 2 and nothing otherwise; the voter is marked as voted either way |
| Session.Game.PlayerReadyAction | classes/game.js:275-282 | exactly the named player's readiness flips |
| Session.Game.ArePlayersReady | classes/game.js:284-299 | false with fewer than 2 counted seats; otherwise true iff every player is ready |
| Session.Game.AreVotersFinished | classes/game.js:364-375 | true iff every voter has voted, so also with no voters |
| Session.Game.DoPlayersHaveCards | classes/game.js:404-414 | true iff some player holds a card |
| Session.Game.DrawPlayerCards | classes/game.js:377-388 | player k in key order gets hand `deck[3k..3k+3]`; nothing else changes, the deck included |
| Session.Game.OnVotersFinished | classes/game.js:390-402 | phase DRAWING; the deck becomes a shuffle of the padded deck; the hands are dealt from it; every voter's flag is cleared |
| Session.Game.ResetPlayersSelections | classes/game.js:416-421 | every selection and the winner are cleared; nothing else changes |
| Session.Game.IsThereAWinner | classes/game.js:423-434 | true iff some player holds at least 240 credits; then the winner is the name of such a player (the last one in key order) |
| Session.Game.ClearReadiness | classes/game.js:343-346 | every player's readiness is cleared; nothing else changes |
| Session.Game.ClearRoundState | classes/game.js:330-340 | every hand and selection is emptied; the deck and the winner are cleared only if there is a player |
| Session.Game.AdvanceFromResolution | classes/game.js:313-341 | after a draw: selections and winner cleared, then DRAWING if cards remain, else BETTING; after a win: FINISHED when someone holds 240 credits, else BETTING with the round cleared |
| Session.Game.UpdatePhaseOnPlayersReady | classes/game.js:301-349 | LOBBY to BETTING; BETTING to VOTING, or straight to the dealt DRAWING state when every voter has voted; RESOLUTION as in AdvanceFromResolution; other phases stay. Readiness is cleared and credits are kept throughout. FINISHED is only entered with a player at 240 credits |
| Session.Game.GetPlayersState | classes/game.js:227-241 | two slots by seat number holding each player's public fields (no hand); a slot is empty iff nobody holds that seat |
| Session.Game.GetPlayersSelections | classes/game.js:243-260 | all empty during DRAWING; otherwise each seat's number, name and selection |
| Session.Game.GetVotersState | classes/game.js:262-273 | every voter's name and flag, in key order |

## Findings

| source | as written | input that shows it | evidently intended | confidence | as-written member | corrected member |
|---|---|---|---|---|---|---|
| classes/game.js:126-133 | the bet is clamped to the credits and raised to 1 when not positive, and only then truncated | a player with 120 credits proposes 0.5: the shared bet becomes 0 (`Roster.FractionalBetIsZero`) | a whole bet of at least 1 credit: truncate, then clamp | medium, not executed | Roster.ProposedBetAsWritten | Roster.ProposedBet |

`Session.Game.ProposeBet` uses the corrected bet.

## Left out

- Sockets: the `socket` fields of players and voters, and everything sent over them, are
  not modelled. The server's join, reattach, broadcast and disconnect handling is not
  part of this model.
- `console.log` calls are not modelled.
- Deck.FillDeck: the random card of each push is a parameter `draw`. Whether the draws are
  uniform is not modelled.
- Deck.ShuffleDeck: the outcome of the sort with a random comparator is given by the caller
  as transpositions. Which arrangements that sort produces, and with what probabilities,
  is not modelled. `ShuffleReachesEveryArrangement` shows that the model excludes none.
- Session.Game.ProposeBet: for a proposal strictly between 0 and 1, from a player with at least 1
  credit, the code sets the bet to 0. The model sets the corrected bet instead, which is at
  least 1 (see "## Findings"). For every other proposal the two agree, and the method's contract
  states this.
- Inherited keys: the tables are plain objects, so a lookup also finds names inherited from
  `Object.prototype` such as `constructor` or `toString`. Assigning to `__proto__` replaces the
  prototype instead of adding an entry. The model treats every name as an ordinary key. These
  names are not modelled.
- Key order: tables are kept in insertion order. JavaScript lists integer-like keys such as
  `"7"` first, in numeric order; such names are not modelled.
- Dynamic typing: bets are numbers (`real`) and indices are integers. Strings, `NaN`,
  `undefined` and fractional indices as arguments are not modelled.
- Calls that throw in the source are preconditions here:
  - `makeCardSelection`, `playerReadyAction` on a non-player;
  - `makeVote` on a non-voter;
  - `revealCards` when every seated player has selected but fewer than two are seated.
- `config.js` (`GAME_VALUES`) is not read by the class and is not modelled. The HTTP routes,
  the database models, the token check and the browser scripts are not part of this model.
