/**
 * The `Game` session of classes/game.js: a two-seat player table and a voter
 * table, both in `Object.keys` order, the phase, the shared bet, the deck and
 * the winner, with the operations the socket handlers call on them.
 */
module Session {
  import opened Wrappers
  import opened Cards
  import opened Deck
  import opened Roster

  datatype Phase = Lobby | Betting | Voting | Drawing | Resolution | Finished

  class Game {
    const code: string
    var players: seq<Player>
    var voters: seq<Voter>
    var phase: Phase
    var currentBet: int
    var deck: seq<Card>
    var winner: Option<string>
    var numPlayers: int
    var numVoters: int

    /**
     * The counters bound the tables (a seat taken twice by one name counts
     * twice), seat numbers are 1 or 2, and keys are distinct.
     */
    ghost predicate Valid()
      reads this
    {
      0 <= |players| <= numPlayers <= MAX_PLAYERS &&
      0 <= |voters| <= numVoters <= MAX_VOTERS &&
      (forall i :: 0 <= i < |players| ==> 1 <= players[i].number <= MAX_PLAYERS) &&
      PlayerNamesDistinct(players) && VoterNamesDistinct(voters)
    }

    constructor (gameCode: string)
      ensures Valid()
      ensures code == gameCode && players == [] && voters == [] && phase == Lobby
      ensures currentBet == 0 && deck == [] && winner == None
      ensures numPlayers == 0 && numVoters == 0
    {
      code := gameCode;
      players := [];
      voters := [];
      phase := Lobby;
      currentBet := 0;
      deck := [];
      winner := None;
      numPlayers := 0;
      numVoters := 0;
    }

    /** `isPlayer`: some seated player has the key `name`. */
    predicate IsPlayer(name: string): (r: bool)
      reads this
      ensures r <==> exists k :: 0 <= k < |players| && players[k].name == name
    {
      FindPlayer(players, name).Some?
    }

    /** `isVoter`: some registered voter has the key `name`. */
    predicate IsVoter(name: string): (r: bool)
      reads this
      ensures r <==> exists k :: 0 <= k < |voters| && voters[k].name == name
    {
      FindVoter(voters, name).Some?
    }

    /**
     * Seat a player while fewer than two seats are counted. The new player's
     * seat number is the new count. A name already seated is overwritten in
     * place, and the count still goes up.
     */
    method AddPlayer(name: string) returns (added: bool)
      requires Valid()
      modifies this
      ensures Valid()
      ensures added <==> old(numPlayers) < MAX_PLAYERS
      ensures numPlayers == if added then old(numPlayers) + 1 else old(numPlayers)
      ensures added ==> IsPlayer(name) &&
                        players[FindPlayer(players, name).value] == NewPlayer(numPlayers, name)
      ensures added && !old(IsPlayer(name)) ==> players == old(players) + [NewPlayer(numPlayers, name)]
      ensures added && old(IsPlayer(name)) ==>
                players == old(players)[old(FindPlayer(players, name).value) := NewPlayer(numPlayers, name)]
      ensures !added ==> players == old(players)
      ensures voters == old(voters) && numVoters == old(numVoters) && phase == old(phase)
      ensures currentBet == old(currentBet) && deck == old(deck) && winner == old(winner)
    {
      added := numPlayers < MAX_PLAYERS;
      if added {
        numPlayers := numPlayers + 1;
        var p := NewPlayer(numPlayers, name);
        match FindPlayer(players, name)
        case Some(k) =>
          players := players[k := p];
          assert players[k].name == name;
        case None =>
          players := players + [p];
          assert players[|players| - 1].name == name;
      }
    }

    /** Delete a seated player and give the seat count back. */
    method RemovePlayer(name: string) returns (removed: bool)
      requires Valid()
      modifies this
      ensures Valid()
      ensures removed <==> old(IsPlayer(name))
      ensures removed ==> players == RemoveAt(old(players), old(FindPlayer(players, name).value)) &&
                          numPlayers == old(numPlayers) - 1 && !IsPlayer(name)
      ensures !removed ==> players == old(players) && numPlayers == old(numPlayers)
      ensures voters == old(voters) && numVoters == old(numVoters) && phase == old(phase)
      ensures currentBet == old(currentBet) && deck == old(deck) && winner == old(winner)
    {
      match FindPlayer(players, name)
      case Some(k) =>
        players := RemoveAt(players, k);
        numPlayers := numPlayers - 1;
        removed := true;
      case None =>
        removed := false;
    }

    /** Register a voter while fewer than thirty are counted. */
    method AddVoter(name: string) returns (added: bool)
      requires Valid()
      modifies this
      ensures Valid()
      ensures added <==> old(numVoters) < MAX_VOTERS
      ensures numVoters == if added then old(numVoters) + 1 else old(numVoters)
      ensures added ==> IsVoter(name) && voters[FindVoter(voters, name).value] == NewVoter(name)
      ensures added && !old(IsVoter(name)) ==> voters == old(voters) + [NewVoter(name)]
      ensures added && old(IsVoter(name)) ==>
                voters == old(voters)[old(FindVoter(voters, name).value) := NewVoter(name)]
      ensures !added ==> voters == old(voters)
      ensures players == old(players) && numPlayers == old(numPlayers) && phase == old(phase)
      ensures currentBet == old(currentBet) && deck == old(deck) && winner == old(winner)
    {
      added := numVoters < MAX_VOTERS;
      if added {
        numVoters := numVoters + 1;
        var v := NewVoter(name);
        match FindVoter(voters, name)
        case Some(k) =>
          voters := voters[k := v];
          assert voters[k].name == name;
        case None =>
          voters := voters + [v];
          assert voters[|voters| - 1].name == name;
      }
    }

    /** Delete a registered voter and give the place back. */
    method RemoveVoter(name: string) returns (removed: bool)
      requires Valid()
      modifies this
      ensures Valid()
      ensures removed <==> old(IsVoter(name))
      ensures removed ==> voters == RemoveAt(old(voters), old(FindVoter(voters, name).value)) &&
                          numVoters == old(numVoters) - 1 && !IsVoter(name)
      ensures !removed ==> voters == old(voters) && numVoters == old(numVoters)
      ensures players == old(players) && numPlayers == old(numPlayers) && phase == old(phase)
      ensures currentBet == old(currentBet) && deck == old(deck) && winner == old(winner)
    {
      match FindVoter(voters, name)
      case Some(k) =>
        voters := RemoveAt(voters, k);
        numVoters := numVoters - 1;
        removed := true;
      case None =>
        removed := false;
    }

    /**
     * Forfeit: a seated player ends the game at once, and every other seated
     * player, the last one in key order, becomes the winner.
     */
    method PlayerRetire(name: string)
      requires Valid()
      modifies this
      ensures Valid()
      ensures !old(IsPlayer(name)) ==> phase == old(phase) && winner == old(winner)
      ensures old(IsPlayer(name)) ==> phase == Finished &&
                                      winner == LastName(players, NotNamed(name), old(winner))
      ensures players == old(players) && numPlayers == old(numPlayers)
      ensures voters == old(voters) && numVoters == old(numVoters)
      ensures currentBet == old(currentBet) && deck == old(deck)
      ensures old(IsPlayer(name)) && |players| == 2 ==>
                winner == Some(players[1 - FindPlayer(players, name).value].name)
    {
      if !IsPlayer(name) {
        return;
      }
      var w := winner;
      var i := 0;
      while i < |players|
        invariant 0 <= i <= |players|
        invariant unchanged(this)
        invariant w == LastName(players[..i], NotNamed(name), old(winner))
      {
        LastStep(players, NotNamed(name), i);
        if players[i].name != name {
          w := Some(players[i].name);
        }
        i := i + 1;
      }
      assert players[..i] == players;
      phase := Finished;
      winner := w;
      if |players| == 2 {
        OtherOfTwo(players, FindPlayer(players, name).value, old(winner));
      }
    }

    /**
     * A seated player sets the shared bet: clamped to the proposer's credits,
     * at least one, truncated to a whole number. Anyone else changes nothing.
     */
    method ProposeBet(name: string, bet: real)
      requires Valid()
      modifies this
      ensures Valid()
      ensures players == old(players) && numPlayers == old(numPlayers) && phase == old(phase)
      ensures !old(IsPlayer(name)) ==> currentBet == old(currentBet)
      ensures old(IsPlayer(name)) ==>
                var credits := players[FindPlayer(players, name).value].credits;
                currentBet == ProposedBet(credits, bet) &&
                currentBet >= 1 && (credits >= 1 ==> currentBet <= credits) &&
                (bet == bet.Floor as real || bet >= 1.0 || bet <= 0.0 ==>
                   currentBet == ProposedBetAsWritten(credits, bet))
      ensures voters == old(voters) && numVoters == old(numVoters)
      ensures deck == old(deck) && winner == old(winner)
    {
      match FindPlayer(players, name)
      case Some(k) =>
        if bet == bet.Floor as real || bet >= 1.0 || bet <= 0.0 {
          ProposedBetAgrees(players[k].credits, bet);
        }
        currentBet := ProposedBet(players[k].credits, bet);
      case None =>
    }

    /**
     * A seated player picks the card at `idx` from the hand: it becomes the
     * selection and leaves the hand, the other cards keeping their order.
     */
    method MakeCardSelection(name: string, idx: int)
      requires Valid()
      requires IsPlayer(name)
      modifies this
      ensures Valid()
      ensures |players| == |old(players)| && IsPlayer(name)
      ensures var k := old(FindPlayer(players, name).value);
              var before := old(players[k]);
              FindPlayer(players, name) == Some(k) &&
              players == old(players)[k := before.(selection := Pick(before.hand, idx).0,
                                                   hand := Pick(before.hand, idx).1)] &&
              (0 <= idx < |before.hand| ==>
                 players[k].selection == Some(before.hand[idx]) &&
                 players[k].hand == RemoveAt(before.hand, idx))
      ensures numPlayers == old(numPlayers) && phase == old(phase)
      ensures voters == old(voters) && numVoters == old(numVoters)
      ensures currentBet == old(currentBet) && deck == old(deck) && winner == old(winner)
    {
      var k := FindPlayer(players, name).value;
      var p := players[k];
      var picked := Pick(p.hand, idx);
      players := players[k := p.(selection := picked.0, hand := picked.1)];
      assert players[k].name == name && PlayerNamesDistinct(players);
    }

    /** True when every seated player has selected a card. */
    function ArePlayersFinished(): (r: bool)
      reads this
      ensures r <==> forall i :: 0 <= i < |players| ==> players[i].selection.Some?
    {
      All(players, HasSelection)
    }

    /**
     * Once every player has selected, settle the round between the first and
     * the second player in key order and enter RESOLUTION; otherwise do
     * nothing. Credits only move between the two players.
     */
    method RevealCards()
      requires Valid()
      requires ArePlayersFinished() ==> |players| == 2
      modifies this
      ensures Valid()
      ensures !old(ArePlayersFinished()) ==>
                players == old(players) && phase == old(phase) && winner == old(winner)
      ensures old(ArePlayersFinished()) ==>
                var r := Settle(old(players[0]), old(players[1]), old(currentBet));
                players == [r.0, r.1] && winner == Some(r.2) && phase == Resolution
      ensures TotalCredits(players) == old(TotalCredits(players))
      ensures numPlayers == old(numPlayers) && voters == old(voters) && numVoters == old(numVoters)
      ensures currentBet == old(currentBet) && deck == old(deck)
    {
      if !ArePlayersFinished() {
        return;
      }
      var r := Settle(players[0], players[1], currentBet);
      winner := Some(r.2);
      TotalCreditsUpdate(players, 0, r.0);
      TotalCreditsUpdate(players[0 := r.0], 1, r.1);
      assert players[0 := r.0][1 := r.1] == [r.0, r.1];
      players := [r.0, r.1];
      phase := Resolution;
    }

    /**
     * A registered voter votes: index 0, 1 or 2 appends ROCK, PAPER or
     * SCISSORS to the deck, any other index appends nothing, and either way
     * the voter is marked as having voted. A repeat vote is not refused.
     */
    method MakeVote(name: string, idx: int)
      requires Valid()
      requires IsVoter(name)
      modifies this
      ensures Valid()
      ensures deck == old(deck) + match FromIndex(idx) case Some(c) => [c] case None => []
      ensures var k := old(FindVoter(voters, name).value);
              voters == old(voters)[k := old(voters[k]).(voted := true)]
      ensures players == old(players) && numPlayers == old(numPlayers) && phase == old(phase)
      ensures numVoters == old(numVoters) && currentBet == old(currentBet) && winner == old(winner)
    {
      match FromIndex(idx) {
      case Some(c) =>
        deck := deck + [c];
      case None =>
      }
      var k := FindVoter(voters, name).value;
      voters := voters[k := voters[k].(voted := true)];
    }

    /** Toggle a seated player's readiness. */
    method PlayerReadyAction(name: string)
      requires Valid()
      requires IsPlayer(name)
      modifies this
      ensures Valid()
      ensures var k := old(FindPlayer(players, name).value);
              players == old(players)[k := old(players[k]).(isReady := !old(players[k].isReady))]
      ensures numPlayers == old(numPlayers) && phase == old(phase)
      ensures voters == old(voters) && numVoters == old(numVoters)
      ensures currentBet == old(currentBet) && deck == old(deck) && winner == old(winner)
    {
      var k := FindPlayer(players, name).value;
      players := players[k := players[k].(isReady := !players[k].isReady)];
    }

    /** False while fewer than two seats are counted, otherwise whether everyone is ready. */
    function ArePlayersReady(): (r: bool)
      reads this
      ensures r <==> numPlayers >= MAX_PLAYERS && forall i :: 0 <= i < |players| ==> players[i].isReady
    {
      numPlayers >= MAX_PLAYERS && All(players, IsReady)
    }

    /** True when every registered voter has voted (so also when there are none). */
    function AreVotersFinished(): (r: bool)
      reads this
      ensures r <==> forall i :: 0 <= i < |voters| ==> voters[i].voted
    {
      All(voters, HasVoted)
    }

    /** True when some seated player still holds a card. */
    function DoPlayersHaveCards(): (r: bool)
      reads this
      ensures r <==> exists i :: 0 <= i < |players| && |players[i].hand| > 0
    {
      Any(players, HasCards)
    }

    /** Each player in key order is dealt the next three cards of the deck; the deck keeps them. */
    method DrawPlayerCards()
      requires Valid()
      requires |deck| >= HAND_SIZE * |players|
      modifies this
      ensures Valid()
      ensures deck == old(deck) && phase == old(phase) && winner == old(winner)
      ensures |players| == |old(players)|
      ensures forall k :: 0 <= k < |players| ==>
                players[k] == old(players[k]).(hand := deck[HAND_SIZE * k .. HAND_SIZE * (k + 1)])
      ensures numPlayers == old(numPlayers) && voters == old(voters) && numVoters == old(numVoters)
      ensures currentBet == old(currentBet)
    {
      var cardIt := 0;
      var k := 0;
      while k < |players|
        invariant 0 <= k <= |players| == |old(players)|
        invariant deck == old(deck) && phase == old(phase) && winner == old(winner)
        invariant cardIt == HAND_SIZE * k
        invariant forall j :: 0 <= j < k ==>
                    players[j] == old(players[j]).(hand := deck[HAND_SIZE * j .. HAND_SIZE * (j + 1)])
        invariant forall j :: k <= j < |players| ==> players[j] == old(players[j])
        invariant numPlayers == old(numPlayers) && voters == old(voters) && numVoters == old(numVoters)
        invariant currentBet == old(currentBet)
      {
        var hand: seq<Card> := [];
        var it := 0;
        while it < HAND_SIZE
          invariant 0 <= it <= HAND_SIZE
          invariant cardIt == HAND_SIZE * k + it
          invariant hand == deck[HAND_SIZE * k .. cardIt]
        {
          hand := hand + [deck[cardIt]];
          cardIt := cardIt + 1;
          it := it + 1;
        }
        players := players[k := players[k].(hand := hand)];
        k := k + 1;
      }
    }

    /**
     * Voting is over: enter DRAWING, pad the deck with random cards to the
     * minimum size, shuffle it, deal three cards to each player and open the
     * next voting round for every voter.
     */
    method OnVotersFinished(draw: nat -> Card, swaps: seq<(nat, nat)>)
      requires Valid()
      modifies this
      ensures Valid()
      ensures phase == Drawing
      ensures deck == ShuffleDeck(Padded(old(deck), draw), swaps)
      ensures |players| == |old(players)|
      ensures forall k :: 0 <= k < |players| ==>
                players[k] == old(players[k]).(hand := deck[HAND_SIZE * k .. HAND_SIZE * (k + 1)])
      ensures |voters| == |old(voters)|
      ensures forall k :: 0 <= k < |voters| ==> voters[k] == old(voters[k]).(voted := false)
      ensures numPlayers == old(numPlayers) && numVoters == old(numVoters)
      ensures currentBet == old(currentBet) && winner == old(winner)
    {
      phase := Drawing;
      var filled := FillDeck(deck, draw);
      deck := ShuffleDeck(filled, swaps);
      DrawPlayerCards();
      ghost var dealt := players;
      var k := 0;
      while k < |voters|
        invariant 0 <= k <= |voters| == |old(voters)|
        invariant forall j :: 0 <= j < k ==> voters[j] == old(voters[j]).(voted := false)
        invariant forall j :: k <= j < |voters| ==> voters[j] == old(voters[j])
        invariant VoterNamesDistinct(voters)
        invariant players == dealt && deck == ShuffleDeck(filled, swaps)
        invariant phase == Drawing && winner == old(winner)
        invariant unchanged(this`numPlayers, this`numVoters, this`currentBet)
      {
        voters := voters[k := voters[k].(voted := false)];
        k := k + 1;
      }
    }

    /** Clear every player's selection and the winner. */
    method ResetPlayersSelections()
      requires Valid()
      modifies this
      ensures Valid()
      ensures |players| == |old(players)|
      ensures forall k :: 0 <= k < |players| ==> players[k] == ClearSelection(old(players[k]))
      ensures winner == None
      ensures deck == old(deck) && phase == old(phase) && currentBet == old(currentBet)
      ensures numPlayers == old(numPlayers) && voters == old(voters) && numVoters == old(numVoters)
    {
      var k := 0;
      while k < |players|
        invariant 0 <= k <= |players| == |old(players)|
        invariant forall j :: 0 <= j < k ==> players[j] == ClearSelection(old(players[j]))
        invariant forall j :: k <= j < |players| ==> players[j] == old(players[j])
        invariant unchanged(this`voters, this`deck, this`phase, this`winner)
        invariant unchanged(this`numPlayers, this`numVoters, this`currentBet)
      {
        players := players[k := ClearSelection(players[k])];
        k := k + 1;
      }
      winner := None;
    }

    /**
     * Whether some player holds at least twice the initial credits; the last
     * such player in key order is recorded as winner.
     */
    method IsThereAWinner() returns (found: bool)
      requires Valid()
      modifies this
      ensures found <==> exists k :: 0 <= k < |players| && IsRich(players[k])
      ensures winner == LastName(players, IsRich, old(winner))
      ensures found ==> winner.Some? && exists k :: 0 <= k < |players| && IsRich(players[k]) &&
                                                    players[k].name == winner.value
      ensures players == old(players) && numPlayers == old(numPlayers)
      ensures voters == old(voters) && numVoters == old(numVoters)
      ensures deck == old(deck) && phase == old(phase) && currentBet == old(currentBet)
    {
      var ps := players;
      var w := winner;
      found := false;
      var k := 0;
      while k < |ps|
        invariant 0 <= k <= |ps|
        invariant unchanged(this)
        invariant w == LastName(ps[..k], IsRich, old(winner))
        invariant found <==> exists j :: 0 <= j < k && IsRich(ps[j])
      {
        LastStep(ps, IsRich, k);
        if ps[k].credits >= INITIAL_CREDITS * 2 {
          w := Some(ps[k].name);
          found := true;
        }
        k := k + 1;
      }
      assert ps[..k] == ps;
      winner := w;
    }

    /** Clear every player's readiness. */
    method ClearReadiness()
      requires Valid()
      modifies this
      ensures Valid()
      ensures |players| == |old(players)|
      ensures forall k :: 0 <= k < |players| ==> players[k] == ClearReady(old(players[k]))
      ensures winner == old(winner) && deck == old(deck) && phase == old(phase)
      ensures currentBet == old(currentBet)
      ensures numPlayers == old(numPlayers) && voters == old(voters) && numVoters == old(numVoters)
    {
      var k := 0;
      while k < |players|
        invariant 0 <= k <= |players| == |old(players)|
        invariant forall j :: 0 <= j < k ==> players[j] == ClearReady(old(players[j]))
        invariant forall j :: k <= j < |players| ==> players[j] == old(players[j])
        invariant unchanged(this`voters, this`deck, this`phase, this`winner)
        invariant unchanged(this`numPlayers, this`numVoters, this`currentBet)
      {
        players := players[k := ClearReady(players[k])];
        k := k + 1;
      }
    }

    /**
     * The game goes on without a winner: empty every hand and selection and,
     * inside the same per-player loop, the deck and the winner.
     */
    method ClearRoundState()
      requires Valid()
      modifies this
      ensures Valid()
      ensures |players| == |old(players)|
      ensures forall k :: 0 <= k < |players| ==> players[k] == ClearRound(old(players[k]))
      ensures |players| > 0 ==> deck == [] && winner == None
      ensures |players| == 0 ==> deck == old(deck) && winner == old(winner)
      ensures phase == old(phase) && currentBet == old(currentBet)
      ensures numPlayers == old(numPlayers) && voters == old(voters) && numVoters == old(numVoters)
    {
      var k := 0;
      while k < |players|
        invariant 0 <= k <= |players| == |old(players)|
        invariant forall j :: 0 <= j < k ==> players[j] == ClearRound(old(players[j]))
        invariant forall j :: k <= j < |players| ==> players[j] == old(players[j])
        invariant k > 0 ==> deck == [] && winner == None
        invariant k == 0 ==> deck == old(deck) && winner == old(winner)
        invariant unchanged(this`voters, this`phase)
        invariant unchanged(this`numPlayers, this`numVoters, this`currentBet)
      {
        players := players[k := ClearRound(players[k])];
        deck := [];
        winner := None;
        k := k + 1;
      }
    }

    /**
     * Both players are ready: advance the phase. LOBBY goes to BETTING;
     * BETTING goes to VOTING and on to the dealt DRAWING state at once when
     * every voter has already voted; RESOLUTION after a draw clears the
     * selections and goes back to DRAWING while cards remain, else to
     * BETTING; RESOLUTION after a win ends the game when someone holds twice
     * the initial credits, and otherwise clears the round and goes to
     * BETTING. Every other phase stays. Readiness is cleared in every case.
     */
    method UpdatePhaseOnPlayersReady(draw: nat -> Card, swaps: seq<(nat, nat)>) returns (next: Phase)
      requires Valid()
      modifies this
      ensures Valid()
      ensures next == phase
      ensures numPlayers == old(numPlayers) && numVoters == old(numVoters)
      ensures currentBet == old(currentBet)
      ensures |players| == |old(players)| && |voters| == |old(voters)|
      ensures forall k :: 0 <= k < |players| ==>
                !players[k].isReady && players[k].name == old(players[k].name) &&
                players[k].number == old(players[k].number) &&
                players[k].credits == old(players[k].credits)
      ensures phase == Finished ==>
                old(phase) == Finished || exists k :: 0 <= k < |players| && IsRich(players[k])
      ensures old(phase) in {Lobby, Voting, Drawing, Finished} || (old(phase) == Betting && !old(AreVotersFinished())) ==>
                phase == (if old(phase) == Lobby then Betting
                          else if old(phase) == Betting then Voting
                          else old(phase)) &&
                (forall k :: 0 <= k < |players| ==> players[k] == ClearReady(old(players[k]))) &&
                voters == old(voters) && deck == old(deck) && winner == old(winner)
      ensures old(phase) == Betting && old(AreVotersFinished()) ==>
                phase == Drawing && deck == ShuffleDeck(Padded(old(deck), draw), swaps) &&
                (forall k :: 0 <= k < |players| ==>
                   players[k] == ClearReady(old(players[k]).(hand := deck[HAND_SIZE * k .. HAND_SIZE * (k + 1)]))) &&
                (forall k :: 0 <= k < |voters| ==> voters[k] == old(voters[k]).(voted := false)) &&
                winner == old(winner)
      ensures old(phase) == Resolution && old(winner) == Some(DRAW) ==>
                phase == (if old(DoPlayersHaveCards()) then Drawing else Betting) &&
                (forall k :: 0 <= k < |players| ==> players[k] == ClearReady(ClearSelection(old(players[k])))) &&
                winner == None && voters == old(voters) && deck == old(deck)
      ensures old(phase) == Resolution && old(winner) != Some(DRAW) && old(exists k :: 0 <= k < |players| && IsRich(players[k])) ==>
                phase == Finished && winner == old(LastName(players, IsRich, winner)) &&
                (forall k :: 0 <= k < |players| ==> players[k] == ClearReady(old(players[k]))) &&
                voters == old(voters) && deck == old(deck)
      ensures old(phase) == Resolution && old(winner) != Some(DRAW) && !old(exists k :: 0 <= k < |players| && IsRich(players[k])) ==>
                phase == Betting &&
                (forall k :: 0 <= k < |players| ==> players[k] == ClearReady(ClearRound(old(players[k])))) &&
                voters == old(voters) &&
                (if |players| > 0 then deck == [] && winner == None else deck == old(deck) && winner == old(winner))
    {
      if phase == Lobby {
        phase := Betting;
      } else if phase == Betting {
        phase := Voting;
        if AreVotersFinished() {
          OnVotersFinished(draw, swaps);
        }
      } else if phase == Resolution {
        AdvanceFromResolution();
      }
      ClearReadiness();
      next := phase;
    }

    /**
     * The RESOLUTION branch of UpdatePhaseOnPlayersReady, before readiness
     * is cleared: after a draw, pick again from the remaining cards or bet
     * again; after a win, finish or start a new round.
     */
    method AdvanceFromResolution()
      requires Valid() && phase == Resolution
      modifies this
      ensures Valid()
      ensures numPlayers == old(numPlayers) && numVoters == old(numVoters) && voters == old(voters)
      ensures currentBet == old(currentBet)
      ensures |players| == |old(players)|
      ensures old(winner) == Some(DRAW) ==>
                phase == (if old(DoPlayersHaveCards()) then Drawing else Betting) &&
                (forall k :: 0 <= k < |players| ==> players[k] == ClearSelection(old(players[k]))) &&
                winner == None && deck == old(deck)
      ensures old(winner) != Some(DRAW) && old(exists k :: 0 <= k < |players| && IsRich(players[k])) ==>
                phase == Finished && winner == old(LastName(players, IsRich, winner)) &&
                players == old(players) && deck == old(deck)
      ensures old(winner) != Some(DRAW) && !old(exists k :: 0 <= k < |players| && IsRich(players[k])) ==>
                phase == Betting &&
                (forall k :: 0 <= k < |players| ==> players[k] == ClearRound(old(players[k]))) &&
                (if |players| > 0 then deck == [] && winner == None else deck == old(deck) && winner == old(winner))
    {
      if winner == Some(DRAW) {
        ResetPlayersSelections();
        if DoPlayersHaveCards() {
          phase := Drawing;
        } else {
          phase := Betting;
        }
      } else {
        var rich := IsThereAWinner();
        if rich {
          phase := Finished;
        } else {
          phase := Betting;
          ClearRoundState();
        }
      }
    }

    /**
     * `getPlayersState`: a two-slot table indexed by seat number, holding
     * each seated player's public fields; an empty seat is None.
     */
    function GetPlayersState(): (r: seq<Option<PlayerView>>)
      reads this
      ensures |r| == MAX_PLAYERS
      ensures forall s :: 0 <= s < MAX_PLAYERS ==>
                (r[s].None? <==> forall k :: 0 <= k < |players| ==> players[k].number != s + 1)
      ensures forall k :: 0 <= k < |players| && 1 <= players[k].number <= MAX_PLAYERS && LastOfSeat(players, k) ==>
                r[players[k].number - 1] == Some(ViewOf(players[k]))
    {
      var t := SeatTable(players);
      seq(MAX_PLAYERS, (s: int) requires 0 <= s < MAX_PLAYERS =>
        match t[s] case None => None case Some(p) => Some(ViewOf(p)))
    }

    /**
     * `getPlayersSelections`: like GetPlayersState but with selections only,
     * and entirely empty while cards are being drawn.
     */
    function GetPlayersSelections(): (r: seq<Option<SelectionView>>)
      reads this
      ensures |r| == MAX_PLAYERS
      ensures phase == Drawing ==> r == [None, None]
      ensures phase != Drawing ==> forall s :: 0 <= s < MAX_PLAYERS ==>
                (r[s].None? <==> forall k :: 0 <= k < |players| ==> players[k].number != s + 1)
      ensures phase != Drawing ==>
                forall k :: 0 <= k < |players| && 1 <= players[k].number <= MAX_PLAYERS && LastOfSeat(players, k) ==>
                  r[players[k].number - 1] == Some(SelectionOf(players[k]))
    {
      if phase == Drawing then [None, None]
      else
        var t := SeatTable(players);
        seq(MAX_PLAYERS, (s: int) requires 0 <= s < MAX_PLAYERS =>
          match t[s] case None => None case Some(p) => Some(SelectionOf(p)))
    }

    /** `getVotersState`: every voter's name and flag, in key order. */
    function GetVotersState(): (r: seq<VoterView>)
      reads this
      ensures |r| == |voters|
      ensures forall k :: 0 <= k < |voters| ==> r[k].name == voters[k].name && r[k].voted == voters[k].voted
    {
      seq(|voters|, (k: int) requires 0 <= k < |voters| reads this => VoterView(voters[k].name, voters[k].voted))
    }
  }
}
