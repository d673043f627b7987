/**
 * Walk-throughs of a session, proved from the contracts of `Game` alone:
 * what two players, a voter and the readiness protocol lead to.
 */
module Scenarios {
  import opened Wrappers
  import opened Cards
  import opened Deck
  import opened Roster
  import opened Session

  /** Two players take seats 1 and 2 with 120 credits each; a third is turned away. */
  method SeatTwoPlayers()
  {
    var g := new Game("ROOM");
    var a := g.AddPlayer("ann");
    var b := g.AddPlayer("bob");
    assert a && b;
    assert g.players == [NewPlayer(1, "ann"), NewPlayer(2, "bob")];
    var c := g.AddPlayer("cy");
    assert !c && g.players == [NewPlayer(1, "ann"), NewPlayer(2, "bob")];
    assert g.players[0].credits == INITIAL_CREDITS && g.players[1].credits == INITIAL_CREDITS;
  }

  /** Both players ready in the lobby: the game moves to BETTING and nobody is ready any more. */
  method ReadyInLobby(draw: nat -> Card, swaps: seq<(nat, nat)>)
  {
    var g := new Game("ROOM");
    g.players := [NewPlayer(1, "ann"), NewPlayer(2, "bob")];
    g.numPlayers := 2;
    assert g.IsPlayer("ann") by { assert g.players[0].name == "ann"; }
    g.PlayerReadyAction("ann");
    assert g.IsPlayer("bob") by { assert g.players[1].name == "bob"; }
    g.PlayerReadyAction("bob");
    assert g.ArePlayersReady();
    var phase := g.UpdatePhaseOnPlayersReady(draw, swaps);
    assert phase == Betting && !g.ArePlayersReady();
  }

  /** A bet of 200 from a player holding 120 credits is clamped to 120. */
  method ClampedBet()
  {
    var g := new Game("ROOM");
    g.players := [NewPlayer(1, "ann"), NewPlayer(2, "bob")];
    g.numPlayers := 2;
    g.phase := Betting;
    assert FindPlayer(g.players, "ann") == Some(0);
    g.ProposeBet("ann", 200.0);
    assert g.currentBet == INITIAL_CREDITS;
  }

  /**
   * With no voters, both players ready during BETTING skips straight to
   * DRAWING: two hands of three from a deck of at least thirty cards.
   */
  method DealWithoutVoters(draw: nat -> Card, swaps: seq<(nat, nat)>)
  {
    var g := new Game("ROOM");
    g.players := [NewPlayer(1, "ann"), NewPlayer(2, "bob")];
    g.numPlayers := 2;
    g.phase := Betting;
    assert g.AreVotersFinished();
    var phase := g.UpdatePhaseOnPlayersReady(draw, swaps);
    assert phase == Drawing;
    assert |g.deck| >= MIN_DECK_SIZE;
    assert |g.players[0].hand| == HAND_SIZE && |g.players[1].hand| == HAND_SIZE;
  }

  /** Rock against scissors: the first player takes the bet and is recorded as winner. */
  method RockBeatsScissors()
  {
    var g := new Game("ROOM");
    g.players := [Player(1, "ann", 120, [], Some(Rock), false),
                  Player(2, "bob", 120, [], Some(Scissors), false)];
    g.numPlayers := 2;
    g.currentBet := 30;
    g.phase := Drawing;
    g.RevealCards();
    assert g.phase == Resolution && g.winner == Some("ann");
    assert g.players[0].credits == 150 && g.players[1].credits == 90;
  }

  /** Paper against paper: a draw that moves no credits. */
  method PaperDrawsPaper()
  {
    var g := new Game("ROOM");
    g.players := [Player(1, "ann", 150, [], Some(Paper), false),
                  Player(2, "bob", 90, [], Some(Paper), false)];
    g.numPlayers := 2;
    g.currentBet := 30;
    g.phase := Drawing;
    g.RevealCards();
    assert g.phase == Resolution && g.winner == Some(DRAW);
    assert g.players[0].credits == 150 && g.players[1].credits == 90;
  }

  /** After a draw with no cards left, both ready returns to BETTING with no winner. */
  method ReadyAfterDrawWithEmptyHands(draw: nat -> Card, swaps: seq<(nat, nat)>)
  {
    var g := new Game("ROOM");
    g.players := [Player(1, "ann", 150, [], Some(Paper), false),
                  Player(2, "bob", 90, [], Some(Paper), false)];
    g.numPlayers := 2;
    g.phase := Resolution;
    g.winner := Some(DRAW);
    assert !g.DoPlayersHaveCards();
    var phase := g.UpdatePhaseOnPlayersReady(draw, swaps);
    assert phase == Betting && g.winner == None;
    assert g.players[0].selection == None && g.players[1].selection == None;
  }

  /** A vote with index 5 adds no card, and the voter is still marked as having voted. */
  method OutOfRangeVote()
  {
    var g := new Game("ROOM");
    var ok := g.AddVoter("val");
    assert g.voters == [Voter("val", false)];
    assert g.IsVoter("val") by { assert g.voters[0].name == "val"; }
    g.MakeVote("val", 5);
    assert g.deck == [] && g.voters == [Voter("val", true)];
  }

  /** A player who retires during betting ends the game at once, and the other player wins. */
  method RetireDuringBetting()
  {
    var g := new Game("ROOM");
    var a := g.AddPlayer("ann");
    var b := g.AddPlayer("bob");
    g.phase := Betting;
    assert FindPlayer(g.players, "ann") == Some(0);
    g.PlayerRetire("ann");
    assert g.phase == Finished && g.winner == Some("bob");
  }

  /**
   * Seat numbers come from the seat count, not from the free seat: after
   * the first player leaves, a newcomer gets seat 2 again.
   */
  method SeatNumberReusedAfterRemoval()
  {
    var g := new Game("ROOM");
    g.players := [NewPlayer(1, "ann"), NewPlayer(2, "bob")];
    g.numPlayers := 2;
    assert FindPlayer(g.players, "ann") == Some(0) by { assert g.players[0].name == "ann"; }
    var gone := g.RemovePlayer("ann");
    assert gone && g.players == [NewPlayer(2, "bob")];
    assert FindPlayer(g.players, "cy") == None;
    var c := g.AddPlayer("cy");
    assert c && g.players == [NewPlayer(2, "bob"), NewPlayer(2, "cy")];
  }

  /** With both players on seat 2, the seat table shows seat 1 empty and seat 2 holding the later one. */
  method SharedSeatTable(g: Game)
    requires g.players == [NewPlayer(2, "bob"), NewPlayer(2, "cy")]
  {
    var table := g.GetPlayersState();
    assert LastOfSeat(g.players, 1);
    assert table[0] == None && table[1] == Some(ViewOf(NewPlayer(2, "cy")));
  }
}
