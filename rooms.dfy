/**
 * A game room as the server keeps it: an object whose socket handlers change
 * its fields in place. Each handler states its new state field by field, or
 * through the value-level steps of `Transitions`, whose properties are proved
 * there; refusals leave the room as it was.
 */
module Rooms {
  import opened Options
  import opened Seqs
  import opened Cards
  import opened Legality
  import opened Dealing
  import opened Players
  import opened Scoring
  import opened Bot
  import opened Transitions

  const MaxPlayers: nat := 7
  const MinPlayers: nat := 3

  /** Why a request was refused; each stands for one of the server's error messages. */
  datatype Failure =
    | NotPlaying | RoundOver | NotInGame | NotYourTurn | NoValidCards
    | CannotOrder | MustPlayIfAble
    | GameStarted | RoomFull | NameInUse | LobbyOnly | BotNotFound | UnknownDifficulty
    | TooFewPlayers | RejoinFailed

  /** The notice shown in a dialog when help mode is off. */
  datatype Notice = CannotPlay(explanation: Explanation) | MustPlay

  /** What a handler answers: done, silently ignored, an error, or an invalid-move notice. */
  datatype Reply = Done | Ignored | Error(failure: Failure) | InvalidMove(notice: Notice)

  /** The seat of `actor` when it is that seat's turn in a round that is still going on. */
  function TurnSeat(d: RoomState, actor: string): (r: Option<nat>)
    ensures r.Some? <==>
      d.state == Playing && !d.roundEnded && IndexOfId(d.players, actor).Some? &&
      IndexOfId(d.players, actor).value == d.currentPlayerIndex
    ensures r.Some? ==> r.value < |d.players| && d.players[r.value].id == actor
  {
    if d.state != Playing || d.roundEnded then None
    else
      match IndexOfId(d.players, actor)
      case None => None
      case Some(i) => if i == d.currentPlayerIndex then Some(i) else None
  }

  /** The difficulty a host may choose, by its name. */
  function ParseDifficulty(s: string): Option<Difficulty> {
    if s == "dumb" then Some(Dumb)
    else if s == "medium" then Some(Medium)
    else if s == "smart" then Some(Smart)
    else None
  }

  class Room {
    var code: string
    var hostId: string
    var players: seq<Player>
    var state: Phase
    var mode: string
    var currentPlayerIndex: int
    var dealerIndex: nat
    var starterIndex: Option<int>
    var tableau: Tableau
    var askenHolderId: Option<string>
    var roundNumber: nat
    var roundEnded: bool
    var roundWinners: seq<Player>
    var roundScores: Option<seq<RoundScore>>
    var lastPlayedCards: seq<string>
    var botDifficulty: Difficulty
    var helpMode: bool
    var lastActivity: int

    /** Every field of the room, as a value. */
    function Data(): RoomState
      reads this
    {
      RoomState(code, hostId, players, state, mode, currentPlayerIndex, dealerIndex,
                starterIndex, tableau, askenHolderId, roundNumber, roundEnded, roundWinners,
                roundScores, lastPlayedCards, botDifficulty, helpMode, lastActivity)
    }

    /** What every handler keeps: a consistent table and at most seven seats. */
    ghost predicate Consistent()
      reads this
    {
      Valid(tableau) && |players| <= MaxPlayers
    }

    /** `createRoom`: a lobby in quick mode with its host as the only seat. */
    constructor (code: string, hostId: string, hostName: string, now: int)
      ensures Data() == RoomState(code, hostId, [Newcomer(hostId, hostName)], Lobby, "quick", 0, 0,
                                  None, EmptyTableau, None, 1, false, [], None, [], Dumb, false, now)
      ensures Consistent()
    {
      this.code := code;
      this.hostId := hostId;
      players := [Newcomer(hostId, hostName)];
      state := Lobby;
      mode := "quick";
      currentPlayerIndex := 0;
      dealerIndex := 0;
      starterIndex := None;
      tableau := EmptyTableau;
      askenHolderId := None;
      roundNumber := 1;
      roundEnded := false;
      roundWinners := [];
      roundScores := None;
      lastPlayedCards := [];
      botDifficulty := Dumb;
      helpMode := false;
      lastActivity := now;
    }

    // -------------------------------------------------------------------------
    // The steps of a round
    // -------------------------------------------------------------------------

    /** The round's outcome flags: whether it is over, who won it, and the room's phase. */
    method SetOutcome(ended: bool, winners: seq<Player>, phase: Phase)
      modifies this
      ensures Data() == old(Data()).(roundEnded := ended, roundWinners := winners, state := phase)
    {
      roundEnded, roundWinners, state := ended, winners, phase;
    }

    /** An empty table: nothing laid, nothing just played, no asken. */
    method ClearTable()
      modifies this
      ensures Data() == old(Data()).(tableau := EmptyTableau, lastPlayedCards := [], askenHolderId := None)
    {
      tableau, lastPlayedCards, askenHolderId := EmptyTableau, [], None;
    }

    /** The turn passes to the next seat round the table. */
    method Advance()
      requires |players| > 0
      modifies this
      ensures Data() == old(Data()).(currentPlayerIndex := (old(currentPlayerIndex) + 1) % old(|players|))
    {
      currentPlayerIndex := (currentPlayerIndex + 1) % |players|;
    }

    /** Seat `i` holds `hand`, the table is `table`, and `ids` were just played. */
    method PutDown(i: nat, hand: seq<Card>, table: Tableau, ids: seq<string>)
      requires i < |players|
      modifies this
      ensures Data() == old(Data()).(players := old(players)[i := old(players)[i].(hand := hand)],
                                     tableau := table, lastPlayedCards := ids)
    {
      players, tableau, lastPlayedCards := players[i := players[i].(hand := hand)], table, ids;
    }

    /** The dealt seats, and the first holder of the seven of spades to start. */
    method SeatDealt(ps: seq<Player>)
      modifies this
      ensures Data() == old(Data()).(players := ps, currentPlayerIndex := Starter(ps), starterIndex := Some(Starter(ps)))
    {
      var start := Starter(ps);
      players, currentPlayerIndex, starterIndex := ps, start, Some(start);
    }

    /** The round count goes up, the deal moves one seat on, and the last score sheet is dropped. */
    method NextDealer()
      requires |players| > 0
      modifies this
      ensures Data() == old(Data()).(roundNumber := old(roundNumber) + 1,
                                     dealerIndex := (old(dealerIndex) + 1) % old(|players|), roundScores := None)
    {
      roundNumber, dealerIndex, roundScores := roundNumber + 1, (dealerIndex + 1) % |players|, None;
    }

    /** Seat `i` passes: it takes the asken, and the turn moves on. */
    method PassTurn(i: nat, now: int)
      requires i < |players|
      modifies this
      ensures Data() == AfterPass(old(Data()), i, now)
    {
      askenHolderId := Some(players[i].id);
      Advance();
      Touch(now);
    }

    /** Back to round one with the given seats and no score sheet. */
    method Restart(ps: seq<Player>)
      modifies this
      ensures Data() == old(Data()).(players := ps, roundNumber := 1, roundScores := None)
    {
      players, roundNumber, roundScores := ps, 1, None;
    }

    /** `p` takes a new last seat. */
    method Seat(p: Player, now: int)
      modifies this
      ensures Data() == old(Data()).(players := old(players) + [p], lastActivity := now)
    {
      players := players + [p];
      Touch(now);
    }

    method Touch(now: int)
      modifies this
      ensures Data() == old(Data()).(lastActivity := now)
    {
      lastActivity := now;
    }

    /**
     * `dealCards`: the hands are emptied, the deck (in the order the shuffle
     * left it) is dealt one card at a time from the seat after the dealer,
     * each hand is sorted, and the holder of the seven of spades starts.
     */
    method Deal(deck: seq<Card>)
      requires |players| > 0
      modifies this
      ensures Data() == Dealt(old(Data()), deck)
    {
      var ps := DealHands(players, deck, dealerIndex);
      SeatDealt(ps);
      ClearTable();
      SetOutcome(false, [], Playing);
    }

    /**
     * `endRound`: every score grows by the round total, the score sheet is
     * kept, the seats with the lowest round total win, and the round is over.
     */
    method EndRound()
      modifies this
      ensures Data() == Ended(old(Data()))
    {
      var credited, lines := ScoreRound(players, askenHolderId);
      var winners := SeatsAmong(credited, LowestIds(lines));
      players, roundScores := credited, Some(lines);
      SetOutcome(true, winners, RoundEnd);
    }

    /**
     * Seat `i` lays `cards` in this order: their ids are remembered, they
     * leave the hand one by one and go on the table one by one, and then the
     * round ends if the hand is empty or the turn passes to the next seat.
     */
    method Lay(i: nat, cards: seq<Card>, now: int)
      requires i < |players|
      modifies this
      ensures Data() == AfterPlay(old(Data()), i, cards, now)
    {
      var hand := TakeCards(players[i].hand, cards);
      var table := LayOnTable(tableau, cards);
      PutDown(i, hand, table, IdsOf(cards));
      if |hand| == 0 {
        EndRound();
      } else {
        Advance();
      }
      Touch(now);
    }

    // -------------------------------------------------------------------------
    // Playing and passing
    // -------------------------------------------------------------------------

    /**
     * `playCards`: the guards in the server's order, then the selected ids are
     * resolved against the hand, put in a playable order and laid. A
     * selection with no playable order is refused with the explanation (help
     * mode off) or a plain error (help mode on).
     */
    method PlayCards(actor: string, ids: seq<string>, now: int) returns (r: Reply, played: seq<Card>)
      requires Consistent()
      modifies this
      ensures Consistent()
      ensures r != Done ==> Data() == old(Data())
      ensures var d := old(Data());
        && (d.state != Playing ==> r == Error(NotPlaying))
        && (d.state == Playing && d.roundEnded ==> r == Error(RoundOver))
        && (d.state == Playing && !d.roundEnded && IndexOfId(d.players, actor).None? ==> r == Error(NotInGame))
        && (d.state == Playing && !d.roundEnded && IndexOfId(d.players, actor).Some? && TurnSeat(d, actor).None? ==>
              r == Error(NotYourTurn))
      ensures var d := old(Data());
        TurnSeat(d, actor).Some? ==>
          var i := TurnSeat(d, actor).value;
          var selected := Resolve(d.players[i].hand, ids);
          && (selected == [] ==> r == Error(NoValidCards))
          && (selected != [] && !AnyPlayed(d.tableau) ==> (r == Done <==> selected == [SevenOfSpades]))
          && (selected != [] && AnyPlayed(d.tableau) ==> (r == Done <==> Solvable(d.tableau, multiset(selected))))
          && (selected != [] && r != Done ==>
                r == if d.helpMode then Error(CannotOrder) else InvalidMove(CannotPlay(Explain(selected, d.tableau))))
          && (r == Done ==>
                && Some(played) == GreedyOrder(selected, d.tableau)
                && multiset(played) == multiset(selected) && ValidSequence(d.tableau, played)
                && Data() == AfterPlay(d, i, played, now))
    {
      played := [];
      if state != Playing {
        return Error(NotPlaying), played;
      }
      if roundEnded {
        return Error(RoundOver), played;
      }
      var seat := IndexOfId(players, actor);
      if seat.None? {
        return Error(NotInGame), played;
      }
      var i := seat.value;
      if i != currentPlayerIndex {
        return Error(NotYourTurn), played;
      }
      var selected := Resolve(players[i].hand, ids);
      if |selected| == 0 {
        return Error(NoValidCards), played;
      }
      var ordered := GetPlayableOrder(selected, tableau);
      if ordered.None? {
        if !helpMode {
          return InvalidMove(CannotPlay(Explain(selected, tableau))), played;
        }
        return Error(CannotOrder), played;
      }
      played := ordered.value;
      assert multiset(played) == multiset(selected) && ValidSequence(tableau, played);
      ghost var d := Data();
      PlayWidensTable(d, i, played, now);
      AfterPlayHands(d, i, played, now);
      Lay(i, played, now);
      r := Done;
    }

    /**
     * `pass`: ignored unless it is the actor's turn in a running round;
     * refused while any card of the hand can take part in a sequence;
     * otherwise the passer takes the asken and the turn moves on.
     */
    method Pass(actor: string, now: int) returns (r: Reply)
      requires Consistent()
      modifies this
      ensures Consistent()
      ensures r != Done ==> Data() == old(Data())
      ensures var d := old(Data());
        && (TurnSeat(d, actor).None? ==> r == Ignored)
        && (TurnSeat(d, actor).Some? ==>
              var i := TurnSeat(d, actor).value;
              var hand := d.players[i].hand;
              && ((exists c :: c in hand && CanBePartOfSequence(c, hand, d.tableau)) ==>
                    r == if d.helpMode then Error(MustPlayIfAble) else InvalidMove(MustPlay))
              && (r == Done <==> !exists c :: c in hand && CanBePartOfSequence(c, hand, d.tableau))
              && (r == Done ==> Data() == AfterPass(d, i, now)))
    {
      var seat := TurnSeat(Data(), actor);
      if seat.None? {
        return Ignored;
      }
      var i := seat.value;
      var hand := players[i].hand;
      if exists c :: c in hand && CanBePartOfSequence(c, hand, tableau) {
        if !helpMode {
          return InvalidMove(MustPlay);
        }
        return Error(MustPlayIfAble);
      }
      PassTurn(i, now);
      r := Done;
    }

    /**
     * `executeBotTurn`, after its pause: ignored unless the round is still
     * going on, the turn is still at seat `expected` (the seat it was at when
     * the turn was scheduled) and that seat is a robot's. The robot's move is
     * then applied as a human's play or pass would be. `pick` stands for the
     * dumb tier's random draw.
     */
    method ExecuteBotTurn(expected: int, pick: nat, now: int) returns (r: Reply, m: Move)
      requires Consistent()
      modifies this
      ensures Consistent()
      ensures var d := old(Data());
        r == Done <==>
          d.state == Playing && !d.roundEnded && d.currentPlayerIndex == expected &&
          0 <= expected < |d.players| && d.players[expected].isBot
      ensures r != Done ==> r == Ignored && Data() == old(Data())
      ensures var d := old(Data());
        r == Done ==>
          var i := d.currentPlayerIndex;
          var hand := d.players[i].hand;
          && (m.Play? ==> ValidSequence(d.tableau, m.cards) && multiset(m.cards) <= multiset(hand)
                          && Data() == AfterPlay(d, i, m.cards, now))
          && (m.Pass? ==> Data() == AfterPass(d, i, now))
          && IsBotMove(m, hand, d.tableau, d.botDifficulty, pick)
          && (Candidates(hand, d.tableau) == [] ==> m == Move.Pass)
          && (d.botDifficulty != Dumb ==> (m.Pass? <==> Candidates(hand, d.tableau) == []))
    {
      m := Move.Pass;
      if state != Playing || roundEnded || currentPlayerIndex != expected {
        return Ignored, m;
      }
      if !(0 <= currentPlayerIndex < |players|) || !players[currentPlayerIndex].isBot {
        return Ignored, m;
      }
      var i := currentPlayerIndex;
      ghost var options;
      m, options := GetBotMove(players[i].hand, tableau, botDifficulty, pick);
      if m.Play? && |m.cards| > 0 {
        ghost var d := Data();
        PlayWidensTable(d, i, m.cards, now);
        AfterPlayHands(d, i, m.cards, now);
        Lay(i, m.cards, now);
      } else {
        PassTurn(i, now);
      }
      r := Done;
    }

    // -------------------------------------------------------------------------
    // The lobby
    // -------------------------------------------------------------------------

    /**
     * `joinRoom`: refused once the game has started, when seven are seated, or
     * when someone already has the name (ignoring case); otherwise the
     * newcomer takes the last seat.
     */
    method Join(actor: string, name: string, now: int) returns (r: Reply)
      requires Consistent()
      modifies this
      ensures Consistent()
      ensures var d := old(Data());
        && (d.state != Lobby ==> r == Error(GameStarted))
        && (d.state == Lobby && |d.players| >= MaxPlayers ==> r == Error(RoomFull))
        && (d.state == Lobby && |d.players| < MaxPlayers && NameTaken(d.players, name) ==> r == Error(NameInUse))
        && (r == Done <==> d.state == Lobby && |d.players| < MaxPlayers && !NameTaken(d.players, name))
        && (r == Done ==> Data() == d.(players := d.players + [Newcomer(actor, name)], lastActivity := now))
        && (r != Done ==> Data() == d)
      ensures NamesDistinct(old(players)) ==> NamesDistinct(players)
    {
      if state != Lobby {
        return Error(GameStarted);
      }
      if |players| >= MaxPlayers {
        return Error(RoomFull);
      }
      if NameTaken(players, name) {
        return Error(NameInUse);
      }
      if NamesDistinct(players) {
        SeatFreshName(players, Newcomer(actor, name));
      }
      Seat(Newcomer(actor, name), now);
      r := Done;
    }

    /**
     * `addBot`: ignored unless the actor is the host; refused outside the
     * lobby or when seven are seated; otherwise a robot with a free name (see
     * `BotName`) takes the last seat.
     */
    method AddBot(actor: string, botId: string, pick: nat, fallback: nat, now: int) returns (r: Reply)
      requires Consistent()
      modifies this
      ensures Consistent()
      ensures var d := old(Data());
        && (d.hostId != actor ==> r == Ignored)
        && (d.hostId == actor && d.state != Lobby ==> r == Error(LobbyOnly))
        && (d.hostId == actor && d.state == Lobby && |d.players| >= MaxPlayers ==> r == Error(RoomFull))
        && (r == Done <==> d.hostId == actor && d.state == Lobby && |d.players| < MaxPlayers)
        && (r == Done ==>
              Data() == d.(players := d.players + [Robot(botId, BotName(Names(d.players), pick, fallback))],
                           lastActivity := now))
        && (r != Done ==> Data() == d)
      ensures NamesDistinct(old(players)) && UnwornNames(BotNames, Names(old(players))) != [] ==>
        NamesDistinct(players)
    {
      if hostId != actor {
        return Ignored;
      }
      if state != Lobby {
        return Error(LobbyOnly);
      }
      if |players| >= MaxPlayers {
        return Error(RoomFull);
      }
      var name := BotName(Names(players), pick, fallback);
      if NamesDistinct(players) && UnwornNames(BotNames, Names(players)) != [] {
        SeatRobotKeepsNamesDistinct(players, botId, pick, fallback);
      }
      Seat(Robot(botId, name), now);
      r := Done;
    }

    /**
     * `removeBot`: ignored unless the actor is the host; refused outside the
     * lobby or when no robot has the id; otherwise the first robot with the
     * id leaves its seat and every other seat stays, in order.
     */
    method RemoveBot(actor: string, botId: string, now: int) returns (r: Reply)
      requires Consistent()
      modifies this
      ensures Consistent()
      ensures var d := old(Data());
        && (d.hostId != actor ==> r == Ignored)
        && (d.hostId == actor && d.state != Lobby ==> r == Error(LobbyOnly))
        && (d.hostId == actor && d.state == Lobby && IndexOfBot(d.players, botId).None? ==> r == Error(BotNotFound))
        && (r == Done <==> d.hostId == actor && d.state == Lobby && IndexOfBot(d.players, botId).Some?)
        && (r == Done ==>
              var k := IndexOfBot(d.players, botId).value;
              && d.players[k].isBot && d.players[k].id == botId
              && Data() == d.(players := RemoveAt(d.players, k), lastActivity := now))
        && (r != Done ==> Data() == d)
    {
      if hostId != actor {
        return Ignored;
      }
      if state != Lobby {
        return Error(LobbyOnly);
      }
      var k := IndexOfBot(players, botId);
      if k.None? {
        return Error(BotNotFound);
      }
      players := RemoveAt(players, k.value);
      Touch(now);
      r := Done;
    }

    /**
     * `setBotDifficulty`: ignored unless the actor is the host; refused
     * outside the lobby or for a name other than dumb, medium and smart.
     */
    method SetBotDifficulty(actor: string, level: string, now: int) returns (r: Reply)
      requires Consistent()
      modifies this
      ensures Consistent()
      ensures var d := old(Data());
        && (d.hostId != actor ==> r == Ignored)
        && (d.hostId == actor && d.state != Lobby ==> r == Error(LobbyOnly))
        && (d.hostId == actor && d.state == Lobby && ParseDifficulty(level).None? ==> r == Error(UnknownDifficulty))
        && (r == Done <==> d.hostId == actor && d.state == Lobby && ParseDifficulty(level).Some?)
        && (r == Done ==> Data() == d.(botDifficulty := ParseDifficulty(level).value, lastActivity := now))
        && (r != Done ==> Data() == d)
    {
      if hostId != actor {
        return Ignored;
      }
      if state != Lobby {
        return Error(LobbyOnly);
      }
      var level' := ParseDifficulty(level);
      if level'.None? {
        return Error(UnknownDifficulty);
      }
      botDifficulty := level'.value;
      Touch(now);
      r := Done;
    }

    /** `setHelpMode`: ignored unless the actor is the host; refused outside the lobby. */
    method SetHelpMode(actor: string, on: bool, now: int) returns (r: Reply)
      requires Consistent()
      modifies this
      ensures Consistent()
      ensures var d := old(Data());
        && (d.hostId != actor ==> r == Ignored)
        && (d.hostId == actor && d.state != Lobby ==> r == Error(LobbyOnly))
        && (r == Done <==> d.hostId == actor && d.state == Lobby)
        && (r == Done ==> Data() == d.(helpMode := on, lastActivity := now))
        && (r != Done ==> Data() == d)
    {
      if hostId != actor {
        return Ignored;
      }
      if state != Lobby {
        return Error(LobbyOnly);
      }
      helpMode := on;
      Touch(now);
      r := Done;
    }

    // -------------------------------------------------------------------------
    // Starting, continuing and ending games
    // -------------------------------------------------------------------------

    /**
     * `startGame`: ignored unless the actor is the host; refused with fewer
     * than three seats; otherwise the mode is set (quick when none is given),
     * the first seat deals, and the round is dealt from `deck`. It checks
     * neither the phase nor the scores, so a host may restart a running game.
     */
    method StartGame(actor: string, gameMode: string, deck: seq<Card>, now: int) returns (r: Reply)
      requires Consistent()
      modifies this
      ensures Consistent()
      ensures var d := old(Data());
        && (d.hostId != actor ==> r == Ignored)
        && (d.hostId == actor && |d.players| < MinPlayers ==> r == Error(TooFewPlayers))
        && (r == Done <==> d.hostId == actor && |d.players| >= MinPlayers)
        && (r == Done ==>
              var started := d.(mode := if gameMode == "" then "quick" else gameMode, dealerIndex := 0);
              Data() == Dealt(started, deck).(lastActivity := now))
        && (r != Done ==> Data() == d)
    {
      if hostId != actor {
        return Ignored;
      }
      if |players| < MinPlayers {
        return Error(TooFewPlayers);
      }
      mode, dealerIndex := if gameMode == "" then "quick" else gameMode, 0;
      Deal(deck);
      Touch(now);
      r := Done;
    }

    /**
     * `nextRound`: ignored unless the actor is the host; otherwise the round
     * number goes up, the deal moves to the next seat, the last score sheet is
     * dropped and a new round is dealt. It does not check the phase.
     */
    method NextRound(actor: string, deck: seq<Card>, now: int) returns (r: Reply)
      requires Consistent() && |players| > 0
      modifies this
      ensures Consistent()
      ensures var d := old(Data());
        && (r == Done <==> d.hostId == actor)
        && (r != Done ==> r == Ignored && Data() == d)
        && (r == Done ==>
              var next := d.(roundNumber := d.roundNumber + 1,
                             dealerIndex := (d.dealerIndex + 1) % |d.players|, roundScores := None);
              Data() == Dealt(next, deck).(lastActivity := now))
    {
      if hostId != actor {
        return Ignored;
      }
      NextDealer();
      Deal(deck);
      Touch(now);
      r := Done;
    }

    /**
     * `newGame`: ignored unless the actor is the host; otherwise every score
     * is zeroed and the room is back in the lobby at round one, with no round
     * result.
     */
    method NewGame(actor: string, now: int) returns (r: Reply)
      requires Consistent()
      modifies this
      ensures Consistent()
      ensures var d := old(Data());
        && (r == Done <==> d.hostId == actor)
        && (r != Done ==> r == Ignored && Data() == d)
        && (r == Done ==>
              && |players| == |d.players|
              && (forall j :: 0 <= j < |d.players| ==> players[j] == d.players[j].(score := 0))
              && Data() == d.(players := players, roundNumber := 1, roundScores := None,
                              roundEnded := false, roundWinners := [], state := Lobby, lastActivity := now))
    {
      if hostId != actor {
        return Ignored;
      }
      var ps := ZeroScores(players);
      Restart(ps);
      SetOutcome(false, [], Lobby);
      Touch(now);
      r := Done;
    }

    // -------------------------------------------------------------------------
    // Coming and going
    // -------------------------------------------------------------------------

    /**
     * `leaveCurrentRoom`: leaving a game in progress deletes the room. In the
     * lobby the leaver's seat goes; the room is deleted when nobody is left,
     * and otherwise a leaving host hands over to the first seat (robot or not).
     */
    method Leave(actor: string) returns (deleted: bool)
      requires Consistent()
      modifies this
      ensures Consistent()
      ensures old(state) != Lobby ==> deleted && Data() == old(Data())
      ensures var d := old(Data());
        d.state == Lobby ==>
          var left := LeftSeats(d.players, actor);
          && (deleted <==> left == [])
          && Data() == d.(players := left, hostId := HostAfterLeave(d.players, d.hostId, actor))
    {
      if state == Playing || state == RoundEnd {
        return true;
      }
      var k := IndexOfId(players, actor);
      if k.Some? {
        players := RemoveAt(players, k.value);
      }
      if |players| == 0 {
        return true;
      }
      if hostId == actor {
        hostId := players[0].id;
      }
      deleted := false;
    }

    /** `disconnect`: the actor's seat, if any, is marked disconnected since `now`. */
    method Disconnect(actor: string, now: int)
      requires Consistent()
      modifies this
      ensures Consistent()
      ensures Data() == old(Data()).(players := Disconnected(old(players), actor, now))
    {
      var k := IndexOfId(players, actor);
      if k.Some? {
        players := players[k.value := players[k.value].(connected := false, disconnectedAt := Some(now))];
      }
    }

    /**
     * `cleanupDisconnectedPlayers`: each stale seat, in seat order, is found
     * and spliced out, and when it held the host's id the first human left
     * becomes host. The answer is true when the room is left empty (the
     * server then deletes it) and otherwise whether any seat went.
     */
    method Cleanup(now: int) returns (r: bool)
      requires Consistent()
      modifies this
      ensures Consistent()
      ensures Data() == Cleaned(old(Data()), now)
      ensures r <==> players == [] || StaleSeats(old(players), now) != []
    {
      var gone := StaleSeats(players, now);
      StaleMembers(players, now);
      var ps, host, changed := RemoveStaleSeats(players, hostId, gone);
      players, hostId := ps, host;
      r := |players| == 0 || changed;
      CleanedKeeps(old(Data()), now);
      KeptMembers(old(players), now);
    }

    /**
     * `ping`: the room was active at `now`, the actor's seat (if any) is
     * connected again, and the disconnected seats are cleaned up.
     */
    method Ping(actor: string, now: int)
      requires Consistent()
      modifies this
      ensures Consistent()
      ensures Data() == Cleaned(old(Data()).(players := Reconnected(old(players), actor), lastActivity := now), now)
    {
      lastActivity := now;
      var k := IndexOfId(players, actor);
      if k.Some? {
        players := players[k.value := players[k.value].(connected := true, disconnectedAt := None)];
      }
      var _ := Cleanup(now);
    }

    /**
     * `rejoinRoom`, after its cleanup: the actor takes over the first seat
     * with the name (ignoring case), or else sits down as a newcomer in a
     * lobby with room to spare, or else is refused. `deleted` is true when
     * the cleanup emptied the room (the server then deletes it) and nobody
     * sat down again, so the room stays deleted.
     */
    method Rejoin(actor: string, name: string, now: int) returns (r: Reply, deleted: bool)
      requires Consistent()
      modifies this
      ensures Consistent()
      ensures var c := Cleaned(old(Data()), now);
        match IndexOfName(c.players, name)
        case Some(k) => r == Done && Data() == Reseated(c, k, actor, now)
        case None =>
          if c.state == Lobby && |c.players| < MaxPlayers then
            r == Done && Data() == c.(players := c.players + [Newcomer(actor, name)], lastActivity := now)
          else
            r == Error(RejoinFailed) && Data() == c
      ensures deleted <==> Cleaned(old(Data()), now).players == [] && r == Error(RejoinFailed)
    {
      ghost var d := Data();
      CleanedKeeps(d, now);
      KeptMembers(d.players, now);
      var _ := Cleanup(now);
      var emptied := |players| == 0;
      var k := IndexOfName(players, name);
      if k.Some? {
        Reseat(k.value, actor, now);
        return Done, false;
      }
      if state == Lobby && |players| < MaxPlayers {
        Seat(Newcomer(actor, name), now);
        return Done, false;
      }
      r, deleted := Error(RejoinFailed), emptied;
    }

    /** Seat `k` is taken over by the connection `actor`; see `Reseated`. */
    method Reseat(k: nat, actor: string, now: int)
      requires k < |players|
      modifies this
      ensures Data() == Reseated(old(Data()), k, actor, now)
    {
      var oldId := players[k].id;
      players := players[k := players[k].(id := actor, connected := true, disconnectedAt := None)];
      if hostId == oldId {
        hostId := actor;
      }
      if askenHolderId == Some(oldId) {
        askenHolderId := Some(actor);
      }
      Touch(now);
    }
  }

  /**
   * The cleanup loop: the seats of `gone` are removed in order. The answer
   * says whether any seat went, which is so as soon as the first one is
   * seated.
   */
  method RemoveStaleSeats(ps: seq<Player>, host: string, gone: seq<Player>)
    returns (qs: seq<Player>, h: string, changed: bool)
    requires gone != [] ==> gone[0] in ps
    ensures (qs, h) == RemoveSeats(ps, host, gone)
    ensures changed <==> gone != []
  {
    qs, h, changed := ps, host, false;
    for k := 0 to |gone|
      invariant RemoveSeats(qs, h, gone[k..]) == RemoveSeats(ps, host, gone)
      invariant changed <==> k > 0
      invariant k == 0 ==> qs == ps
    {
      assert gone[k..][0] == gone[k] && gone[k..][1..] == gone[k + 1..];
      var found;
      qs, h, found := RemoveStaleSeat(qs, h, gone[k]);
      changed := changed || found;
    }
    assert gone[|gone|..] == [];
  }

  /**
   * One step of the cleanup: the first seat equal to `x` is spliced out and,
   * when it held the host's id, the first human left (if any) becomes host.
   */
  method RemoveStaleSeat(ps: seq<Player>, host: string, x: Player) returns (qs: seq<Player>, h: string, found: bool)
    ensures (qs, h) == RemoveSeat(ps, host, x)
    ensures found <==> x in ps
  {
    qs, h := ps, host;
    var at := IndexOfSeat(ps, x);
    found := at.Some?;
    if at.Some? {
      qs := RemoveAt(ps, at.value);
      if host == x.id && |qs| > 0 {
        var heir := IndexOfHuman(qs);
        if heir.Some? {
          h := qs[heir.value].id;
        }
      }
    }
  }

  /** The difficulty's name, as the server stores it. */
  function DifficultyName(level: Difficulty): string {
    match level
    case Dumb => "dumb"
    case Medium => "medium"
    case Smart => "smart"
  }

  /** Exactly the three names parse, each to the difficulty it names. */
  lemma ParseDifficultyNames(level: Difficulty, s: string)
    ensures ParseDifficulty(DifficultyName(level)) == Some(level)
    ensures ParseDifficulty(s) == Some(level) ==> DifficultyName(level) == s
  {
  }

  /** Every score set to zero, seat by seat. */
  method ZeroScores(ps: seq<Player>) returns (qs: seq<Player>)
    ensures |qs| == |ps| && forall j :: 0 <= j < |ps| ==> qs[j] == ps[j].(score := 0)
  {
    qs := ps;
    for p := 0 to |ps|
      invariant |qs| == |ps|
      invariant forall j :: 0 <= j < |ps| ==> qs[j] == ps[j].(score := if j < p then 0 else ps[j].score)
    {
      qs := qs[p := qs[p].(score := 0)];
    }
  }

  // ---------------------------------------------------------------------------
  // The loops of dealing, scoring and laying, on the values they change
  // ---------------------------------------------------------------------------

  /** The seats after the hands are emptied, dealt round robin and sorted. */
  method DealHands(ps: seq<Player>, deck: seq<Card>, dealer: nat) returns (qs: seq<Player>)
    requires |ps| > 0
    ensures qs == DealtPlayers(ps, deck, dealer + 1)
  {
    qs := ClearHands(ps);
    qs := DealRoundRobin(qs, deck, dealer);
    qs := SortHands(qs);
  }

  /** Every hand emptied. */
  method ClearHands(ps: seq<Player>) returns (qs: seq<Player>)
    ensures |qs| == |ps| && forall j :: 0 <= j < |ps| ==> qs[j] == ps[j].(hand := [])
  {
    qs := ps;
    var p := 0;
    while p < |ps|
      invariant 0 <= p <= |ps| == |qs|
      invariant forall j :: 0 <= j < |ps| ==> qs[j] == ps[j].(hand := if j < p then [] else ps[j].hand)
    {
      qs := qs[p := qs[p].(hand := [])];
      p := p + 1;
    }
  }

  /** The seats with their hands replaced by `piles`. */
  function Seated(ps: seq<Player>, piles: seq<seq<Card>>): seq<Player>
    requires |piles| == |ps|
  {
    seq(|ps|, j requires 0 <= j < |ps| => ps[j].(hand := piles[j]))
  }

  /** Adding a card to one seat's hand is adding it to that seat's pile. */
  lemma SeatedAppend(ps: seq<Player>, piles: seq<seq<Card>>, q: nat, c: Card)
    requires |piles| == |ps| && q < |ps|
    ensures var qs := Seated(ps, piles);
      qs[q := qs[q].(hand := qs[q].hand + [c])] == Seated(ps, piles[q := piles[q] + [c]])
  {
  }

  /**
   * The deck dealt one card at a time into empty hands, starting with the
   * seat after the dealer and going round the table.
   */
  method DealRoundRobin(ps: seq<Player>, deck: seq<Card>, dealer: nat) returns (qs: seq<Player>)
    requires |ps| > 0 && forall j :: 0 <= j < |ps| ==> ps[j].hand == []
    ensures qs == Seated(ps, Piles(deck, |ps|, dealer + 1))
  {
    var n := |ps|;
    qs := ps;
    var seat := (dealer + 1) % n;
    var k := 0;
    assert seat == Turn(dealer + 1, 0, n);
    assert qs == Seated(ps, Piles(deck[..0], n, dealer + 1));
    while k < |deck|
      invariant 0 <= k <= |deck|
      invariant seat == Turn(dealer + 1, k, n)
      invariant qs == Seated(ps, Piles(deck[..k], n, dealer + 1))
    {
      PilesStep(deck, k, n, dealer + 1);
      SeatedAppend(ps, Piles(deck[..k], n, dealer + 1), seat, deck[k]);
      qs := qs[seat := qs[seat].(hand := qs[seat].hand + [deck[k]])];
      TurnNext(dealer + 1, k, n);
      seat := (seat + 1) % n;
      k := k + 1;
    }
    assert deck[..|deck|] == deck;
  }

  /** Every hand sorted. */
  method SortHands(ps: seq<Player>) returns (qs: seq<Player>)
    ensures |qs| == |ps| && forall j :: 0 <= j < |ps| ==> qs[j] == ps[j].(hand := SortHand(ps[j].hand))
  {
    qs := ps;
    var p := 0;
    while p < |ps|
      invariant 0 <= p <= |ps| == |qs|
      invariant forall j :: 0 <= j < |ps| ==> qs[j] == ps[j].(hand := if j < p then SortHand(ps[j].hand) else ps[j].hand)
    {
      qs := qs[p := qs[p].(hand := SortHand(qs[p].hand))];
      p := p + 1;
    }
  }

  /** Each seat credited with its round total, and the score sheet line by line. */
  method ScoreRound(ps: seq<Player>, asken: Option<string>) returns (credited: seq<Player>, lines: seq<RoundScore>)
    ensures credited == CreditAll(ps, asken) && lines == ScoreLines(ps, asken)
  {
    credited := ps;
    lines := [];
    var k := 0;
    while k < |ps|
      invariant 0 <= k <= |ps| == |credited|
      invariant forall j :: 0 <= j < |ps| ==> credited[j] == if j < k then CreditAll(ps, asken)[j] else ps[j]
      invariant lines == ScoreLines(ps, asken)[..k]
    {
      var p := credited[k];
      var cardPoints := HandPoints(p.hand);
      var askenPoints := if asken == Some(p.id) then AskenPenalty else 0;
      var roundTotal := cardPoints + askenPoints;
      credited := credited[k := p.(score := p.score + roundTotal)];
      lines := lines + [RoundScore(p.id, p.name, cardPoints, askenPoints, roundTotal)];
      k := k + 1;
    }
  }

  /** The hand after each card is found and spliced out in turn. */
  method TakeCards(hand: seq<Card>, cards: seq<Card>) returns (rest: seq<Card>)
    ensures rest == RemoveCards(hand, cards)
  {
    rest := hand;
    var k := 0;
    while k < |cards|
      invariant 0 <= k <= |cards|
      invariant rest == RemoveCards(hand, cards[..k])
    {
      RemoveCardsSnoc(hand, cards[..k], cards[k]);
      assert cards[..k + 1] == cards[..k] + [cards[k]];
      rest := RemoveFirst(rest, cards[k]);
      k := k + 1;
    }
    assert cards[..|cards|] == cards;
  }
}
