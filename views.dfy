/**
 * What each person at the table is sent after a change: the room's public
 * fields, one line per seat, their own hand, and, when it is their turn, the
 * cards they may select. Robots are sent nothing.
 */
module Views {
  import opened Options
  import opened Seqs
  import opened Cards
  import opened Legality
  import opened Players
  import opened Scoring
  import opened Bot
  import opened Transitions

  /** One seat as a viewer sees it; `hand` is None where the cards are hidden. */
  datatype SeatView = SeatView(
    id: string,
    name: string,
    cardCount: nat,
    score: nat,
    hand: Option<seq<Card>>,
    isMe: bool,
    isCurrent: bool,
    isHost: bool,
    isDealer: bool,
    isStarter: bool,
    hasAsken: bool,
    isWinner: bool,
    connected: bool,
    isBot: bool)

  /** A round winner as the views name it. */
  datatype WinnerView = WinnerView(id: string, name: string)

  /** The snapshot one human receives. */
  datatype RoomView = RoomView(
    code: string,
    hostId: string,
    state: Phase,
    mode: string,
    roundNumber: nat,
    currentPlayerIndex: int,
    dealerIndex: nat,
    starterIndex: Option<int>,
    tableau: Tableau,
    askenHolderId: Option<string>,
    roundEnded: bool,
    roundWinners: seq<WinnerView>,
    roundScores: Option<seq<RoundScore>>,
    lastPlayedCards: seq<string>,
    botDifficulty: Difficulty,
    helpMode: bool,
    hasBots: bool,
    isGameOver: bool,
    myId: string,
    players: seq<SeatView>,
    playableCardIds: Option<seq<string>>)

  /**
   * The two broadcasts differ in one point only: the one sent after moves
   * (`emitRoomStateToAll`) shows every hand once the round is over, while the
   * one sent after lobby changes and reconnections (`emitRoomState`, here
   * `ToLobby`) never shows another seat's hand.
   */
  datatype Broadcast = ToAll | ToLobby

  predicate IsWinner(winners: seq<Player>, id: string) {
    exists w :: w in winners && w.id == id
  }

  function WinnerViews(winners: seq<Player>): seq<WinnerView> {
    seq(|winners|, k requires 0 <= k < |winners| => WinnerView(winners[k].id, winners[k].name))
  }

  predicate HandShown(d: RoomState, kind: Broadcast, viewer: Player, p: Player) {
    p.id == viewer.id || (kind == ToAll && d.roundEnded)
  }

  /** Seat `index` as `viewer` sees it. */
  function SeatViewOf(d: RoomState, kind: Broadcast, viewer: Player, index: nat): SeatView
    requires index < |d.players|
  {
    var p := d.players[index];
    SeatView(
      p.id, p.name, |p.hand|, p.score,
      if HandShown(d, kind, viewer, p) then Some(p.hand) else None,
      p.id == viewer.id,
      index == d.currentPlayerIndex,
      p.id == d.hostId,
      index == d.dealerIndex,
      d.starterIndex == Some(index),
      d.askenHolderId == Some(p.id),
      IsWinner(d.roundWinners, p.id),
      p.connected,
      p.isBot)
  }

  /** The ids of the viewer's cards that can take part in a sequence, in hand order. */
  function HelpedIds(hand: seq<Card>, t: Tableau): seq<string> {
    IdsOf(Filter(hand, c => CanBePartOfSequence(c, hand, t)))
  }

  /** Whether it is the viewer's turn in a running round. */
  predicate ViewersTurn(d: RoomState, viewer: Player) {
    && 0 <= d.currentPlayerIndex < |d.players|
    && viewer.id == d.players[d.currentPlayerIndex].id
    && d.state == Playing && !d.roundEnded
  }

  /**
   * The cards the viewer may select: only on their own turn in a running
   * round; in help mode the cards that can take part in a sequence, and
   * otherwise the whole hand.
   */
  function PlayableIds(d: RoomState, viewer: Player): Option<seq<string>> {
    if !ViewersTurn(d, viewer) then None
    else if d.helpMode then Some(HelpedIds(viewer.hand, d.tableau))
    else Some(IdsOf(viewer.hand))
  }

  /** The snapshot sent to `viewer`. */
  function ViewFor(d: RoomState, kind: Broadcast, viewer: Player): RoomView {
    RoomView(
      d.code, d.hostId, d.state, d.mode, d.roundNumber, d.currentPlayerIndex,
      d.dealerIndex, d.starterIndex, d.tableau, d.askenHolderId, d.roundEnded,
      WinnerViews(d.roundWinners), d.roundScores, d.lastPlayedCards,
      d.botDifficulty, d.helpMode,
      exists p :: p in d.players && p.isBot,
      GameOver(d.mode, d.players),
      viewer.id,
      seq(|d.players|, j requires 0 <= j < |d.players| => SeatViewOf(d, kind, viewer, j)),
      PlayableIds(d, viewer))
  }

  /** The human seats, in seat order: those a broadcast goes to. */
  function Humans(ps: seq<Player>): seq<Player> {
    Filter(ps, (p: Player) => !p.isBot)
  }

  /** One snapshot per human seat, in seat order. */
  function BroadcastViews(d: RoomState, kind: Broadcast): seq<RoomView> {
    var hs := Humans(d.players);
    seq(|hs|, k requires 0 <= k < |hs| => ViewFor(d, kind, hs[k]))
  }

  // ---------------------------------------------------------------------------
  // Properties of the snapshots
  // ---------------------------------------------------------------------------

  /**
   * A snapshot describes every seat truly, and shows another seat's cards
   * only in the broadcast after moves once the round is over. The lobby
   * broadcast never shows them.
   */
  lemma SeatsShownTruly(d: RoomState, kind: Broadcast, viewer: Player)
    ensures var v := ViewFor(d, kind, viewer);
      && |v.players| == |d.players|
      && forall j :: 0 <= j < |d.players| ==>
           var s := v.players[j];
           && s.id == d.players[j].id && s.name == d.players[j].name
           && s.cardCount == |d.players[j].hand| && s.score == d.players[j].score
           && (s.hand.Some? ==> s.hand.value == d.players[j].hand)
           && (s.hand.Some? <==> d.players[j].id == viewer.id || (kind == ToAll && d.roundEnded))
           && (kind == ToLobby && d.players[j].id != viewer.id ==> s.hand.None?)
           && (s.isWinner <==> exists w :: w in d.roundWinners && w.id == d.players[j].id)
  {
  }

  /** At most one seat is marked current, and exactly one while the turn index is a seat. */
  lemma OneCurrentSeat(d: RoomState, kind: Broadcast, viewer: Player)
    ensures var v := ViewFor(d, kind, viewer);
      && (forall i, j :: 0 <= i < j < |v.players| ==> !(v.players[i].isCurrent && v.players[j].isCurrent))
      && (0 <= d.currentPlayerIndex < |d.players| <==> exists j :: 0 <= j < |v.players| && v.players[j].isCurrent)
  {
    var v := ViewFor(d, kind, viewer);
    if 0 <= d.currentPlayerIndex < |d.players| {
      assert v.players[d.currentPlayerIndex].isCurrent;
    }
  }

  /**
   * In help mode the selectable ids are exactly the ids of the viewer's cards
   * that can take part in a sequence.
   */
  lemma HelpedIdsExact(hand: seq<Card>, t: Tableau)
    ensures forall id :: id in HelpedIds(hand, t) <==>
      exists c :: c in hand && CanBePartOfSequence(c, hand, t) && Id(c) == id
  {
    var kept := Filter(hand, c => CanBePartOfSequence(c, hand, t));
    FilterMembers(hand, c => CanBePartOfSequence(c, hand, t));
    forall id ensures id in HelpedIds(hand, t) <==> exists c :: c in kept && Id(c) == id {
      if id in HelpedIds(hand, t) {
        var k :| 0 <= k < |kept| && HelpedIds(hand, t)[k] == id;
        assert kept[k] in kept;
      }
      if c :| c in kept && Id(c) == id {
        var k :| 0 <= k < |kept| && kept[k] == c;
        assert HelpedIds(hand, t)[k] == id;
      }
    }
  }

  /**
   * Selectable ids are sent only to the seat whose turn it is in a running
   * round, and then they are ids of that seat's own cards.
   */
  lemma PlayableOnlyOnTurn(d: RoomState, viewer: Player)
    ensures PlayableIds(d, viewer).Some? <==> ViewersTurn(d, viewer)
    ensures PlayableIds(d, viewer).Some? ==>
      forall id :: id in PlayableIds(d, viewer).value ==> exists c :: c in viewer.hand && Id(c) == id
    ensures PlayableIds(d, viewer).Some? && !d.helpMode ==> PlayableIds(d, viewer).value == IdsOf(viewer.hand)
  {
    if ViewersTurn(d, viewer) {
      if d.helpMode {
        HelpedIdsExact(viewer.hand, d.tableau);
      } else {
        forall id | id in IdsOf(viewer.hand) ensures exists c :: c in viewer.hand && Id(c) == id {
          var k :| 0 <= k < |viewer.hand| && IdsOf(viewer.hand)[k] == id;
          assert viewer.hand[k] in viewer.hand;
        }
      }
    }
  }

  /**
   * In help mode a player on turn is offered no card exactly when a pass
   * would be accepted: the view and the pass rule agree.
   */
  lemma NothingOfferedIffMayPass(d: RoomState, viewer: Player)
    requires ViewersTurn(d, viewer) && d.helpMode
    ensures PlayableIds(d, viewer) == Some([]) <==>
      !exists c :: c in viewer.hand && CanBePartOfSequence(c, viewer.hand, d.tableau)
  {
    var ids := HelpedIds(viewer.hand, d.tableau);
    HelpedIdsExact(viewer.hand, d.tableau);
    if ids != [] {
      assert ids[0] in ids;
    }
    if c :| c in viewer.hand && CanBePartOfSequence(c, viewer.hand, d.tableau) {
      assert Id(c) in ids;
    }
  }

  /** Each human seat gets one snapshot addressed to it, and no robot gets one. */
  lemma OneViewPerHuman(d: RoomState, kind: Broadcast)
    ensures var vs := BroadcastViews(d, kind);
      && (forall v :: v in vs ==> exists p :: p in d.players && !p.isBot && v.myId == p.id)
      && (forall p :: p in d.players && !p.isBot ==> exists v :: v in vs && v.myId == p.id)
  {
    var hs := Humans(d.players);
    var vs := BroadcastViews(d, kind);
    FilterMembers(d.players, (p: Player) => !p.isBot);
    forall v | v in vs ensures exists p :: p in d.players && !p.isBot && v.myId == p.id {
      var k :| 0 <= k < |vs| && vs[k] == v;
      assert hs[k] in hs;
    }
    forall p | p in d.players && !p.isBot ensures exists v :: v in vs && v.myId == p.id {
      assert p in hs;
      var k :| 0 <= k < |hs| && hs[k] == p;
      assert vs[k] in vs;
    }
  }
}
