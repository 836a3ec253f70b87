/**
 * A room as a value, and what each step of play does to it: dealing a round,
 * laying cards, passing, and scoring the end of a round. The `Room` class
 * performs these steps field by field; the functions here say what each step
 * amounts to, and the lemmas say what the rules of the game promise about them.
 */
module Transitions {
  import opened Options
  import opened Seqs
  import opened Cards
  import opened Legality
  import opened Dealing
  import opened Players
  import opened Scoring
  import opened Bot

  /** Where a room is in its life: gathering players, in a round, or between rounds. */
  datatype Phase = Lobby | Playing | RoundEnd

  /**
   * Every field of a room. `roundWinners` holds the winning seats as they
   * were when the round ended;
   * `currentPlayerIndex` is -1 when a deal finds nobody holding the seven of
   * spades, as `findIndex` reports it.
   */
  datatype RoomState = RoomState(
    code: string,
    hostId: string,
    players: seq<Player>,
    state: Phase,
    mode: string,
    currentPlayerIndex: int,
    dealerIndex: nat,
    starterIndex: Option<int>,
    tableau: Tableau,
    askenHolderId: Option<string>,
    roundNumber: nat,
    roundEnded: bool,
    roundWinners: seq<Player>,
    roundScores: Option<seq<RoundScore>>,
    lastPlayedCards: seq<string>,
    botDifficulty: Difficulty,
    helpMode: bool,
    lastActivity: int)

  // ---------------------------------------------------------------------------
  // Cards named by id
  // ---------------------------------------------------------------------------

  function IdsOf(cs: seq<Card>): seq<string> {
    seq(|cs|, k requires 0 <= k < |cs| => Id(cs[k]))
  }

  /** The first card of the hand with the given id. */
  function FindCard(hand: seq<Card>, id: string): (r: Option<Card>)
    ensures r.Some? ==> r.value in hand && Id(r.value) == id
    ensures r.None? <==> forall c :: c in hand ==> Id(c) != id
  {
    if hand == [] then None
    else if Id(hand[0]) == id then Some(hand[0])
    else FindCard(hand[1..], id)
  }

  /** The cards a list of ids names in the hand, in the order of the ids; unknown ids are dropped. */
  function Resolve(hand: seq<Card>, ids: seq<string>): seq<Card> {
    if ids == [] then []
    else
      match FindCard(hand, ids[0])
      case Some(c) => [c] + Resolve(hand, ids[1..])
      case None => Resolve(hand, ids[1..])
  }

  /**
   * The selection holds only cards of the hand, no more of them than there
   * were ids, and is empty exactly when no id names a card of the hand.
   */
  lemma {:induction false} ResolveSelects(hand: seq<Card>, ids: seq<string>)
    ensures var r := Resolve(hand, ids);
      && (forall c :: c in r ==> c in hand)
      && |r| <= |ids|
      && (r == [] <==> forall k :: 0 <= k < |ids| ==> FindCard(hand, ids[k]).None?)
  {
    if ids != [] {
      ResolveSelects(hand, ids[1..]);
      assert forall k :: 1 <= k < |ids| ==> ids[k] == ids[1..][k - 1];
    }
  }

  lemma {:induction false} FindOwnId(hand: seq<Card>, c: Card)
    requires c in hand
    ensures FindCard(hand, Id(c)) == Some(c)
  {
    if hand[0] != c {
      IdInjective(hand[0], c);
      FindOwnId(hand[1..], c);
    }
  }

  lemma ResolveFound(hand: seq<Card>, ids: seq<string>, c: Card)
    requires ids != [] && FindCard(hand, ids[0]) == Some(c)
    ensures Resolve(hand, ids) == [c] + Resolve(hand, ids[1..])
  {
  }

  lemma IdsOfTail(cs: seq<Card>)
    requires cs != []
    ensures IdsOf(cs)[0] == Id(cs[0]) && IdsOf(cs)[1..] == IdsOf(cs[1..])
  {
  }

  /** Sending the ids of cards from the hand selects exactly those cards, in that order. */
  lemma {:induction false} ResolveOwnIds(hand: seq<Card>, cs: seq<Card>)
    requires forall c :: c in cs ==> c in hand
    ensures Resolve(hand, IdsOf(cs)) == cs
  {
    if cs != [] {
      var ids := IdsOf(cs);
      IdsOfTail(cs);
      FindOwnId(hand, cs[0]);
      ResolveFound(hand, ids, cs[0]);
      assert forall c :: c in cs[1..] ==> c in cs;
      ResolveOwnIds(hand, cs[1..]);
    }
  }

  // ---------------------------------------------------------------------------
  // Taking cards out of a hand
  // ---------------------------------------------------------------------------

  lemma MultisetShift(a: multiset<Card>, b: multiset<Card>, c: multiset<Card>)
    ensures (a - b) - c == a - (b + c)
  {
    forall x ensures ((a - b) - c)[x] == (a - (b + c))[x] {
    }
  }

  /** The hand with its first copy of `c` taken out, as a `findIndex` and `splice` leave it. */
  function RemoveFirst(h: seq<Card>, c: Card): seq<Card> {
    if h == [] then []
    else if h[0] == c then h[1..]
    else [h[0]] + RemoveFirst(h[1..], c)
  }

  /**
   * Taking out a card removes one copy of it: the hand shrinks by one when it
   * held the card and is left as it was otherwise.
   */
  lemma {:induction false} RemoveFirstCount(h: seq<Card>, c: Card)
    ensures multiset(RemoveFirst(h, c)) == multiset(h) - multiset{c}
    ensures c in h ==> |RemoveFirst(h, c)| == |h| - 1
    ensures c !in h ==> RemoveFirst(h, c) == h
  {
    if h != [] {
      if h[0] == c {
        MultisetTail(h);
      } else {
        RemoveFirstCount(h[1..], c);
        KeepHead(h, c, RemoveFirst(h[1..], c));
      }
    }
  }

  lemma KeepHead(h: seq<Card>, c: Card, rest: seq<Card>)
    requires h != [] && h[0] != c && multiset(rest) == multiset(h[1..]) - multiset{c}
    requires c in h[1..] ==> |rest| == |h| - 2
    requires c !in h[1..] ==> rest == h[1..]
    ensures multiset([h[0]] + rest) == multiset(h) - multiset{c}
    ensures c in h ==> |[h[0]] + rest| == |h| - 1
    ensures c !in h ==> [h[0]] + rest == h
  {
    var t := h[1..];
    assert h == [h[0]] + t;
    var a, b := multiset(h), multiset([h[0]] + rest);
    assert a == multiset{h[0]} + multiset(t);
    assert b == multiset{h[0]} + multiset(rest);
    forall x ensures b[x] == (a - multiset{c})[x] {
    }
    assert c in h ==> c in t;
  }

  /** The hand after each card of `cs` has been taken out in turn. */
  function RemoveCards(h: seq<Card>, cs: seq<Card>): seq<Card>
    decreases |cs|
  {
    if cs == [] then h
    else RemoveFirst(RemoveCards(h, cs[..|cs| - 1]), cs[|cs| - 1])
  }

  lemma RemoveCardsSnoc(h: seq<Card>, cs: seq<Card>, c: Card)
    ensures RemoveCards(h, cs + [c]) == RemoveFirst(RemoveCards(h, cs), c)
  {
    assert (cs + [c])[..|cs|] == cs;
  }

  /**
   * Taking out the cards `cs` leaves the hand less those cards, and when the
   * hand held them all it shrinks by exactly their number.
   */
  lemma RemoveCardsCount(h: seq<Card>, cs: seq<Card>)
    ensures multiset(RemoveCards(h, cs)) == multiset(h) - multiset(cs)
    ensures multiset(cs) <= multiset(h) ==> |RemoveCards(h, cs)| == |h| - |cs|
  {
    RemoveCardsMultiset(h, cs);
    if multiset(cs) <= multiset(h) {
      var a, b := multiset(h), multiset(cs);
      assert a == (a - b) + b;
    }
  }

  lemma {:induction false} RemoveCardsMultiset(h: seq<Card>, cs: seq<Card>)
    ensures multiset(RemoveCards(h, cs)) == multiset(h) - multiset(cs)
    decreases |cs|
  {
    if cs != [] {
      var last := |cs| - 1;
      var init, x := cs[..last], cs[last];
      RemoveCardsMultiset(h, init);
      RemoveFirstCount(RemoveCards(h, init), x);
      assert cs == init + [x];
      MultisetShift(multiset(h), multiset(init), multiset{x});
    }
  }

  lemma RemoveFirstSorted(h: seq<Card>, c: Card)
    requires Sorted(h)
    ensures Sorted(RemoveFirst(h, c))
    decreases |h|
  {
    if h != [] && h[0] != c {
      SortedTail(h);
      RemoveFirstSorted(h[1..], c);
      var r := RemoveFirst(h, c);
      forall i, j | 0 <= i < j < |r| ensures Key(r[i]) <= Key(r[j]) {
        if i == 0 {
          RemoveFirstCount(h[1..], c);
          assert r[j] in multiset(RemoveFirst(h[1..], c));
          assert r[j] in h[1..];
          SortedHeadLeast(h, r[j]);
        }
      }
    }
  }

  /** Taking cards out of a sorted hand leaves it sorted. */
  lemma {:induction false} RemoveCardsSorted(h: seq<Card>, cs: seq<Card>)
    requires Sorted(h)
    ensures Sorted(RemoveCards(h, cs))
    decreases |cs|
  {
    if cs != [] {
      var last := |cs| - 1;
      RemoveCardsSorted(h, cs[..last]);
      RemoveFirstSorted(RemoveCards(h, cs[..last]), cs[last]);
    }
  }

  lemma {:induction false} DistinctAtMostOnce(s: seq<Card>, x: Card)
    requires Distinct(s)
    ensures multiset(s)[x] <= 1
  {
    if s != [] {
      assert s == [s[0]] + s[1..];
      assert Distinct(s[1..]) by {
        forall i, j | 0 <= i < j < |s[1..]| ensures s[1..][i] != s[1..][j] {
          assert s[1..][i] == s[i + 1] && s[1..][j] == s[j + 1];
        }
      }
      DistinctAtMostOnce(s[1..], x);
      if s[0] == x {
        forall k | 0 <= k < |s[1..]| ensures s[1..][k] != x {
          assert s[1..][k] == s[k + 1];
        }
      }
    }
  }

  /** Distinct cards that all come from the hand are a part of the hand. */
  lemma DistinctInHand(cs: seq<Card>, hand: seq<Card>)
    requires Distinct(cs) && forall c :: c in cs ==> c in hand
    ensures multiset(cs) <= multiset(hand)
  {
    forall x ensures multiset(cs)[x] <= multiset(hand)[x] {
      DistinctAtMostOnce(cs, x);
      if x in cs {
        assert x in multiset(hand);
      }
    }
  }

  // ---------------------------------------------------------------------------
  // Dealing
  // ---------------------------------------------------------------------------

  function Hands(ps: seq<Player>): seq<seq<Card>> {
    seq(|ps|, p requires 0 <= p < |ps| => ps[p].hand)
  }

  /** The first seat holding the card, as `findIndex` finds it. */
  function HolderOf(ps: seq<Player>, c: Card): Option<nat> {
    if ps == [] then None
    else if c in ps[0].hand then Some(0)
    else
      match HolderOf(ps[1..], c)
      case None => None
      case Some(k) => Some(k + 1)
  }

  /** `HolderOf` finds the first seat holding the card, and none when nobody holds it. */
  lemma {:induction false} HolderOfFirst(ps: seq<Player>, c: Card)
    ensures var r := HolderOf(ps, c);
      && (r.Some? ==> r.value < |ps| && c in ps[r.value].hand)
      && (r.Some? ==> forall j :: 0 <= j < r.value ==> c !in ps[j].hand)
      && (r.None? ==> forall j :: 0 <= j < |ps| ==> c !in ps[j].hand)
  {
    if ps != [] && c !in ps[0].hand {
      HolderOfFirst(ps[1..], c);
      assert forall j :: 1 <= j < |ps| ==> ps[j] == ps[1..][j - 1];
    }
  }

  /** The seats after the deal: each gets its pile of the round-robin deal, sorted. */
  function DealtPlayers(ps: seq<Player>, deck: seq<Card>, first: nat): seq<Player>
    requires |ps| > 0
  {
    var piles := Piles(deck, |ps|, first);
    seq(|ps|, p requires 0 <= p < |ps| => ps[p].(hand := SortHand(piles[p])))
  }

  lemma {:induction false} UnionPermuted(a: seq<seq<Card>>, b: seq<seq<Card>>)
    requires |a| == |b| && forall p :: 0 <= p < |a| ==> multiset(a[p]) == multiset(b[p])
    ensures Union(a) == Union(b)
    decreases |a|
  {
    if a != [] {
      var last := |a| - 1;
      UnionPermuted(a[..last], b[..last]);
    }
  }

  lemma {:induction false} UnionMember(hands: seq<seq<Card>>, c: Card)
    requires Union(hands)[c] > 0
    ensures exists p :: 0 <= p < |hands| && c in hands[p]
    decreases |hands|
  {
    var last := |hands| - 1;
    if c !in hands[last] {
      UnionMember(hands[..last], c);
      var p :| 0 <= p < last && c in hands[..last][p];
      assert hands[..last][p] == hands[p];
    }
  }

  /** After the deal the hands hold exactly the cards of the deck. */
  lemma DealtUnion(ps: seq<Player>, deck: seq<Card>, first: nat)
    requires |ps| > 0
    ensures Union(Hands(DealtPlayers(ps, deck, first))) == multiset(deck)
  {
    PilesPartition(deck, |ps|, first);
    var piles := Piles(deck, |ps|, first);
    forall p | 0 <= p < |ps| ensures multiset(SortHand(piles[p])) == multiset(piles[p]) {
      SortHandSorts(piles[p]);
    }
    UnionPermuted(Hands(DealtPlayers(ps, deck, first)), Piles(deck, |ps|, first));
  }

  /** A card of a complete deck lies in exactly one hand after the deal. */
  lemma DealtOwner(ps: seq<Player>, deck: seq<Card>, first: nat, c: Card)
    requires |ps| > 0 && IsDeck(deck)
    ensures var dealt := DealtPlayers(ps, deck, first);
      && HolderOf(dealt, c).Some?
      && forall p :: 0 <= p < |dealt| && c in dealt[p].hand ==> HolderOf(dealt, c) == Some(p)
  {
    var dealt := DealtPlayers(ps, deck, first);
    var hands := Hands(dealt);
    DealtUnion(ps, deck, first);
    DistinctAtMostOnce(deck, c);
    assert c in deck;
    assert Union(hands)[c] == 1;
    UnionMember(hands, c);
    var p :| 0 <= p < |hands| && c in hands[p];
    assert c in dealt[p].hand;
    HolderOfFirst(dealt, c);
    var h := HolderOf(dealt, c).value;
    forall q | 0 <= q < |dealt| && c in dealt[q].hand ensures h == q {
      assert c in hands[h] && c in hands[q];
      UniqueOwner(hands, c, h, q);
    }
  }

  /**
   * The room after `dealCards`: fresh sorted hands from the deck, the holder of
   * the seven of spades to start, and a clean table.
   */
  function Dealt(d: RoomState, deck: seq<Card>): RoomState
    requires |d.players| > 0
  {
    WithHands(d, DealtPlayers(d.players, deck, d.dealerIndex + 1))
  }

  /** The first seat holding the seven of spades, or -1 as `findIndex` gives when there is none. */
  function Starter(ps: seq<Player>): int {
    match HolderOf(ps, SevenOfSpades) case Some(k) => k as int case None => -1
  }

  /** The room with the dealt seats `ps`, started by the first holder of the seven of spades. */
  function WithHands(d: RoomState, ps: seq<Player>): RoomState {
    var start := Starter(ps);
    d.(players := ps, currentPlayerIndex := start, starterIndex := Some(start),
       lastPlayedCards := [], tableau := EmptyTableau, askenHolderId := None,
       roundEnded := false, roundWinners := [], state := Playing)
  }

  lemma WithHandsStarter(d: RoomState, ps: seq<Player>)
    requires HolderOf(ps, SevenOfSpades).Some?
    requires forall p :: 0 <= p < |ps| && SevenOfSpades in ps[p].hand ==> HolderOf(ps, SevenOfSpades) == Some(p)
    ensures var e := WithHands(d, ps);
      && 0 <= e.currentPlayerIndex < |e.players| && e.starterIndex == Some(e.currentPlayerIndex)
      && forall p :: 0 <= p < |e.players| ==> (SevenOfSpades in e.players[p].hand <==> p == e.currentPlayerIndex)
  {
    HolderOfFirst(ps, SevenOfSpades);
  }

  /** The deal changes nothing about the seats but their hands. */
  lemma DealKeepsSeats(d: RoomState, deck: seq<Card>)
    requires |d.players| > 0
    ensures var e := Dealt(d, deck);
      && |e.players| == |d.players|
      && forall p :: 0 <= p < |d.players| ==> e.players[p] == d.players[p].(hand := e.players[p].hand)
  {
    var dealt := DealtPlayers(d.players, deck, d.dealerIndex + 1);
    assert Dealt(d, deck).players == dealt;
  }

  /** After the deal the hands hold exactly the cards of the deck. */
  lemma DealHandsHoldDeck(d: RoomState, deck: seq<Card>)
    requires |d.players| > 0
    ensures Union(Hands(Dealt(d, deck).players)) == multiset(deck)
  {
    var first := d.dealerIndex + 1;
    assert Dealt(d, deck).players == DealtPlayers(d.players, deck, first);
    DealtUnion(d.players, deck, first);
  }

  /** Dealing a complete deck puts every card in exactly one hand. */
  lemma DealPartitionsDeck(d: RoomState, deck: seq<Card>)
    requires IsDeck(deck) && |d.players| > 0
    ensures var e := Dealt(d, deck);
      && (forall c: Card :: HolderOf(e.players, c).Some?)
      && (forall c: Card, p :: 0 <= p < |e.players| && c in e.players[p].hand ==> HolderOf(e.players, c) == Some(p))
  {
    var first := d.dealerIndex + 1;
    var dealt := DealtPlayers(d.players, deck, first);
    assert Dealt(d, deck).players == dealt;
    forall c: Card ensures HolderOf(dealt, c).Some? {
      DealtOwner(d.players, deck, first, c);
    }
    forall c: Card, p | 0 <= p < |dealt| && c in dealt[p].hand ensures HolderOf(dealt, c) == Some(p) {
      DealtOwner(d.players, deck, first, c);
    }
  }

  /** The deal is fair and tidy: hand sizes differ by at most one, and every hand is sorted. */
  lemma DealtFairAndSorted(ps: seq<Player>, deck: seq<Card>, first: nat)
    requires |ps| > 0
    ensures var dealt := DealtPlayers(ps, deck, first);
      && (forall p, q :: 0 <= p < |dealt| && 0 <= q < |dealt| ==> -1 <= |dealt[p].hand| - |dealt[q].hand| <= 1)
      && (forall p :: 0 <= p < |dealt| ==> Sorted(dealt[p].hand))
  {
    var dealt := DealtPlayers(ps, deck, first);
    var piles := Piles(deck, |ps|, first);
    forall p, q | 0 <= p < |dealt| && 0 <= q < |dealt| ensures -1 <= |dealt[p].hand| - |dealt[q].hand| <= 1 {
      PileSizesWithinOne(deck, |ps|, first, p, q);
      SortHandSorts(piles[p]);
      SortHandSorts(piles[q]);
      assert |SortHand(piles[p])| == |multiset(piles[p])| == |piles[p]|;
      assert |SortHand(piles[q])| == |multiset(piles[q])| == |piles[q]|;
    }
    forall p | 0 <= p < |dealt| ensures Sorted(dealt[p].hand) {
      SortHandSorts(piles[p]);
    }
  }

  /** Dealing a complete deck: hand sizes differ by at most one, and every hand is sorted. */
  lemma DealIsFairAndSorted(d: RoomState, deck: seq<Card>)
    requires |d.players| > 0
    ensures var e := Dealt(d, deck);
      && (forall p, q :: 0 <= p < |e.players| && 0 <= q < |e.players| ==>
            -1 <= |e.players[p].hand| - |e.players[q].hand| <= 1)
      && (forall p :: 0 <= p < |e.players| ==> Sorted(e.players[p].hand))
  {
    var first := d.dealerIndex + 1;
    assert Dealt(d, deck).players == DealtPlayers(d.players, deck, first);
    DealtFairAndSorted(d.players, deck, first);
  }

  /** The one player who holds the seven of spades starts the round. */
  lemma DealStartsWithSevenOfSpades(d: RoomState, deck: seq<Card>)
    requires IsDeck(deck) && |d.players| > 0
    ensures var e := Dealt(d, deck);
      && 0 <= e.currentPlayerIndex < |e.players| && e.starterIndex == Some(e.currentPlayerIndex)
      && forall p :: 0 <= p < |e.players| ==> (SevenOfSpades in e.players[p].hand <==> p == e.currentPlayerIndex)
  {
    var first := d.dealerIndex + 1;
    var dealt := DealtPlayers(d.players, deck, first);
    DealtOwner(d.players, deck, first, SevenOfSpades);
    WithHandsStarter(d, dealt);
  }

  // ---------------------------------------------------------------------------
  // Ending a round
  // ---------------------------------------------------------------------------

  /** The room after `endRound`: scores credited, the score sheet and winners kept, state roundEnd. */
  function Ended(d: RoomState): RoomState {
    d.(players := CreditAll(d.players, d.askenHolderId),
       roundScores := Some(ScoreLines(d.players, d.askenHolderId)),
       roundWinners := Winners(d.players, d.askenHolderId),
       roundEnded := true,
       state := RoundEnd)
  }

  /**
   * Ending a round adds each player's card points to their score, plus the
   * asken penalty for its holder only, and changes nothing else about them;
   * a room with players always has a winner.
   */
  lemma EndedScores(d: RoomState)
    ensures var e := Ended(d);
      && |e.players| == |d.players|
      && (forall i :: 0 <= i < |d.players| ==>
            e.players[i] == d.players[i].(score := e.players[i].score)
            && e.players[i].score == d.players[i].score + HandPoints(d.players[i].hand)
                 + (if d.askenHolderId == Some(d.players[i].id) then AskenPenalty else 0))
      && e.state == RoundEnd && e.roundEnded
      && (d.players != [] ==> e.roundWinners != [])
  {
    if d.players != [] {
      WinnersNonEmpty(d.players, d.askenHolderId);
      WinnersIds(d.players, d.askenHolderId);
    }
  }

  // ---------------------------------------------------------------------------
  // Laying cards and passing
  // ---------------------------------------------------------------------------

  /**
   * The room after seat `i` lays `cards` in that order: the cards leave the
   * hand and go on the table, and either the round ends (the hand is empty)
   * or the turn passes to the next seat.
   */
  function AfterPlay(d: RoomState, i: nat, cards: seq<Card>, now: int): RoomState
    requires i < |d.players|
  {
    var hand := RemoveCards(d.players[i].hand, cards);
    var laid := d.(players := d.players[i := d.players[i].(hand := hand)],
                   lastPlayedCards := IdsOf(cards),
                   tableau := ApplyAll(d.tableau, cards));
    var next := if hand == [] then Ended(laid)
                else laid.(currentPlayerIndex := (d.currentPlayerIndex + 1) % |d.players|);
    next.(lastActivity := now)
  }

  /** The room after seat `i` passes: it holds the asken, and the turn moves on. */
  function AfterPass(d: RoomState, i: nat, now: int): RoomState
    requires i < |d.players|
  {
    d.(askenHolderId := Some(d.players[i].id),
       currentPlayerIndex := (d.currentPlayerIndex + 1) % |d.players|,
       lastActivity := now)
  }

  /** A play changes no hand but the player's, whichever way the round goes on. */
  lemma AfterPlayHands(d: RoomState, i: nat, cards: seq<Card>, now: int)
    requires i < |d.players|
    ensures var e := AfterPlay(d, i, cards, now);
      && |e.players| == |d.players|
      && e.players[i].hand == RemoveCards(d.players[i].hand, cards)
      && forall j :: 0 <= j < |d.players| && j != i ==> e.players[j].hand == d.players[j].hand
  {
  }

  /**
   * Laying a valid sequence of cards from the hand takes exactly those cards
   * out of that hand (which stays sorted) and leaves every other hand alone.
   */
  lemma PlayTakesCards(d: RoomState, i: nat, cards: seq<Card>, now: int)
    requires i < |d.players| && Valid(d.tableau) && ValidSequence(d.tableau, cards)
    requires forall c :: c in cards ==> c in d.players[i].hand
    ensures var e := AfterPlay(d, i, cards, now);
      && |e.players| == |d.players|
      && multiset(e.players[i].hand) == multiset(d.players[i].hand) - multiset(cards)
      && |e.players[i].hand| == |d.players[i].hand| - |cards|
      && (Sorted(d.players[i].hand) ==> Sorted(e.players[i].hand))
      && (forall j :: 0 <= j < |d.players| && j != i ==> e.players[j].hand == d.players[j].hand)
  {
    AfterPlayHands(d, i, cards, now);
    RemoveCardsCount(d.players[i].hand, cards);
    ValidSequenceFresh(d.tableau, cards);
    DistinctInHand(cards, d.players[i].hand);
    if Sorted(d.players[i].hand) {
      RemoveCardsSorted(d.players[i].hand, cards);
    }
  }

  /**
   * Laying a valid sequence widens the table to cover the cards, keeps it
   * consistent, and records the cards' ids as the last laid.
   */
  lemma PlayWidensTable(d: RoomState, i: nat, cards: seq<Card>, now: int)
    requires i < |d.players| && Valid(d.tableau) && ValidSequence(d.tableau, cards)
    ensures var e := AfterPlay(d, i, cards, now);
      && e.tableau == ApplyAll(d.tableau, cards)
      && Valid(e.tableau) && Extends(d.tableau, e.tableau)
      && (forall c :: c in cards ==> Covered(e.tableau, c))
      && e.lastPlayedCards == IdsOf(cards)
  {
    ValidSequenceExtends(d.tableau, cards);
  }

  /**
   * After a play the round is over exactly when the hand is empty; otherwise
   * the round goes on with the next seat, counting round the table.
   */
  lemma PlayEndsOrAdvances(d: RoomState, i: nat, cards: seq<Card>, now: int)
    requires i < |d.players|
    ensures var e := AfterPlay(d, i, cards, now);
      && (e.players[i].hand == [] ==> e.state == RoundEnd && e.roundEnded && e.roundScores.Some?)
      && (e.players[i].hand != [] ==>
            e.state == d.state && e.roundEnded == d.roundEnded &&
            e.currentPlayerIndex == (d.currentPlayerIndex + 1) % |d.players| &&
            e.currentPlayerIndex < |e.players|)
      && e.lastActivity == now
  {
  }

  // ---------------------------------------------------------------------------
  // Seats that went away
  // ---------------------------------------------------------------------------

  /** Twelve hours, in milliseconds: how long a human may stay disconnected. */
  const DisconnectTimeout: int := 43200000

  /**
   * A human who has been disconnected for longer than the timeout. A
   * `disconnectedAt` of zero counts as unset, as a falsy timestamp does.
   */
  predicate Stale(p: Player, now: int) {
    && !p.isBot && !p.connected
    && p.disconnectedAt.Some? && p.disconnectedAt.value != 0
    && now - p.disconnectedAt.value > DisconnectTimeout
  }

  /** The seats that a cleanup at time `now` keeps, in order. */
  function Kept(ps: seq<Player>, now: int): seq<Player> {
    Filter(ps, (p: Player) => !Stale(p, now))
  }

  /** The seats that a cleanup at time `now` sets out to remove, in order. */
  function StaleSeats(ps: seq<Player>, now: int): seq<Player> {
    Filter(ps, (p: Player) => Stale(p, now))
  }

  /**
   * One removal of the cleanup: the first seat equal to `x` leaves, and if it
   * held the host's id the first human still seated becomes host (the host
   * stays as it was when only robots remain).
   */
  function RemoveSeat(ps: seq<Player>, host: string, x: Player): (seq<Player>, string) {
    match IndexOfSeat(ps, x)
    case None => (ps, host)
    case Some(k) =>
      var qs := RemoveAt(ps, k);
      var h := if host == x.id && |qs| > 0 then
                 match IndexOfHuman(qs) case Some(j) => qs[j].id case None => host
               else host;
      (qs, h)
  }

  /** The removals of `xs`, one after the other. */
  function RemoveSeats(ps: seq<Player>, host: string, xs: seq<Player>): (seq<Player>, string)
    decreases |xs|
  {
    if xs == [] then (ps, host)
    else
      var (qs, h) := RemoveSeat(ps, host, xs[0]);
      RemoveSeats(qs, h, xs[1..])
  }

  /** The room after `cleanupDisconnectedPlayers` at time `now`. */
  function Cleaned(d: RoomState, now: int): RoomState {
    var (qs, h) := RemoveSeats(d.players, d.hostId, StaleSeats(d.players, now));
    d.(players := qs, hostId := h)
  }

  /** The stale seats are exactly the seats that are stale. */
  lemma StaleMembers(ps: seq<Player>, now: int)
    ensures forall p :: p in StaleSeats(ps, now) <==> p in ps && Stale(p, now)
  {
    FilterMembers(ps, (p: Player) => Stale(p, now));
  }

  /**
   * Cleanup keeps exactly the seats that are not stale, in their order: every
   * robot and every connected human stays.
   */
  lemma KeptMembers(ps: seq<Player>, now: int)
    ensures forall p :: p in Kept(ps, now) <==> p in ps && !Stale(p, now)
    ensures |Kept(ps, now)| <= |ps|
  {
    FilterMembers(ps, (p: Player) => !Stale(p, now));
  }

  /**
   * Removing the stale seats of `b`, one at a time and each at its first
   * occurrence, from a table whose first seats `a` are not stale leaves `a`
   * followed by the seats of `b` that are not stale.
   */
  lemma {:induction false} RemoveStale(a: seq<Player>, b: seq<Player>, host: string, now: int)
    requires forall p :: p in a ==> !Stale(p, now)
    ensures RemoveSeats(a + b, host, StaleSeats(b, now)).0 == a + Kept(b, now)
    decreases |b|
  {
    if b == [] {
      assert a + b == a;
    } else {
      var y, rest := b[0], b[1..];
      assert b == [y] + rest;
      if Stale(y, now) {
        assert StaleSeats(b, now) == [y] + StaleSeats(rest, now);
        assert Kept(b, now) == Kept(rest, now);
        RemoveFoundSeat(a, y, rest, host, StaleSeats(rest, now));
        RemoveStale(a, rest, RemoveSeat(a + b, host, y).1, now);
      } else {
        assert StaleSeats(b, now) == StaleSeats(rest, now);
        assert Kept(b, now) == [y] + Kept(rest, now);
        assert a + b == (a + [y]) + rest;
        RemoveStale(a + [y], rest, host, now);
      }
    }
  }

  /** Removing a seat found after seats that differ from it takes exactly that seat out. */
  lemma RemoveFoundSeat(a: seq<Player>, y: Player, rest: seq<Player>, host: string, xs: seq<Player>)
    requires y !in a
    ensures RemoveSeats(a + ([y] + rest), host, [y] + xs) ==
            RemoveSeats(a + rest, RemoveSeat(a + ([y] + rest), host, y).1, xs)
  {
    IndexOfSeatAfter(a, y, rest);
    assert a + [y] + rest == a + ([y] + rest);
    assert RemoveAt(a + ([y] + rest), |a|) == a + rest;
    assert ([y] + xs)[0] == y && ([y] + xs)[1..] == xs;
  }

  /** Cleanup removes exactly the stale seats and keeps the others in order. */
  lemma CleanedKeeps(d: RoomState, now: int)
    ensures Cleaned(d, now).players == Kept(d.players, now)
  {
    RemoveStale([], d.players, d.hostId, now);
    assert [] + d.players == d.players;
  }

  /** A host whose id no stale seat carries stays host. */
  lemma {:induction false} HostUntouched(ps: seq<Player>, host: string, xs: seq<Player>)
    requires forall x :: x in xs ==> x.id != host
    ensures RemoveSeats(ps, host, xs).1 == host
    decreases |xs|
  {
    if xs != [] {
      var (qs, h) := RemoveSeat(ps, host, xs[0]);
      assert h == host;
      assert forall x :: x in xs[1..] ==> x in xs;
      HostUntouched(qs, h, xs[1..]);
    }
  }

  /** The host is seated, or no human is left who could be. */
  predicate HostSeatedOrNoHuman(ps: seq<Player>, host: string) {
    (exists p :: p in ps && p.id == host) || forall p :: p in ps ==> p.isBot
  }

  lemma RemoveSeatKeepsHost(ps: seq<Player>, host: string, x: Player)
    requires HostSeatedOrNoHuman(ps, host)
    ensures var (qs, h) := RemoveSeat(ps, host, x); HostSeatedOrNoHuman(qs, h)
  {
    match IndexOfSeat(ps, x)
    case None =>
    case Some(k) =>
      var qs := RemoveAt(ps, k);
      assert forall p :: p in qs ==> p in ps by {
        forall p | p in qs ensures p in ps {
          var j :| 0 <= j < |qs| && qs[j] == p;
          if j < k { assert ps[j] == p; } else { assert ps[j + 1] == p; }
        }
      }
      if host == x.id && |qs| > 0 {
        match IndexOfHuman(qs)
        case Some(j) => assert qs[j] in qs;
        case None =>
      } else if exists p :: p in ps && p.id == host {
        var p :| p in ps && p.id == host;
        var m :| 0 <= m < |ps| && ps[m] == p;
        if host != x.id {
          assert m != k;
          assert (if m < k then qs[m] else qs[m - 1]) == p;
        }
      }
  }

  /**
   * When the host is seated before cleanup, afterwards the host is seated
   * again, unless no human is left to take over.
   */
  lemma {:induction false} RemoveSeatsKeepHost(ps: seq<Player>, host: string, xs: seq<Player>)
    requires HostSeatedOrNoHuman(ps, host)
    ensures var (qs, h) := RemoveSeats(ps, host, xs); HostSeatedOrNoHuman(qs, h)
    decreases |xs|
  {
    if xs != [] {
      RemoveSeatKeepsHost(ps, host, xs[0]);
      var (qs, h) := RemoveSeat(ps, host, xs[0]);
      RemoveSeatsKeepHost(qs, h, xs[1..]);
    }
  }

  /** A seat whose first occurrence is where it is found. */
  lemma {:induction false} IndexOfSeatAfter(a: seq<Player>, y: Player, b: seq<Player>)
    requires y !in a
    ensures IndexOfSeat(a + [y] + b, y) == Some(|a|)
  {
    if a != [] {
      assert (a + [y] + b)[1..] == a[1..] + [y] + b;
      IndexOfSeatAfter(a[1..], y, b);
    }
  }

  // ---------------------------------------------------------------------------
  // Connections and seats in the lobby
  // ---------------------------------------------------------------------------

  /** The first seat with id `actor` marked as connected again. */
  function Reconnected(ps: seq<Player>, actor: string): seq<Player> {
    match IndexOfId(ps, actor)
    case None => ps
    case Some(k) => ps[k := ps[k].(connected := true, disconnectedAt := None)]
  }

  /** The first seat with id `actor` marked as disconnected since `now`. */
  function Disconnected(ps: seq<Player>, actor: string, now: int): seq<Player> {
    match IndexOfId(ps, actor)
    case None => ps
    case Some(k) => ps[k := ps[k].(connected := false, disconnectedAt := Some(now))]
  }

  /** A reconnected player is not stale, so a cleanup right after keeps their seat. */
  lemma ReconnectedStays(ps: seq<Player>, actor: string, now: int)
    requires IndexOfId(ps, actor).Some?
    ensures Reconnected(ps, actor)[IndexOfId(ps, actor).value] in Kept(Reconnected(ps, actor), now)
  {
    var qs := Reconnected(ps, actor);
    KeptMembers(qs, now);
    assert qs[IndexOfId(ps, actor).value] in qs;
  }

  /** The seats after the first seat with id `actor` leaves. */
  function LeftSeats(ps: seq<Player>, actor: string): seq<Player> {
    match IndexOfId(ps, actor)
    case None => ps
    case Some(k) => RemoveAt(ps, k)
  }

  /** The host after `actor` leaves the lobby: the first seat takes over from a leaving host. */
  function HostAfterLeave(ps: seq<Player>, host: string, actor: string): string {
    var left := LeftSeats(ps, actor);
    if left != [] && host == actor then left[0].id else host
  }

  /**
   * With distinct ids, nobody with the leaver's id is left; and a seated host
   * stays seated, or hands over to a seated player, while anybody is left.
   */
  lemma LeaveKeepsHost(ps: seq<Player>, host: string, actor: string)
    requires IdsDistinct(ps) && exists p :: p in ps && p.id == host
    ensures forall p :: p in LeftSeats(ps, actor) ==> p.id != actor
    ensures LeftSeats(ps, actor) != [] ==>
      exists p :: p in LeftSeats(ps, actor) && p.id == HostAfterLeave(ps, host, actor)
  {
    var left := LeftSeats(ps, actor);
    match IndexOfId(ps, actor)
    case None =>
    case Some(k) =>
      forall p | p in left ensures p.id != actor {
        var j :| 0 <= j < |left| && left[j] == p;
        if j < k { assert ps[j] == p; } else { assert ps[j + 1] == p; }
      }
    if left != [] {
      if host == actor {
        assert left[0] in left;
      } else {
        var p :| p in ps && p.id == host;
        var m :| 0 <= m < |ps| && ps[m] == p;
        match IndexOfId(ps, actor)
        case None =>
        case Some(k) =>
          assert m != k;
          assert (if m < k then left[m] else left[m - 1]) == p;
      }
    }
  }

  /**
   * The room after the seat named `name` (ignoring case) is taken over by the
   * connection `actor`: the seat gets the new id and is connected, and the host
   * and the asken follow the seat from its old id to the new one.
   */
  function Reseated(d: RoomState, k: nat, actor: string, now: int): RoomState
    requires k < |d.players|
  {
    var oldId := d.players[k].id;
    d.(players := d.players[k := d.players[k].(id := actor, connected := true, disconnectedAt := None)],
       hostId := if d.hostId == oldId then actor else d.hostId,
       askenHolderId := if d.askenHolderId == Some(oldId) then Some(actor) else d.askenHolderId,
       lastActivity := now)
  }

  /**
   * Taking a seat back keeps its name, hand, score and kind, leaves every other
   * seat alone, and so keeps the names distinct.
   */
  lemma ReseatedKeepsSeat(d: RoomState, k: nat, actor: string, now: int)
    requires k < |d.players|
    ensures var e := Reseated(d, k, actor, now);
      && |e.players| == |d.players|
      && e.players[k] == d.players[k].(id := actor, connected := true, disconnectedAt := None)
      && (forall j :: 0 <= j < |d.players| && j != k ==> e.players[j] == d.players[j])
      && (NamesDistinct(d.players) ==> NamesDistinct(e.players))
  {
  }
}
