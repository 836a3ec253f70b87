/**
 * The computer opponents: which cards a bot considers, the sequences it
 * enumerates, and how each difficulty tier chooses among them.
 */
module Bot {
  import opened Options
  import opened Seqs
  import opened Cards
  import opened Legality

  datatype Difficulty = Dumb | Medium | Smart

  datatype Move = Pass | Play(cards: seq<Card>)

  /** The cards of the hand the bot considers: those that can take part in a sequence. */
  function Candidates(hand: seq<Card>, t: Tableau): seq<Card> {
    Filter(hand, c => CanBePartOfSequence(c, hand, t))
  }

  /** The candidates are the cards of the hand that can take part in a sequence, each once. */
  lemma CandidatesMembers(hand: seq<Card>, t: Tableau)
    ensures forall c :: c in Candidates(hand, t) <==> c in hand && CanBePartOfSequence(c, hand, t)
    ensures multiset(Candidates(hand, t)) <= multiset(hand)
  {
    FilterMembers(hand, c => CanBePartOfSequence(c, hand, t));
  }

  /** On a consistent table, a bot with candidates has one it may lay now. */
  lemma PlayableCandidate(hand: seq<Card>, t: Tableau)
    requires Valid(t) && Candidates(hand, t) != []
    ensures exists c :: c in Candidates(hand, t) && CanPlayCard(c, t)
  {
    CandidatesIffPlayable(hand, t);
    CandidatesMembers(hand, t);
    var c :| c in hand && CanPlayCard(c, t);
    PlayableIsPartOfSequence(c, hand, t);
    assert c in Candidates(hand, t);
  }

  /** On a consistent table a bot has candidates exactly when it holds a card it may lay now. */
  lemma CandidatesIffPlayable(hand: seq<Card>, t: Tableau)
    requires Valid(t)
    ensures Candidates(hand, t) != [] <==> exists c :: c in hand && CanPlayCard(c, t)
  {
    SequenceCardIffPlayableCard(hand, t);
    CandidatesMembers(hand, t);
    var cs := Candidates(hand, t);
    if cs != [] {
      assert cs[0] in cs;
    }
    if c :| c in hand && CanPlayCard(c, t) {
      PlayableIsPartOfSequence(c, hand, t);
      assert c in cs;
    }
  }

  /** A lone candidate is always a card that may be laid now. */
  lemma SingleCandidatePlayable(hand: seq<Card>, t: Tableau)
    requires Valid(t) && |Candidates(hand, t)| == 1
    ensures CanPlayCard(Candidates(hand, t)[0], t)
  {
    var cs := Candidates(hand, t);
    CandidatesIffPlayable(hand, t);
    CandidatesMembers(hand, t);
    var c :| c in hand && CanPlayCard(c, t);
    PlayableIsPartOfSequence(c, hand, t);
    assert c in cs;
  }

  /**
   * A candidate need not be playable now: with the spades opened at seven and
   * the eight and nine of spades in hand, the nine is a candidate (the eight
   * bridges the gap) but cannot be laid before the eight.
   */
  lemma CandidateNotYetPlayable()
    ensures var t := EmptyTableau.Put(Spades, Some(Run(7, 7)));
            var hand := [Card(Spades, 8), Card(Spades, 9)];
            Valid(t) && Candidates(hand, t) == hand && !CanPlayCard(hand[1], t) && CanPlayCard(hand[0], t)
  {
    var t := EmptyTableau.Put(Spades, Some(Run(7, 7)));
    var hand := [Card(Spades, 8), Card(Spades, 9)];
    assert Holds(hand, Spades, 8) by { assert hand[0] in hand; }
    assert HoldsAll(hand, Spades, 8, 8);
    assert Filter(hand[1..], c => CanBePartOfSequence(c, hand, t)) == [hand[1]] by {
      assert hand[1..] == [hand[1]];
      assert hand[1..][1..] == [];
    }
  }

  // ---------------------------------------------------------------------------
  // Enumerating sequences (medium and smart tiers)
  // ---------------------------------------------------------------------------

  /** The cards of one suit, in their original order. */
  function OfSuit(cs: seq<Card>, s: Suit): seq<Card> {
    Filter(cs, (c: Card) => c.suit == s)
  }

  lemma OfSuitMembers(cs: seq<Card>, s: Suit)
    ensures forall c :: c in OfSuit(cs, s) <==> c in cs && c.suit == s
    ensures multiset(OfSuit(cs, s)) <= multiset(cs)
  {
    FilterMembers(cs, (c: Card) => c.suit == s);
  }

  lemma OfSuitSnoc(cs: seq<Card>, c: Card, s: Suit)
    ensures OfSuit(cs + [c], s) == OfSuit(cs, s) + (if c.suit == s then [c] else [])
  {
    FilterAppend(cs, [c], (d: Card) => d.suit == s);
    assert [c][1..] == [];
  }

  /** A card that may be laid now is, on its own, a sequence. */
  lemma SingleCardOrder(c: Card, t: Tableau)
    requires CanPlayCard(c, t)
    ensures ValidSequence(t, [c]) && Solvable(t, multiset([c]))
    ensures !AnyPlayed(t) ==> [c] == [SevenOfSpades]
  {
    assert [c][1..] == [];
    assert ValidSequence(Apply(t, c), []);
    assert ValidSequence(t, [c]);
  }

  /** The suits of the cards, each once, in order of first appearance. */
  function SuitsSeen(cs: seq<Card>): seq<Suit> {
    if cs == [] then []
    else
      var order := SuitsSeen(cs[..|cs| - 1]);
      var s := cs[|cs| - 1].suit;
      if s in order then order else order + [s]
  }

  lemma SuitsSeenSnoc(cs: seq<Card>, c: Card)
    ensures SuitsSeen(cs + [c]) == if c.suit in SuitsSeen(cs) then SuitsSeen(cs) else SuitsSeen(cs) + [c.suit]
  {
    assert (cs + [c])[..|cs|] == cs;
  }

  /** A suit not yet seen has no cards so far. */
  lemma {:induction false} OfSuitUnseen(cs: seq<Card>, s: Suit)
    requires s !in SuitsSeen(cs)
    ensures OfSuit(cs, s) == []
  {
    if cs != [] {
      var init := cs[..|cs| - 1];
      var c := cs[|cs| - 1];
      assert cs == init + [c];
      OfSuitUnseen(init, s);
      OfSuitSnoc(init, c, s);
    }
  }

  /** The suit order lists exactly the suits of the cards, none twice. */
  lemma {:induction false} SuitsSeenMembers(cs: seq<Card>)
    ensures forall s :: s in SuitsSeen(cs) <==> exists c :: c in cs && c.suit == s
    ensures forall i, j :: 0 <= i < j < |SuitsSeen(cs)| ==> SuitsSeen(cs)[i] != SuitsSeen(cs)[j]
  {
    if cs != [] {
      var init := cs[..|cs| - 1];
      SuitsSeenMembers(init);
      assert cs == init + [cs[|cs| - 1]];
      forall s | exists c :: c in cs && c.suit == s
        ensures s in SuitsSeen(cs)
      {
        var c :| c in cs && c.suit == s;
        if c != cs[|cs| - 1] {
          assert c in init;
        }
      }
    }
  }

  /** The entry a slice contributes to the enumeration: its order, when it has one. */
  function Found(o: Option<seq<Card>>): seq<seq<Card>> {
    if o.Some? && |o.value| > 0 then [o.value] else []
  }

  /** The entries of the slices `cards[i..j]` for `i < j <= n`, by increasing `j`. */
  function SlicesFrom(cards: seq<Card>, t: Tableau, i: nat, n: nat): seq<seq<Card>>
    requires i <= n <= |cards|
    decreases n - i
  {
    if n == i then [] else SlicesFrom(cards, t, i, n - 1) + Found(GreedyOrder(cards[i..n], t))
  }

  /** The entries of the slices that start before `m`, by start and then by end. */
  function SlicesBefore(cards: seq<Card>, t: Tableau, m: nat): seq<seq<Card>>
    requires m <= |cards|
  {
    if m == 0 then [] else SlicesBefore(cards, t, m - 1) + SlicesFrom(cards, t, m - 1, |cards|)
  }

  /** The entries of all contiguous slices of `cards`. */
  function Slices(cards: seq<Card>, t: Tableau): seq<seq<Card>> {
    SlicesBefore(cards, t, |cards|)
  }

  /** `s` is a non-empty order of the slice `cards[i..j]`. */
  predicate IsSliceOrder(cards: seq<Card>, t: Tableau, i: int, j: int, s: seq<Card>) {
    0 <= i < j <= |cards| && s != [] && GreedyOrder(cards[i..j], t) == Some(s)
  }

  lemma {:induction false} SlicesFromMembers(cards: seq<Card>, t: Tableau, i: nat, n: nat)
    requires i <= n <= |cards|
    ensures forall s :: s in SlicesFrom(cards, t, i, n) <==> exists j :: i < j <= n && IsSliceOrder(cards, t, i, j, s)
    decreases n - i
  {
    if n > i {
      SlicesFromMembers(cards, t, i, n - 1);
      forall s ensures s in Found(GreedyOrder(cards[i..n], t)) <==> IsSliceOrder(cards, t, i, n, s) {
      }
    }
  }

  lemma {:induction false} SlicesBeforeMembers(cards: seq<Card>, t: Tableau, m: nat)
    requires m <= |cards|
    ensures forall s :: s in SlicesBefore(cards, t, m) <==> exists i, j :: 0 <= i < m && IsSliceOrder(cards, t, i, j, s)
  {
    if m > 0 {
      SlicesBeforeMembers(cards, t, m - 1);
      SlicesFromMembers(cards, t, m - 1, |cards|);
      forall s ensures s in SlicesBefore(cards, t, m) <==> exists i, j :: 0 <= i < m && IsSliceOrder(cards, t, i, j, s) {
        if exists i, j :: 0 <= i < m && IsSliceOrder(cards, t, i, j, s) {
          var i, j :| 0 <= i < m && IsSliceOrder(cards, t, i, j, s);
          if i < m - 1 {
            assert s in SlicesBefore(cards, t, m - 1);
          } else {
            assert s in SlicesFrom(cards, t, m - 1, |cards|);
          }
        }
        if s in SlicesBefore(cards, t, m - 1) {
          var i, j :| 0 <= i < m - 1 && IsSliceOrder(cards, t, i, j, s);
          assert 0 <= i < m && IsSliceOrder(cards, t, i, j, s);
        }
        if s in SlicesFrom(cards, t, m - 1, |cards|) {
          var j :| m - 1 < j <= |cards| && IsSliceOrder(cards, t, m - 1, j, s);
          assert 0 <= m - 1 < m && IsSliceOrder(cards, t, m - 1, j, s);
        }
      }
    }
  }

  /** The slice entries are exactly the non-empty orders of the contiguous slices. */
  lemma SlicesMembers(cards: seq<Card>, t: Tableau)
    ensures forall s :: s in Slices(cards, t) <==> exists i, j :: IsSliceOrder(cards, t, i, j, s)
  {
    SlicesBeforeMembers(cards, t, |cards|);
  }

  /** The slice entries of each listed suit's cards, sorted by rank, suit after suit. */
  function SuitSlices(cands: seq<Card>, t: Tableau, order: seq<Suit>): seq<seq<Card>> {
    if order == [] then []
    else SuitSlices(cands, t, order[..|order| - 1]) + Slices(SortHand(OfSuit(cands, order[|order| - 1])), t)
  }

  /** All candidates at once, when there are several and they can be laid as more than one card. */
  function Together(cands: seq<Card>, t: Tableau): seq<seq<Card>> {
    if |cands| > 1 then
      var o := GreedyOrder(cands, t);
      if o.Some? && |o.value| > 1 then [o.value] else []
    else []
  }

  /** The sequences the medium and smart tiers weigh, in the order they weigh them. */
  function Enumeration(cands: seq<Card>, t: Tableau): seq<seq<Card>> {
    SuitSlices(cands, t, SuitsSeen(cands)) + Together(cands, t)
  }

  /** `s` is an entry of the rank-sorted candidates of suit `su`. */
  predicate IsSuitEntry(cands: seq<Card>, t: Tableau, su: Suit, s: seq<Card>) {
    s in Slices(SortHand(OfSuit(cands, su)), t)
  }

  lemma {:induction false} SuitSlicesMembers(cands: seq<Card>, t: Tableau, order: seq<Suit>)
    ensures forall s :: s in SuitSlices(cands, t, order) <==> exists su :: su in order && IsSuitEntry(cands, t, su, s)
  {
    if order != [] {
      var init := order[..|order| - 1];
      var last := order[|order| - 1];
      SuitSlicesMembers(cands, t, init);
      assert order == init + [last];
      forall s ensures s in SuitSlices(cands, t, order) <==> exists su :: su in order && IsSuitEntry(cands, t, su, s) {
        InsertedSuit(cands, t, init, last, s);
      }
    }
  }

  lemma InsertedSuit(cands: seq<Card>, t: Tableau, init: seq<Suit>, last: Suit, s: seq<Card>)
    ensures (exists su :: su in init + [last] && IsSuitEntry(cands, t, su, s)) <==>
      (exists su :: su in init && IsSuitEntry(cands, t, su, s)) || IsSuitEntry(cands, t, last, s)
  {
    if exists su :: su in init + [last] && IsSuitEntry(cands, t, su, s) {
      var su :| su in init + [last] && IsSuitEntry(cands, t, su, s);
      if su != last {
        assert su in init;
      }
    }
    if exists su :: su in init && IsSuitEntry(cands, t, su, s) {
      var su :| su in init && IsSuitEntry(cands, t, su, s);
      assert su in init + [last];
    }
  }

  /**
   * A sequence is weighed exactly when it is a non-empty order of a contiguous
   * slice of one suit's rank-sorted candidates, or the order of all candidates
   * together when there are several and it lays more than one card.
   */
  lemma EnumerationMembers(cands: seq<Card>, t: Tableau)
    ensures forall s :: s in Enumeration(cands, t) <==>
      (exists su :: su in SuitsSeen(cands) && IsSuitEntry(cands, t, su, s))
      || (|cands| > 1 && GreedyOrder(cands, t) == Some(s) && |s| > 1)
  {
    SuitSlicesMembers(cands, t, SuitsSeen(cands));
  }

  /** Every slice entry is a legal move made of the slice's cards. */
  lemma SlicesLegal(cards: seq<Card>, t: Tableau)
    ensures forall s :: s in Slices(cards, t) ==> s != [] && ValidSequence(t, s) && multiset(s) <= multiset(cards)
  {
    SlicesMembers(cards, t);
    forall s | s in Slices(cards, t) ensures s != [] && ValidSequence(t, s) && multiset(s) <= multiset(cards) {
      var i, j :| IsSliceOrder(cards, t, i, j, s);
      GreedyOrderSound(cards[i..j], t);
      SliceSubMultiset(cards, i, j);
    }
  }

  /** A card that may be laid now makes some slice entry. */
  lemma SlicesNonEmpty(cards: seq<Card>, t: Tableau)
    ensures (exists c :: c in cards && CanPlayCard(c, t)) ==> Slices(cards, t) != []
  {
    if exists c :: c in cards && CanPlayCard(c, t) {
      var c :| c in cards && CanPlayCard(c, t);
      var p :| 0 <= p < |cards| && cards[p] == c;
      SlicesMembers(cards, t);
      GreedyOrderSingle(c, t);
      assert cards[p..p + 1] == [c];
      assert IsSliceOrder(cards, t, p, p + 1, [c]);
      assert [c] in Slices(cards, t);
    }
  }

  /** Every sequence weighed is a non-empty legal move drawn from the candidates. */
  lemma EnumerationLegal(cands: seq<Card>, t: Tableau)
    ensures forall s :: s in Enumeration(cands, t) ==> s != [] && ValidSequence(t, s) && multiset(s) <= multiset(cands)
  {
    EnumerationMembers(cands, t);
    forall s | s in Enumeration(cands, t) ensures s != [] && ValidSequence(t, s) && multiset(s) <= multiset(cands) {
      if exists su :: su in SuitsSeen(cands) && IsSuitEntry(cands, t, su, s) {
        var su :| su in SuitsSeen(cands) && IsSuitEntry(cands, t, su, s);
        var cards := SortHand(OfSuit(cands, su));
        SlicesMembers(cards, t);
        SlicesLegal(cards, t);
        SortHandSorts(OfSuit(cands, su));
        OfSuitMembers(cands, su);
      } else {
        GreedyOrderSound(cands, t);
      }
    }
  }

  /** The bot weighs some sequence whenever a candidate may be laid now. */
  lemma EnumerationNonEmpty(cands: seq<Card>, t: Tableau)
    ensures (exists c :: c in cands && CanPlayCard(c, t)) ==> Enumeration(cands, t) != []
  {
    if exists c :: c in cands && CanPlayCard(c, t) {
      var c :| c in cands && CanPlayCard(c, t);
      var group := OfSuit(cands, c.suit);
      var cards := SortHand(group);
      OfSuitMembers(cands, c.suit);
      SortHandSorts(group);
      assert c in multiset(cards);
      assert c in cards;
      SlicesNonEmpty(cards, t);
      var s := Slices(cards, t)[0];
      SuitsSeenMembers(cands);
      SuitSlicesMembers(cands, t, SuitsSeen(cands));
      assert IsSuitEntry(cands, t, c.suit, s);
      assert s in SuitSlices(cands, t, SuitsSeen(cands));
    }
  }

  /** The candidates grouped by suit, suits in order of first appearance. */
  method GroupBySuit(cands: seq<Card>) returns (order: seq<Suit>, groups: map<Suit, seq<Card>>)
    ensures order == SuitsSeen(cands)
    ensures forall s :: s in groups <==> s in order
    ensures forall s :: s in groups ==> groups[s] == OfSuit(cands, s)
    ensures forall c :: c in cands ==> c.suit in order
  {
    order := [];
    groups := map[];
    for k := 0 to |cands|
      invariant order == SuitsSeen(cands[..k])
      invariant forall s :: s in groups <==> s in order
      invariant forall s :: s in groups ==> groups[s] == OfSuit(cands[..k], s)
    {
      var card := cands[k];
      assert cands[..k + 1] == cands[..k] + [card];
      forall s
        ensures OfSuit(cands[..k + 1], s) == OfSuit(cands[..k], s) + (if card.suit == s then [card] else [])
      {
        OfSuitSnoc(cands[..k], card, s);
      }
      SuitsSeenSnoc(cands[..k], card);
      if card.suit !in groups {
        OfSuitUnseen(cands[..k], card.suit);
        groups := groups[card.suit := []];
        order := order + [card.suit];
      }
      groups := groups[card.suit := groups[card.suit] + [card]];
    }
    assert cands[..|cands|] == cands;
    SuitsSeenMembers(cands);
  }

  /**
   * The sequences found among the contiguous slices of one suit's cards (rank
   * order): every slice that can be laid in some order, in that order, by
   * start and then by end. On a consistent table some slice is found
   * whenever one of the cards may be laid now.
   */
  /** The inner loop of `getBotMove`'s slicing: the slices starting at `i`, by increasing end. */
  method SlicesStartingAt(suitCards: seq<Card>, t: Tableau, i: nat) returns (found: seq<seq<Card>>)
    requires i < |suitCards|
    ensures found == SlicesFrom(suitCards, t, i, |suitCards|)
  {
    found := [];
    for j := i to |suitCards|
      invariant found == SlicesFrom(suitCards, t, i, j)
    {
      var testCards := suitCards[i..j + 1];
      var ordered := GetPlayableOrder(testCards, t);
      assert SlicesFrom(suitCards, t, i, j + 1) == found + Found(ordered);
      if ordered.Some? && |ordered.value| > 0 {
        found := found + [ordered.value];
      }
    }
  }

  method SliceSequences(suitCards: seq<Card>, t: Tableau) returns (found: seq<seq<Card>>)
    ensures found == Slices(suitCards, t)
    ensures forall s :: s in found ==> s != [] && ValidSequence(t, s) && multiset(s) <= multiset(suitCards)
    ensures (exists c :: c in suitCards && CanPlayCard(c, t)) ==> found != []
  {
    found := [];
    for i := 0 to |suitCards|
      invariant found == SlicesBefore(suitCards, t, i)
    {
      var more := SlicesStartingAt(suitCards, t, i);
      found := found + more;
    }
    SlicesLegal(suitCards, t);
    SlicesNonEmpty(suitCards, t);
  }

  /** The per-suit part of the enumeration: the slices of each suit's rank-sorted group, suit by suit. */
  method SlicesBySuit(cands: seq<Card>, t: Tableau, order: seq<Suit>, groups: map<Suit, seq<Card>>)
      returns (all: seq<seq<Card>>)
    requires forall s :: s in order ==> s in groups && groups[s] == OfSuit(cands, s)
    ensures all == SuitSlices(cands, t, order)
  {
    all := [];
    for n := 0 to |order|
      invariant all == SuitSlices(cands, t, order[..n])
    {
      // sorting by key within one suit is sorting by rank
      var suitCards := SortHand(groups[order[n]]);
      var found := SliceSequences(suitCards, t);
      assert order[..n + 1][..n] == order[..n];
      all := all + found;
    }
    assert order[..|order|] == order;
  }

  /**
   * Every sequence a bot weighs, as `Enumeration` lists them: for each suit
   * (in order of first appearance among the candidates), each contiguous
   * rank-sorted slice that can be laid in some order, then all candidates
   * together when they form a sequence of more than one card. Each entry is a
   * legal move drawn from the candidates, and on a consistent table the list
   * is empty only when no candidate may be laid now.
   */
  method EnumerateSequences(cands: seq<Card>, t: Tableau) returns (all: seq<seq<Card>>)
    ensures all == Enumeration(cands, t)
    ensures forall s :: s in all ==> s != [] && ValidSequence(t, s) && multiset(s) <= multiset(cands)
    ensures (exists c :: c in cands && CanPlayCard(c, t)) ==> all != []
  {
    var order, groups := GroupBySuit(cands);
    all := SlicesBySuit(cands, t, order, groups);
    if |cands| > 1 {
      var ordered := GetPlayableOrder(cands, t);
      if ordered.Some? && |ordered.value| > 1 {
        all := all + [ordered.value];
      }
    }
    EnumerationLegal(cands, t);
    EnumerationNonEmpty(cands, t);
  }

  // ---------------------------------------------------------------------------
  // Choosing among the sequences
  // ---------------------------------------------------------------------------

  /** The medium tier's weight: a hundred per card, plus the cards' penalty points. */
  function MediumScore(s: seq<Card>): nat {
    |s| * 100 + HandPoints(s)
  }

  /** The first sequence of greatest medium weight. */
  method PickMedium(options: seq<seq<Card>>) returns (k: nat)
    requires options != []
    ensures k < |options|
    ensures forall i :: 0 <= i < |options| ==> MediumScore(options[i]) <= MediumScore(options[k])
    ensures forall i :: 0 <= i < k ==> MediumScore(options[i]) < MediumScore(options[k])
  {
    var bestScore := -1;
    k := 0;
    for i := 0 to |options|
      invariant k < |options|
      invariant i == 0 ==> bestScore == -1 && k == 0
      invariant i > 0 ==> k < i && bestScore == MediumScore(options[k])
      invariant forall j :: 0 <= j < i ==> MediumScore(options[j]) <= bestScore
      invariant forall j :: 0 <= j < k ==> MediumScore(options[j]) < bestScore
    {
      var points := HandPoints(options[i]);
      var score := |options[i]| * 100 + points;
      if score > bestScore {
        bestScore := score;
        k := i;
      }
    }
  }

  /** The hand left once the sequence is laid. */
  function Remaining(hand: seq<Card>, s: seq<Card>): seq<Card> {
    Filter(hand, c => c !in s)
  }

  /**
   * The smart tier's adjustment for one laid card: forty for an ace or a king
   * (it closes its suit's chain), minus twenty for a six or an eight when the
   * cards left still hold both a lower and a higher card of that suit.
   */
  function EndBonus(c: Card, rest: seq<Card>): int {
    var ends := if c.rank == 1 || c.rank == 13 then 40 else 0;
    var blocks := (c.rank == 6 || c.rank == 8)
      && (exists d :: d in rest && d.suit == c.suit && d.rank < c.rank)
      && (exists d :: d in rest && d.suit == c.suit && d.rank > c.rank);
    ends - (if blocks then 20 else 0)
  }

  /** Twenty-five for a laid card whose suit no longer appears in the rest of the hand. */
  function ClearBonus(c: Card, rest: seq<Card>): nat {
    if forall d :: d in rest ==> d.suit != c.suit then 25 else 0
  }

  function SumEndBonus(s: seq<Card>, rest: seq<Card>): int {
    if s == [] then 0 else SumEndBonus(s[..|s| - 1], rest) + EndBonus(s[|s| - 1], rest)
  }

  function SumClearBonus(s: seq<Card>, rest: seq<Card>): nat {
    if s == [] then 0 else SumClearBonus(s[..|s| - 1], rest) + ClearBonus(s[|s| - 1], rest)
  }

  /**
   * The smart tier's weight of laying `s` from `hand` on `t`: twice its
   * points, fifty per card, thirty per candidate the rest of the hand keeps on
   * the table that results, and the per-card end and suit-clearing bonuses.
   */
  function SmartScore(s: seq<Card>, hand: seq<Card>, t: Tableau): int {
    var rest := Remaining(hand, s);
    2 * HandPoints(s) + 50 * |s| + 30 * |Candidates(rest, ApplyAll(t, s))|
      + SumEndBonus(s, rest) + SumClearBonus(s, rest)
  }

  /** Laying a card that empties its suit from the hand earns the suit-clearing bonus. */
  lemma ClearBonusWhenSuitGone(s: seq<Card>, hand: seq<Card>, c: Card)
    requires c in s && forall d :: d in hand && d.suit == c.suit ==> d in s
    ensures ClearBonus(c, Remaining(hand, s)) == 25
  {
    FilterMembers(hand, d => d !in s);
  }

  /** The smart weight of one sequence, computed as the server does, step by step. */
  method SmartScoreOf(s: seq<Card>, hand: seq<Card>, t: Tableau) returns (score: int)
    ensures score == SmartScore(s, hand, t)
  {
    score := 0;
    var points := HandPoints(s);
    score := score + points * 2;
    score := score + |s| * 50;

    var after := LayOnTable(t, s);
    var rest := Remaining(hand, s);
    var future := Candidates(rest, after);
    score := score + |future| * 30;
    var ends := EndsOf(s, rest);
    var clears := ClearsOf(s, rest);
    score := score + ends + clears;
  }

  /** The end and blocking adjustments of the laid cards, card by card. */
  method EndsOf(s: seq<Card>, rest: seq<Card>) returns (ends: int)
    ensures ends == SumEndBonus(s, rest)
  {
    ends := 0;
    for i := 0 to |s|
      invariant ends == SumEndBonus(s[..i], rest)
    {
      assert s[..i + 1][..i] == s[..i];
      var card := s[i];
      if card.rank == 1 || card.rank == 13 {
        ends := ends + 40;
      }
      if card.rank == 6 || card.rank == 8 {
        var hasLower := exists d :: d in rest && d.suit == card.suit && d.rank < card.rank;
        var hasHigher := exists d :: d in rest && d.suit == card.suit && d.rank > card.rank;
        if hasLower && hasHigher {
          ends := ends - 20;
        }
      }
    }
    assert s[..|s|] == s;
  }

  /** The suit-clearing bonuses, from a count of the suits left in the hand. */
  method ClearsOf(s: seq<Card>, rest: seq<Card>) returns (clears: nat)
    ensures clears == SumClearBonus(s, rest)
  {
    var suitCounts: map<Suit, nat> := map[];
    for i := 0 to |rest|
      invariant forall su :: su in suitCounts <==> exists d :: d in rest[..i] && d.suit == su
      invariant forall su :: su in suitCounts ==> suitCounts[su] > 0
    {
      assert rest[..i + 1] == rest[..i] + [rest[i]];
      var su := rest[i].suit;
      var before := if su in suitCounts then suitCounts[su] else 0;
      suitCounts := suitCounts[su := before + 1];
    }
    assert rest[..|rest|] == rest;

    clears := 0;
    for i := 0 to |s|
      invariant clears == SumClearBonus(s[..i], rest)
    {
      assert s[..i + 1][..i] == s[..i];
      var card := s[i];
      if card.suit !in suitCounts || suitCounts[card.suit] == 0 {
        clears := clears + 25;
      }
    }
    assert s[..|s|] == s;
  }

  /** The first sequence of greatest smart weight. */
  method PickSmart(options: seq<seq<Card>>, hand: seq<Card>, t: Tableau) returns (k: nat)
    requires options != []
    ensures k < |options|
    ensures forall i :: 0 <= i < |options| ==> SmartScore(options[i], hand, t) <= SmartScore(options[k], hand, t)
    ensures forall i :: 0 <= i < k ==> SmartScore(options[i], hand, t) < SmartScore(options[k], hand, t)
  {
    var bestScore: Option<int> := None;
    ghost var scores: seq<int> := [];
    k := 0;
    for i := 0 to |options|
      invariant |scores| == i && k < |options|
      invariant forall j {:trigger SmartScore(options[j], hand, t)} :: 0 <= j < i ==> scores[j] == SmartScore(options[j], hand, t)
      invariant i == 0 ==> bestScore == None && k == 0
      invariant i > 0 ==> k < i && bestScore == Some(scores[k])
      invariant forall j :: 0 <= j < i ==> scores[j] <= scores[k]
      invariant forall j :: 0 <= j < k ==> scores[j] < scores[k]
    {
      var score := SmartScoreOf(options[i], hand, t);
      scores := scores + [score];
      if bestScore.None? || score > bestScore.value {
        bestScore := Some(score);
        k := i;
      }
    }
  }

  // ---------------------------------------------------------------------------
  // The move
  // ---------------------------------------------------------------------------

  /** The move an order stands for: lay it, or pass when there is none. */
  function MoveOf(o: Option<seq<Card>>): Move {
    match o
    case None => Pass
    case Some(cs) => Play(cs)
  }

  /** The weight the medium or the smart tier gives a sequence. */
  function Weight(difficulty: Difficulty, s: seq<Card>, hand: seq<Card>, t: Tableau): int {
    if difficulty == Medium then MediumScore(s) else SmartScore(s, hand, t)
  }

  /** Entry `k` is the first of greatest weight. */
  predicate FirstBest(options: seq<seq<Card>>, k: int, difficulty: Difficulty, hand: seq<Card>, t: Tableau) {
    && 0 <= k < |options|
    && (forall i :: 0 <= i < |options| ==> Weight(difficulty, options[i], hand, t) <= Weight(difficulty, options[k], hand, t))
    && (forall i :: 0 <= i < k ==> Weight(difficulty, options[i], hand, t) < Weight(difficulty, options[k], hand, t))
  }

  /**
   * The move `getBotMove` makes: pass without candidates; the dumb tier lays
   * the drawn candidate if it may be laid now; the other tiers lay the first
   * weighed sequence of greatest weight, or, when none is weighed, the first
   * candidate if it may be laid now.
   */
  ghost predicate IsBotMove(m: Move, hand: seq<Card>, t: Tableau, difficulty: Difficulty, pick: nat) {
    var cands := Candidates(hand, t);
    if cands == [] then m == Pass
    else if difficulty == Dumb then m == MoveOf(GreedyOrder([cands[pick % |cands|]], t))
    else
      var options := Enumeration(cands, t);
      if options == [] then m == MoveOf(GreedyOrder([cands[0]], t))
      else exists k :: FirstBest(options, k, difficulty, hand, t) && m == Play(options[k])
  }

  /** The first entry of greatest weight is unique, so the move is determined by its inputs. */
  lemma BotMoveUnique(m1: Move, m2: Move, hand: seq<Card>, t: Tableau, difficulty: Difficulty, pick: nat)
    requires IsBotMove(m1, hand, t, difficulty, pick) && IsBotMove(m2, hand, t, difficulty, pick)
    ensures m1 == m2
  {
    var cands := Candidates(hand, t);
    if cands != [] && difficulty != Dumb && Enumeration(cands, t) != [] {
      var options := Enumeration(cands, t);
      var k1 :| FirstBest(options, k1, difficulty, hand, t) && m1 == Play(options[k1]);
      var k2 :| FirstBest(options, k2, difficulty, hand, t) && m2 == Play(options[k2]);
      FirstBestUnique(options, k1, k2, difficulty, hand, t);
    }
  }

  lemma FirstBestUnique(options: seq<seq<Card>>, k1: int, k2: int, difficulty: Difficulty, hand: seq<Card>, t: Tableau)
    requires FirstBest(options, k1, difficulty, hand, t) && FirstBest(options, k2, difficulty, hand, t)
    ensures k1 == k2
  {
    var w1 := Weight(difficulty, options[k1], hand, t);
    var w2 := Weight(difficulty, options[k2], hand, t);
  }

  /**
   * When no sequence is weighed, the fallback to the first candidate never
   * lays it: a candidate that may be laid now is itself a weighed slice.
   */
  lemma FallbackPasses(hand: seq<Card>, t: Tableau)
    requires Candidates(hand, t) != [] && Enumeration(Candidates(hand, t), t) == []
    ensures GreedyOrder([Candidates(hand, t)[0]], t) == None
  {
    var cands := Candidates(hand, t);
    EnumerationNonEmpty(cands, t);
    GreedyOrderSingle(cands[0], t);
    assert cands[0] in cands;
  }

  /** The medium or the smart tier's choice: the first entry of greatest weight. */
  method PickBest(options: seq<seq<Card>>, difficulty: Difficulty, hand: seq<Card>, t: Tableau) returns (k: nat)
    requires options != [] && difficulty != Dumb
    ensures FirstBest(options, k, difficulty, hand, t)
  {
    if difficulty == Medium {
      k := PickMedium(options);
    } else {
      k := PickSmart(options, hand, t);
    }
  }

  /**
   * A bot's move. `pick` stands for the random draw of the dumb tier (it takes
   * candidate `pick % |candidates|`). `options` is the enumeration the medium
   * and smart tiers chose from (empty for the dumb tier).
   */
  method GetBotMove(hand: seq<Card>, t: Tableau, difficulty: Difficulty, pick: nat)
    returns (m: Move, ghost options: seq<seq<Card>>)
    ensures IsBotMove(m, hand, t, difficulty, pick)
    ensures m.Play? ==> m.cards != [] && ValidSequence(t, m.cards) && multiset(m.cards) <= multiset(hand)
    ensures Candidates(hand, t) == [] ==> m == Pass
    ensures difficulty == Dumb && m.Play? ==>
      m.cards == [Candidates(hand, t)[pick % |Candidates(hand, t)|]]
    ensures difficulty == Dumb && Candidates(hand, t) != [] ==>
      (m.Play? <==> CanPlayCard(Candidates(hand, t)[pick % |Candidates(hand, t)|], t))
    ensures difficulty != Dumb && Valid(t) ==> (m.Pass? <==> Candidates(hand, t) == [])
    ensures options == if difficulty == Dumb || Candidates(hand, t) == [] then [] else Enumeration(Candidates(hand, t), t)
    ensures difficulty != Dumb && Valid(t) && Candidates(hand, t) != [] ==> options != []
    ensures forall s :: s in options ==> s != [] && ValidSequence(t, s) && multiset(s) <= multiset(hand)
    ensures difficulty != Dumb && options != [] ==>
      m.Play? && m.cards in options && forall s :: s in options ==> Weight(difficulty, s, hand, t) <= Weight(difficulty, m.cards, hand, t)
  {
    options := [];
    var cands := Candidates(hand, t);
    CandidatesMembers(hand, t);
    if |cands| == 0 {
      return Pass, options;
    }
    if difficulty == Dumb {
      var card := cands[pick % |cands|];
      var ordered := GetPlayableOrder([card], t);
      GreedyOrderSingle(card, t);
      return MoveOf(ordered), options;
    }
    m, options := WeighedMove(hand, t, difficulty, pick);
  }

  /** The medium and smart tiers: weigh every enumerated sequence and play the first heaviest. */
  method WeighedMove(hand: seq<Card>, t: Tableau, difficulty: Difficulty, pick: nat)
    returns (m: Move, ghost options: seq<seq<Card>>)
    requires difficulty != Dumb && Candidates(hand, t) != []
    ensures IsBotMove(m, hand, t, difficulty, pick)
    ensures m.Play? ==> m.cards != [] && ValidSequence(t, m.cards) && multiset(m.cards) <= multiset(hand)
    ensures Valid(t) ==> m.Play? && options != []
    ensures options == Enumeration(Candidates(hand, t), t)
    ensures forall s :: s in options ==> s != [] && ValidSequence(t, s) && multiset(s) <= multiset(hand)
    ensures options != [] ==>
      m.Play? && m.cards in options && forall s :: s in options ==> Weight(difficulty, s, hand, t) <= Weight(difficulty, m.cards, hand, t)
  {
    var cands := Candidates(hand, t);
    CandidatesMembers(hand, t);
    var all := EnumerateSequences(cands, t);
    options := all;
    if Valid(t) {
      PlayableCandidate(hand, t);
    }
    if |all| == 0 {
      // never lays a card: see FallbackPasses
      var ordered := GetPlayableOrder([cands[0]], t);
      return MoveOf(ordered), options;
    }
    var k := PickBest(all, difficulty, hand, t);
    assert all[k] in all;
    return Play(all[k]), options;
  }

  /** A one-card order is that card, and it is playable. */
  lemma SingletonOrder(r: seq<Card>, c: Card, t: Tableau)
    requires multiset(r) == multiset([c]) && ValidSequence(t, r)
    ensures r == [c] && CanPlayCard(c, t)
  {
    assert |r| == |multiset(r)| == 1;
    assert r[0] in multiset(r);
    assert r == [r[0]];
  }

  /** The dumb tier can pass while holding a card it could lay. */
  lemma DumbTierMayPassWhilePlayable()
    ensures var t := EmptyTableau.Put(Spades, Some(Run(7, 7)));
            var hand := [Card(Spades, 8), Card(Spades, 9)];
            var cs := Candidates(hand, t);
            |cs| == 2 && !CanPlayCard(cs[1 % |cs|], t) && exists c :: c in hand && CanPlayCard(c, t)
  {
    CandidateNotYetPlayable();
    var hand := [Card(Spades, 8), Card(Spades, 9)];
    assert hand[0] in hand;
  }
}
