/**
 * The deck and card model of Asken: four suits of thirteen ranks, card ids of
 * the form "suit-rank", the order a dealt hand is sorted in and the penalty
 * points a card is worth when it is still in a hand at the end of a round.
 */
module Cards {
  import opened Options

  datatype Suit = Spades | Hearts | Clubs | Diamonds

  /** The suits in the order the deck is built and a hand is sorted. */
  const Suits: seq<Suit> := [Spades, Hearts, Clubs, Diamonds]

  /** Place of a suit in `Suits`. */
  function SuitOrder(s: Suit): (k: nat)
    ensures k < 4 && Suits[k] == s
  {
    match s
    case Spades => 0
    case Hearts => 1
    case Clubs => 2
    case Diamonds => 3
  }

  /** Ranks run from 1 (ace) to 13 (king). */
  type Rank = r: int | 1 <= r <= 13 witness 7

  /** A card; its id is derived from suit and rank, so equal ids mean equal cards. */
  datatype Card = Card(suit: Suit, rank: Rank)

  /** The fixed opening card of every round. */
  const SevenOfSpades: Card := Card(Spades, 7)

  // ---------------------------------------------------------------------------
  // Card ids
  // ---------------------------------------------------------------------------

  function SuitName(s: Suit): string {
    match s
    case Spades => "spades"
    case Hearts => "hearts"
    case Clubs => "clubs"
    case Diamonds => "diamonds"
  }

  function Digit(d: int): char
    requires 0 <= d <= 9
  {
    ('0' as int + d) as char
  }

  /** Decimal text of a rank, as a template string prints it. */
  function RankText(r: Rank): string {
    if r < 10 then [Digit(r)] else ['1', Digit(r - 10)]
  }

  /** The text before the rank in an id of the given suit. */
  function IdPrefix(s: Suit): string {
    SuitName(s) + "-"
  }

  /** The id the server gives a card: "spades-7", "hearts-12", ... */
  function Id(c: Card): string {
    IdPrefix(c.suit) + RankText(c.rank)
  }

  function ParseRank(t: string): (r: Option<Rank>)
    ensures r.Some? ==> RankText(r.value) == t
  {
    if |t| == 1 && '1' <= t[0] <= '9' then
      Some(t[0] as int - '0' as int)
    else if |t| == 2 && t[0] == '1' && '0' <= t[1] <= '3' then
      Some(10 + (t[1] as int - '0' as int))
    else
      None
  }

  function ParseRankOf(s: Suit, t: string): (r: Option<Card>)
    ensures r.Some? ==> r.value.suit == s && RankText(r.value.rank) == t
  {
    match ParseRank(t)
    case Some(k) => Some(Card(s, k))
    case None => None
  }

  /** Reads a card id back; `None` for any text that is not the id of a card. */
  function ParseId(s: string): (r: Option<Card>)
    ensures r.Some? ==> Id(r.value) == s
  {
    if IdPrefix(Spades) <= s then ParseRankOf(Spades, s[|IdPrefix(Spades)|..])
    else if IdPrefix(Hearts) <= s then ParseRankOf(Hearts, s[|IdPrefix(Hearts)|..])
    else if IdPrefix(Clubs) <= s then ParseRankOf(Clubs, s[|IdPrefix(Clubs)|..])
    else if IdPrefix(Diamonds) <= s then ParseRankOf(Diamonds, s[|IdPrefix(Diamonds)|..])
    else None
  }

  lemma {:induction false} ParseRankText(r: Rank)
    ensures ParseRank(RankText(r)) == Some(r)
  {
    if r < 10 {
      assert RankText(r) == [Digit(r)];
    } else {
      assert RankText(r) == ['1', Digit(r - 10)];
    }
  }

  /** Parsing the id of a card gives the card back. */
  lemma ParseIdOfId(c: Card)
    ensures ParseId(Id(c)) == Some(c)
  {
    var t := RankText(c.rank);
    ParseRankText(c.rank);
    assert Id(c) == IdPrefix(c.suit) + t;
    assert Id(c)[|IdPrefix(c.suit)|..] == t;
    match c.suit
    case Spades =>
    case Hearts =>
      assert Id(c)[0] == 'h';
    case Clubs =>
      assert Id(c)[0] == 'c';
    case Diamonds =>
      assert Id(c)[0] == 'd';
      assert Id(c)[1] == 'i';
  }

  /** Two cards with the same id are the same card. */
  lemma IdInjective(a: Card, b: Card)
    ensures Id(a) == Id(b) <==> a == b
  {
    ParseIdOfId(a);
    ParseIdOfId(b);
  }

  // ---------------------------------------------------------------------------
  // Hand order and the deck
  // ---------------------------------------------------------------------------

  /**
   * The comparator a hand is sorted with: suit order first, then rank
   * (negative when `a` goes first).
   */
  function Compare(a: Card, b: Card): int {
    if SuitOrder(a.suit) != SuitOrder(b.suit) then SuitOrder(a.suit) - SuitOrder(b.suit)
    else a.rank - b.rank
  }

  /** The place of a card in a sorted hand and in a freshly built deck. */
  function Key(c: Card): nat {
    13 * SuitOrder(c.suit) + c.rank - 1
  }

  /** The card at place `k` of a freshly built deck. */
  function CardAt(k: nat): Card
    requires k < 52
  {
    Card(Suits[k / 13], k % 13 + 1)
  }

  lemma KeyBound(c: Card)
    ensures Key(c) < 52
  {
  }

  /** `Key` and `CardAt` are inverse bijections between the cards and 0..51. */
  lemma KeyCardAt(c: Card, k: nat)
    requires k < 52
    ensures CardAt(k) == c <==> Key(c) == k
  {
    var s := SuitOrder(c.suit);
    if Key(c) == k {
      assert k == 13 * s + (c.rank - 1);
      assert k / 13 == s && k % 13 == c.rank - 1;
    }
    if CardAt(k) == c {
      assert k == 13 * (k / 13) + k % 13;
    }
  }

  lemma KeyInjective(a: Card, b: Card)
    ensures Key(a) == Key(b) <==> a == b
  {
    KeyBound(a);
    KeyCardAt(a, Key(a));
    KeyCardAt(b, Key(a));
  }

  /** The comparator orders cards exactly as their keys do. */
  lemma CompareIsKeyOrder(a: Card, b: Card)
    ensures Compare(a, b) < 0 <==> Key(a) < Key(b)
    ensures Compare(a, b) == 0 <==> a == b
  {
    KeyInjective(a, b);
  }

  ghost predicate Distinct(s: seq<Card>) {
    forall i, j :: 0 <= i < j < |s| ==> s[i] != s[j]
  }

  /** A complete deck in any order: the 52 cards, each exactly once. */
  ghost predicate IsDeck(d: seq<Card>) {
    |d| == 52 && Distinct(d) && forall c: Card :: c in d
  }

  /** Builds the deck suit by suit, ace to king within a suit. */
  method CreateDeck() returns (deck: seq<Card>)
    ensures |deck| == 52
    ensures forall i :: 0 <= i < 52 ==> Key(deck[i]) == i
    ensures IsDeck(deck)
  {
    deck := [];
    for k := 0 to 4
      invariant |deck| == 13 * k
      invariant forall i :: 0 <= i < |deck| ==> Key(deck[i]) == i
    {
      var suit := Suits[k];
      for rank := 1 to 14
        invariant |deck| == 13 * k + rank - 1
        invariant forall i :: 0 <= i < |deck| ==> Key(deck[i]) == i
      {
        deck := deck + [Card(suit, rank)];
      }
    }
    forall c: Card ensures c in deck {
      KeyBound(c);
      KeyInjective(c, deck[Key(c)]);
    }
    forall i, j | 0 <= i < j < |deck| ensures deck[i] != deck[j] {
      KeyInjective(deck[i], deck[j]);
    }
  }

  ghost predicate Sorted(h: seq<Card>) {
    forall i, j :: 0 <= i < j < |h| ==> Key(h[i]) <= Key(h[j])
  }

  /** The hand with `c` placed before the first card it does not follow. */
  function Insert(c: Card, h: seq<Card>): seq<Card> {
    if h == [] then [c]
    else if Key(c) <= Key(h[0]) then [c] + h
    else [h[0]] + Insert(c, h[1..])
  }

  /** Inserting into a sorted hand keeps it sorted and adds exactly the one card. */
  lemma {:induction false} InsertSorted(c: Card, h: seq<Card>)
    requires Sorted(h)
    ensures Sorted(Insert(c, h)) && multiset(Insert(c, h)) == multiset(h) + multiset{c}
  {
    if h == [] {
    } else if Key(c) <= Key(h[0]) {
      InsertFront(c, h);
    } else {
      SortedTail(h);
      InsertSorted(c, h[1..]);
      InsertAfterHead(c, h, Insert(c, h[1..]));
      assert h == [h[0]] + h[1..];
    }
  }

  lemma InsertFront(c: Card, h: seq<Card>)
    requires Sorted(h) && (h != [] ==> Key(c) <= Key(h[0]))
    ensures Sorted([c] + h)
  {
    var r := [c] + h;
    forall i, j | 0 <= i < j < |r| ensures Key(r[i]) <= Key(r[j]) {
      assert r[j] == h[j - 1];
      if i > 0 {
        assert r[i] == h[i - 1];
      }
    }
  }

  lemma InsertAfterHead(c: Card, h: seq<Card>, rest: seq<Card>)
    requires h != [] && Sorted(h) && Key(h[0]) < Key(c)
    requires Sorted(rest) && multiset(rest) == multiset(h[1..]) + multiset{c}
    ensures Sorted([h[0]] + rest)
  {
    var r := [h[0]] + rest;
    forall i, j | 0 <= i < j < |r| ensures Key(r[i]) <= Key(r[j]) {
      if i == 0 {
        assert r[j] == rest[j - 1];
        assert r[j] in multiset(rest);
        if r[j] != c {
          assert r[j] in multiset(h[1..]);
          var k :| 0 <= k < |h[1..]| && h[1..][k] == r[j];
          assert h[k + 1] == r[j];
        }
      } else {
        assert r[i] == rest[i - 1] && r[j] == rest[j - 1];
      }
    }
  }

  /** The hand in suit order (spades, hearts, clubs, diamonds), then by rank. */
  function SortHand(h: seq<Card>): seq<Card> {
    if h == [] then [] else Insert(h[0], SortHand(h[1..]))
  }

  /** Sorting a hand puts it in suit-then-rank order and keeps exactly its cards. */
  lemma {:induction false} SortHandSorts(h: seq<Card>)
    ensures Sorted(SortHand(h)) && multiset(SortHand(h)) == multiset(h)
  {
    if h != [] {
      SortHandSorts(h[1..]);
      InsertSorted(h[0], SortHand(h[1..]));
      assert h == [h[0]] + h[1..];
    }
  }

  lemma MultisetTail(a: seq<Card>)
    requires a != []
    ensures multiset(a[1..]) == multiset(a) - multiset{a[0]}
  {
    assert a == [a[0]] + a[1..];
  }

  lemma MultisetRemoveAt(b: seq<Card>, j: nat)
    requires j < |b|
    ensures multiset(b[..j] + b[j + 1..]) == multiset(b) - multiset{b[j]}
  {
    assert b == b[..j] + [b[j]] + b[j + 1..];
  }

  lemma SortedTail(a: seq<Card>)
    requires a != [] && Sorted(a)
    ensures Sorted(a[1..])
  {
    forall i, j | 0 <= i < j < |a[1..]| ensures Key(a[1..][i]) <= Key(a[1..][j]) {
      assert a[1..][i] == a[i + 1] && a[1..][j] == a[j + 1];
    }
  }

  /** The head of a sorted sequence has the least key of all its cards. */
  lemma SortedHeadLeast(a: seq<Card>, x: Card)
    requires a != [] && Sorted(a) && x in multiset(a)
    ensures Key(a[0]) <= Key(x)
  {
    var j :| 0 <= j < |a| && a[j] == x;
    if j > 0 {
      assert Key(a[0]) <= Key(a[j]);
    }
  }

  /** Two sorted arrangements of the same cards start with the same card. */
  lemma SortedSameHead(a: seq<Card>, b: seq<Card>)
    requires a != [] && Sorted(a) && Sorted(b) && multiset(a) == multiset(b)
    ensures b != [] && a[0] == b[0]
  {
    assert a[0] in multiset(a);
    assert b[0] in multiset(b);
    SortedHeadLeast(a, b[0]);
    SortedHeadLeast(b, a[0]);
    KeyInjective(a[0], b[0]);
  }

  /** Two sorted arrangements of the same cards are the same sequence. */
  lemma {:induction false} SortedUnique(a: seq<Card>, b: seq<Card>)
    requires Sorted(a) && Sorted(b) && multiset(a) == multiset(b)
    ensures a == b
  {
    if a == [] {
      assert |b| == |multiset(b)| == 0;
    } else {
      SortedSameHead(a, b);
      MultisetTail(a);
      MultisetTail(b);
      SortedTail(a);
      SortedTail(b);
      SortedUnique(a[1..], b[1..]);
      assert a == [a[0]] + a[1..] && b == [b[0]] + b[1..];
    }
  }

  // ---------------------------------------------------------------------------
  // Points
  // ---------------------------------------------------------------------------

  /** Penalty points of a card left in hand: ace 25, 10 to king 10, 2 to 9 five. */
  function CardPoints(c: Card): nat {
    if c.rank == 1 then 25 else if c.rank >= 10 then 10 else 5
  }

  /** Sum of the penalty points of a hand. */
  function HandPoints(h: seq<Card>): nat {
    if h == [] then 0 else CardPoints(h[0]) + HandPoints(h[1..])
  }

  lemma {:induction false} HandPointsAppend(a: seq<Card>, b: seq<Card>)
    ensures HandPoints(a + b) == HandPoints(a) + HandPoints(b)
  {
    if a != [] {
      assert (a + b)[1..] == a[1..] + b;
      HandPointsAppend(a[1..], b);
    } else {
      assert a + b == b;
    }
  }

  /** Every card costs between 5 and 25, so a hand costs 5 to 25 points a card. */
  lemma {:induction false} HandPointsBounds(h: seq<Card>)
    ensures 5 * |h| <= HandPoints(h) <= 25 * |h|
    ensures HandPoints(h) == 0 <==> h == []
  {
    if h != [] {
      HandPointsBounds(h[1..]);
    }
  }

  /** The points of a hand do not depend on the order of its cards. */
  lemma {:induction false} HandPointsPermutation(a: seq<Card>, b: seq<Card>)
    requires multiset(a) == multiset(b)
    ensures HandPoints(a) == HandPoints(b)
  {
    if a == [] {
      assert |b| == |multiset(b)| == 0;
    } else {
      assert a[0] in multiset(b);
      var j :| 0 <= j < |b| && b[j] == a[0];
      var rest := b[..j] + b[j + 1..];
      MultisetTail(a);
      MultisetRemoveAt(b, j);
      HandPointsPermutation(a[1..], rest);
      assert b == b[..j] + ([b[j]] + b[j + 1..]);
      HandPointsAppend(b[..j], [b[j]] + b[j + 1..]);
      assert ([b[j]] + b[j + 1..])[1..] == b[j + 1..];
      HandPointsAppend(b[..j], b[j + 1..]);
    }
  }
}
