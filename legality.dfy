/**
 * The tableau legality engine: which card may be laid on the table now, which
 * card could be laid through cards the player already holds, how a selection
 * of cards is put in an order that can be laid one after another, and why a
 * rejected selection fails card by card.
 */
module Legality {
  import opened Options
  import opened Cards

  /** The ranks of one suit on the table: every rank from `low` to `high`. */
  datatype Run = Run(low: int, high: int)

  /** Each suit is either not opened yet (`None`) or has a run on the table. */
  datatype Tableau = Tableau(spades: Option<Run>, hearts: Option<Run>, clubs: Option<Run>, diamonds: Option<Run>)
  {
    function Get(s: Suit): Option<Run> {
      match s
      case Spades => spades
      case Hearts => hearts
      case Clubs => clubs
      case Diamonds => diamonds
    }

    function Put(s: Suit, r: Option<Run>): (t: Tableau)
      ensures t.Get(s) == r
      ensures forall s' :: s' != s ==> t.Get(s') == Get(s')
    {
      match s
      case Spades => this.(spades := r)
      case Hearts => this.(hearts := r)
      case Clubs => this.(clubs := r)
      case Diamonds => this.(diamonds := r)
    }
  }

  const EmptyTableau: Tableau := Tableau(None, None, None, None)

  /** Some suit has been opened, i.e. the opening seven of spades is down. */
  predicate AnyPlayed(t: Tableau) {
    t.spades.Some? || t.hearts.Some? || t.clubs.Some? || t.diamonds.Some?
  }

  /** A run is a contiguous interval of ranks that contains the seven. */
  ghost predicate ValidRun(r: Run) {
    1 <= r.low <= 7 <= r.high <= 13
  }

  ghost predicate Valid(t: Tableau) {
    forall s: Suit :: t.Get(s).Some? ==> ValidRun(t.Get(s).value)
  }

  /** The card lies on the table already. */
  ghost predicate Covered(t: Tableau, c: Card) {
    t.Get(c.suit).Some? && t.Get(c.suit).value.low <= c.rank <= t.Get(c.suit).value.high
  }

  /** `u` is `t` with runs opened or lengthened, never shortened. */
  ghost predicate Extends(t: Tableau, u: Tableau) {
    forall s: Suit :: t.Get(s).Some? ==>
      u.Get(s).Some? && u.Get(s).value.low <= t.Get(s).value.low && t.Get(s).value.high <= u.Get(s).value.high
  }

  // ---------------------------------------------------------------------------
  // Single cards
  // ---------------------------------------------------------------------------

  /** The card may be laid now. */
  predicate CanPlayCard(c: Card, t: Tableau) {
    if !AnyPlayed(t) then
      c.suit == Spades && c.rank == 7
    else
      match t.Get(c.suit)
      case None => c.rank == 7
      case Some(run) => c.rank == run.low - 1 || c.rank == run.high + 1
  }

  /** The hand holds a card of suit `s` and rank `r`. */
  predicate Holds(hand: seq<Card>, s: Suit, r: int) {
    exists c :: c in hand && c.suit == s && c.rank == r
  }

  /** The hand holds every rank from `lo` to `hi` of suit `s`. */
  predicate HoldsAll(hand: seq<Card>, s: Suit, lo: int, hi: int) {
    forall r :: lo <= r <= hi ==> Holds(hand, s, r)
  }

  /**
   * The card could be laid through the player's own cards: every rank between
   * it and the run (or the seven of an unopened suit) is in the hand.
   */
  predicate CanBePartOfSequence(c: Card, hand: seq<Card>, t: Tableau) {
    if !AnyPlayed(t) then
      c.suit == Spades && c.rank == 7
    else
      match t.Get(c.suit)
      case None =>
        c.rank == 7 ||
        (Holds(hand, c.suit, 7) &&
         if c.rank > 7 then HoldsAll(hand, c.suit, 8, c.rank - 1)
         else HoldsAll(hand, c.suit, c.rank + 1, 6))
      case Some(run) =>
        if c.rank > run.high then HoldsAll(hand, c.suit, run.high + 1, c.rank - 1)
        else if c.rank < run.low then HoldsAll(hand, c.suit, c.rank + 1, run.low - 1)
        else false
  }

  /** A card that may be laid now may also be laid as part of a sequence. */
  lemma PlayableIsPartOfSequence(c: Card, hand: seq<Card>, t: Tableau)
    requires Valid(t) && CanPlayCard(c, t)
    ensures CanBePartOfSequence(c, hand, t)
  {
    if AnyPlayed(t) && t.Get(c.suit).Some? {
      assert ValidRun(t.Get(c.suit).value);
    }
  }

  /**
   * A hand holds a card that can be part of a sequence exactly when it holds
   * a card that may be laid now: the nearest card of any chain is playable.
   */
  lemma SequenceCardIffPlayableCard(hand: seq<Card>, t: Tableau)
    requires Valid(t)
    ensures (exists c :: c in hand && CanBePartOfSequence(c, hand, t))
        <==> (exists c :: c in hand && CanPlayCard(c, t))
  {
    if c :| c in hand && CanPlayCard(c, t) {
      PlayableIsPartOfSequence(c, hand, t);
    }
    if c :| c in hand && CanBePartOfSequence(c, hand, t) {
      if !CanPlayCard(c, t) {
        assert AnyPlayed(t);
        var r: int;
        match t.Get(c.suit)
        case None =>
          r := 7;
        case Some(run) =>
          r := if c.rank > run.high then run.high + 1 else run.low - 1;
          assert Holds(hand, c.suit, r);
        var d :| d in hand && d.suit == c.suit && d.rank == r;
        assert CanPlayCard(d, t);
      }
    }
  }

  // ---------------------------------------------------------------------------
  // Laying cards
  // ---------------------------------------------------------------------------

  /** The table after the card is laid: it opens its suit or widens its run. */
  function Apply(t: Tableau, c: Card): Tableau {
    match t.Get(c.suit)
    case None => t.Put(c.suit, Some(Run(c.rank, c.rank)))
    case Some(run) =>
      var low := if c.rank < run.low then c.rank else run.low;
      var high := if c.rank > run.high then c.rank else run.high;
      t.Put(c.suit, Some(Run(low, high)))
  }

  /**
   * Laying a legal card opens its suit at 7 or moves exactly one end of its run
   * by exactly one; the runs stay valid, the card is now on the table, and no
   * other suit changes.
   */
  lemma ApplyPlayable(t: Tableau, c: Card)
    requires Valid(t) && CanPlayCard(c, t)
    ensures var u := Apply(t, c);
      && Valid(u) && AnyPlayed(u) && Extends(t, u) && Covered(u, c)
      && (forall s :: s != c.suit ==> u.Get(s) == t.Get(s))
      && match t.Get(c.suit)
         case None => c.rank == 7 && u.Get(c.suit) == Some(Run(7, 7))
         case Some(run) =>
           u.Get(c.suit) == Some(Run(run.low - 1, run.high)) || u.Get(c.suit) == Some(Run(run.low, run.high + 1))
  {
    var u := Apply(t, c);
    if t.Get(c.suit).Some? {
      assert ValidRun(t.Get(c.suit).value);
    }
    forall s: Suit | u.Get(s).Some? ensures ValidRun(u.Get(s).value) {
      if s != c.suit {
        assert u.Get(s) == t.Get(s);
      }
    }
  }

  /** A legal card is never a card already on the table. */
  lemma PlayableNotCovered(t: Tableau, c: Card)
    requires Valid(t) && CanPlayCard(c, t)
    ensures !Covered(t, c)
  {
    if t.Get(c.suit).Some? {
      assert ValidRun(t.Get(c.suit).value);
    }
  }

  lemma ExtendsTransitive(t: Tableau, u: Tableau, v: Tableau)
    requires Extends(t, u) && Extends(u, v)
    ensures Extends(t, v)
  {
    forall s: Suit | t.Get(s).Some?
      ensures v.Get(s).Some? && v.Get(s).value.low <= t.Get(s).value.low && t.Get(s).value.high <= v.Get(s).value.high
    {
      assert u.Get(s).Some?;
    }
  }

  /** The table after the cards are laid in the given order. */
  function ApplyAll(t: Tableau, cs: seq<Card>): Tableau
    decreases |cs|
  {
    if cs == [] then t else ApplyAll(Apply(t, cs[0]), cs[1..])
  }

  /** Each card may be laid on the table as extended by the cards before it. */
  predicate ValidSequence(t: Tableau, cs: seq<Card>)
    decreases |cs|
  {
    cs == [] || (CanPlayCard(cs[0], t) && ValidSequence(Apply(t, cs[0]), cs[1..]))
  }

  lemma {:induction false} ApplyAllSnoc(t: Tableau, cs: seq<Card>, c: Card)
    ensures ApplyAll(t, cs + [c]) == Apply(ApplyAll(t, cs), c)
    decreases |cs|
  {
    if cs == [] {
      assert ApplyAll(t, [c]) == ApplyAll(Apply(t, c), []);
    } else {
      assert (cs + [c])[1..] == cs[1..] + [c];
      ApplyAllSnoc(Apply(t, cs[0]), cs[1..], c);
    }
  }

  /** The table after the cards are laid one by one. */
  method LayOnTable(t: Tableau, cards: seq<Card>) returns (u: Tableau)
    ensures u == ApplyAll(t, cards)
  {
    u := t;
    var k := 0;
    while k < |cards|
      invariant 0 <= k <= |cards|
      invariant u == ApplyAll(t, cards[..k])
    {
      ApplyAllSnoc(t, cards[..k], cards[k]);
      assert cards[..k + 1] == cards[..k] + [cards[k]];
      u := Apply(u, cards[k]);
      k := k + 1;
    }
    assert cards[..|cards|] == cards;
  }

  lemma {:induction false} ValidSequenceSnoc(t: Tableau, cs: seq<Card>, c: Card)
    requires ValidSequence(t, cs) && CanPlayCard(c, ApplyAll(t, cs))
    ensures ValidSequence(t, cs + [c])
    decreases |cs|
  {
    if cs == [] {
      assert ValidSequence(Apply(t, c), []);
      assert [c][1..] == [];
    } else {
      assert (cs + [c])[1..] == cs[1..] + [c];
      ValidSequenceSnoc(Apply(t, cs[0]), cs[1..], c);
    }
  }

  /**
   * Laying a valid sequence keeps the table valid, only widens runs, and leaves
   * every laid card on the table.
   */
  lemma {:induction false} ValidSequenceExtends(t: Tableau, cs: seq<Card>)
    requires Valid(t) && ValidSequence(t, cs)
    ensures Valid(ApplyAll(t, cs)) && Extends(t, ApplyAll(t, cs))
    ensures cs != [] ==> AnyPlayed(ApplyAll(t, cs))
    ensures forall c :: c in cs ==> Covered(ApplyAll(t, cs), c)
    decreases |cs|
  {
    if cs != [] {
      var u := Apply(t, cs[0]);
      ApplyPlayable(t, cs[0]);
      ValidSequenceExtends(u, cs[1..]);
      ExtendsTransitive(t, u, ApplyAll(u, cs[1..]));
      forall c | c in cs ensures Covered(ApplyAll(t, cs), c) {
        if c !in cs[1..] {
          assert c == cs[0];
        }
      }
    }
  }

  /**
   * A valid sequence never holds a card twice and never a card already on the
   * table: a card laid once is covered from then on.
   */
  lemma {:induction false} ValidSequenceFresh(t: Tableau, cs: seq<Card>)
    requires Valid(t) && ValidSequence(t, cs)
    ensures Distinct(cs)
    ensures forall c :: c in cs ==> !Covered(t, c)
    decreases |cs|
  {
    if cs != [] {
      var u := Apply(t, cs[0]);
      ApplyPlayable(t, cs[0]);
      PlayableNotCovered(t, cs[0]);
      ValidSequenceFresh(u, cs[1..]);
      forall c | c in cs ensures !Covered(t, c) {
        if c in cs[1..] {
          assert !Covered(u, c);
        }
      }
      forall i, j | 0 <= i < j < |cs| ensures cs[i] != cs[j] {
        if i == 0 {
          assert cs[j] in cs[1..];
        } else {
          assert cs[1..][i - 1] == cs[i] && cs[1..][j - 1] == cs[j];
        }
      }
    }
  }

  // ---------------------------------------------------------------------------
  // The greedy order is complete
  // ---------------------------------------------------------------------------

  /** Some order of exactly these cards can be laid one after another. */
  ghost predicate Solvable(t: Tableau, m: multiset<Card>) {
    exists o :: multiset(o) == m && ValidSequence(t, o)
  }

  /** Laying a playable card keeps the table consistent and started. */
  lemma ApplyKeepsValid(t: Tableau, c: Card)
    requires Valid(t) && CanPlayCard(c, t)
    ensures Valid(Apply(t, c)) && AnyPlayed(Apply(t, c))
  {
    ApplyPlayable(t, c);
  }

  /**
   * Two different cards that may both be laid now may be laid in either order,
   * with the same result.
   */
  lemma Diamond(t: Tableau, x: Card, c: Card)
    requires Valid(t) && AnyPlayed(t) && CanPlayCard(x, t) && CanPlayCard(c, t) && x != c
    ensures CanPlayCard(x, Apply(t, c)) && CanPlayCard(c, Apply(t, x))
    ensures Apply(Apply(t, c), x) == Apply(Apply(t, x), c)
  {
    ApplyPlayable(t, c);
    ApplyPlayable(t, x);
    if x.suit == c.suit {
      assert t.Get(c.suit).Some?;
      assert ValidRun(t.Get(c.suit).value);
    }
  }

  /**
   * If a valid order contains `c` first at place `k` and `c` may be laid now,
   * laying `c` first and then the rest in their order is valid too.
   */
  lemma {:induction false} Exchange(t: Tableau, o: seq<Card>, k: nat)
    requires Valid(t) && AnyPlayed(t) && ValidSequence(t, o)
    requires k < |o| && CanPlayCard(o[k], t)
    requires forall i :: 0 <= i < k ==> o[i] != o[k]
    ensures ValidSequence(Apply(t, o[k]), o[..k] + o[k + 1..])
    decreases k
  {
    if k == 0 {
      assert o[..0] + o[1..] == o[1..];
    } else {
      var x, c := o[0], o[k];
      var t' := Apply(t, x);
      Diamond(t, x, c);
      ApplyKeepsValid(t, x);
      var o' := o[1..];
      assert o'[k - 1] == c;
      Exchange(t', o', k - 1);
      var rest := o[1..k] + o[k + 1..];
      assert o'[..k - 1] + o'[k..] == rest;
      assert ValidSequence(Apply(Apply(t, c), x), rest);
      assert o[..k] + o[k + 1..] == [x] + rest;
    }
  }

  /** Laying a playable card of a solvable selection leaves a solvable rest. */
  lemma SolvableAfter(t: Tableau, m: multiset<Card>, c: Card)
    requires Valid(t) && AnyPlayed(t) && Solvable(t, m) && c in m && CanPlayCard(c, t)
    ensures Solvable(Apply(t, c), m - multiset{c})
  {
    var o :| multiset(o) == m && ValidSequence(t, o);
    assert c in o;
    var k :| 0 <= k < |o| && o[k] == c && forall i :: 0 <= i < k ==> o[i] != c by {
      var j :| 0 <= j < |o| && o[j] == c;
      FirstIndex(o, c, j);
    }
    Exchange(t, o, k);
    MultisetRemoveAt(o, k);
  }

  lemma {:induction false} FirstIndex(o: seq<Card>, c: Card, j: nat)
    requires j < |o| && o[j] == c
    ensures exists k :: 0 <= k < |o| && o[k] == c && forall i :: 0 <= i < k ==> o[i] != c
    decreases j
  {
    if exists i :: 0 <= i < j && o[i] == c {
      var i :| 0 <= i < j && o[i] == c;
      FirstIndex(o, c, i);
    }
  }

  /** When no remaining card may be laid now, no order of them can be laid. */
  lemma Stuck(t: Tableau, remaining: seq<Card>)
    requires remaining != []
    requires forall j :: 0 <= j < |remaining| ==> !CanPlayCard(remaining[j], t)
    ensures !Solvable(t, multiset(remaining))
  {
    forall o | multiset(o) == multiset(remaining) ensures !ValidSequence(t, o) {
      assert |o| == |multiset(o)| == |remaining| > 0;
      assert o[0] in multiset(remaining);
      assert o[0] in remaining;
    }
  }

  /** The position of the first card that may be laid on `t`; `|cs|` when there is none. */
  function FirstPlayable(cs: seq<Card>, t: Tableau): (i: nat)
    ensures i <= |cs|
  {
    if cs == [] then 0
    else if CanPlayCard(cs[0], t) then 0
    else 1 + FirstPlayable(cs[1..], t)
  }

  /** The scan stops at a card that may be laid, and no card before it may be. */
  lemma {:induction false} FirstPlayableSpec(cs: seq<Card>, t: Tableau)
    ensures forall j :: 0 <= j < FirstPlayable(cs, t) ==> !CanPlayCard(cs[j], t)
    ensures FirstPlayable(cs, t) < |cs| ==> CanPlayCard(cs[FirstPlayable(cs, t)], t)
  {
    if cs != [] && !CanPlayCard(cs[0], t) {
      FirstPlayableSpec(cs[1..], t);
      forall j | 0 <= j < FirstPlayable(cs, t) ensures !CanPlayCard(cs[j], t) {
        if j > 0 {
          assert cs[j] == cs[1..][j - 1];
        }
      }
    }
  }

  /** A scan that stops at the first card that may be laid has found `FirstPlayable`. */
  lemma {:induction false} FirstPlayableUnique(cs: seq<Card>, t: Tableau, i: nat)
    requires i <= |cs| && forall j :: 0 <= j < i ==> !CanPlayCard(cs[j], t)
    requires i < |cs| ==> CanPlayCard(cs[i], t)
    ensures FirstPlayable(cs, t) == i
  {
    if cs != [] && i > 0 {
      FirstPlayableUnique(cs[1..], t, i - 1);
    }
  }

  /**
   * The greedy order: repeatedly take the first remaining card that may be
   * laid on the table as extended so far; `None` when the cards are not all
   * used up but none of them may be laid.
   */
  function Greedy(cs: seq<Card>, t: Tableau): Option<seq<Card>>
    decreases |cs|
  {
    if cs == [] then Some([])
    else
      var i := FirstPlayable(cs, t);
      if i == |cs| then None
      else Prefixed([cs[i]], Greedy(cs[..i] + cs[i + 1..], Apply(t, cs[i])))
  }

  /** The order `o`, with `p` laid first. */
  function Prefixed(p: seq<Card>, o: Option<seq<Card>>): Option<seq<Card>> {
    match o
    case None => None
    case Some(rest) => Some(p + rest)
  }

  /**
   * The order `getPlayableOrder` computes: nothing for no cards, only the
   * seven of spades on its own while the table is empty, and otherwise the
   * greedy order.
   */
  function GreedyOrder(selected: seq<Card>, t: Tableau): Option<seq<Card>> {
    if selected == [] then None
    else if !AnyPlayed(t) then (if selected == [SevenOfSpades] then Some(selected) else None)
    else Greedy(selected, t)
  }

  lemma PrefixedTwice(p: seq<Card>, q: seq<Card>, o: Option<seq<Card>>)
    ensures Prefixed(p, Prefixed(q, o)) == Prefixed(p + q, o)
  {
    if o.Some? {
      assert p + (q + o.value) == (p + q) + o.value;
    }
  }

  lemma PrefixedNothing(o: Option<seq<Card>>)
    ensures Prefixed([], o) == o
  {
    if o.Some? {
      assert [] + o.value == o.value;
    }
  }

  /** One round of the greedy scan: it lays the first card that may be laid, or gives up. */
  lemma GreedyStep(ordered: seq<Card>, cs: seq<Card>, t: Tableau, i: nat)
    requires cs != [] && i == FirstPlayable(cs, t)
    ensures i == |cs| ==> Greedy(cs, t) == None
    ensures i < |cs| ==>
      Prefixed(ordered, Greedy(cs, t)) == Prefixed(ordered + [cs[i]], Greedy(cs[..i] + cs[i + 1..], Apply(t, cs[i])))
  {
    if i < |cs| {
      GreedyUnfold(cs, t, i);
      PrefixedTwice(ordered, [cs[i]], Greedy(cs[..i] + cs[i + 1..], Apply(t, cs[i])));
    }
  }

  lemma GreedyUnfold(cs: seq<Card>, t: Tableau, i: nat)
    requires cs != [] && i == FirstPlayable(cs, t) && i < |cs|
    ensures Greedy(cs, t) == Prefixed([cs[i]], Greedy(cs[..i] + cs[i + 1..], Apply(t, cs[i])))
  {
  }

  lemma ValidSequenceCons(t: Tableau, c: Card, o: seq<Card>)
    requires CanPlayCard(c, t) && ValidSequence(Apply(t, c), o)
    ensures ValidSequence(t, [c] + o)
  {
    assert ([c] + o)[0] == c && ([c] + o)[1..] == o;
  }

  /** The greedy order, when there is one, lays exactly the given cards, each legally. */
  lemma {:induction false} GreedySound(cs: seq<Card>, t: Tableau)
    ensures Greedy(cs, t).Some? ==>
      multiset(Greedy(cs, t).value) == multiset(cs) && ValidSequence(t, Greedy(cs, t).value)
    decreases |cs|
  {
    if cs != [] {
      var i := FirstPlayable(cs, t);
      if i < |cs| {
        var c := cs[i];
        var rest := cs[..i] + cs[i + 1..];
        var u := Apply(t, c);
        FirstPlayableSpec(cs, t);
        GreedySound(rest, u);
        GreedyUnfold(cs, t, i);
        if Greedy(rest, u).Some? {
          var o := Greedy(rest, u).value;
          MultisetRemoveAt(cs, i);
          ValidSequenceCons(t, c, o);
          assert multiset([c] + o) == multiset(cs);
        }
      }
    }
  }

  /** On a consistent, opened table the greedy scan fails only when no order of the cards can be laid. */
  lemma {:induction false} GreedyComplete(cs: seq<Card>, t: Tableau)
    requires Valid(t) && AnyPlayed(t) && Greedy(cs, t).None?
    ensures !Solvable(t, multiset(cs))
    decreases |cs|
  {
    var i := FirstPlayable(cs, t);
    FirstPlayableSpec(cs, t);
    if i == |cs| {
      Stuck(t, cs);
    } else {
      var c := cs[i];
      var rest := cs[..i] + cs[i + 1..];
      ApplyPlayable(t, c);
      GreedyComplete(rest, Apply(t, c));
      MultisetRemoveAt(cs, i);
      if Solvable(t, multiset(cs)) {
        SolvableAfter(t, multiset(cs), c);
        assert false;
      }
    }
  }

  /** An order `getPlayableOrder` finds lays exactly the selected cards, each legally. */
  lemma GreedyOrderSound(selected: seq<Card>, t: Tableau)
    ensures GreedyOrder(selected, t).Some? ==>
      multiset(GreedyOrder(selected, t).value) == multiset(selected) && ValidSequence(t, GreedyOrder(selected, t).value)
  {
    if selected != [] && AnyPlayed(t) {
      GreedySound(selected, t);
    } else if selected == [SevenOfSpades] {
      assert ValidSequence(Apply(t, SevenOfSpades), []);
    }
  }

  /** A single card is ordered exactly when it may be laid now. */
  lemma GreedyOrderSingle(c: Card, t: Tableau)
    ensures GreedyOrder([c], t) == if CanPlayCard(c, t) then Some([c]) else None
  {
    if AnyPlayed(t) {
      assert FirstPlayable([c], t) == (if CanPlayCard(c, t) then 0 else 1);
      if CanPlayCard(c, t) {
        assert [c][..0] + [c][1..] == [];
        assert Greedy([], Apply(t, c)) == Some([]);
        assert [c] + [] == [c];
      }
    }
  }

  /** The scan for the first remaining card that may be laid on the simulated table. */
  method ScanPlayable(remaining: seq<Card>, sim: Tableau) returns (i: nat)
    ensures i == FirstPlayable(remaining, sim)
  {
    i := 0;
    while i < |remaining| && !CanPlayCard(remaining[i], sim)
      invariant 0 <= i <= |remaining|
      invariant forall j :: 0 <= j < i ==> !CanPlayCard(remaining[j], sim)
    {
      i := i + 1;
    }
    FirstPlayableUnique(remaining, sim, i);
  }

  /**
   * The outer loop of `getPlayableOrder` on a started table: lay the first
   * remaining card that may be laid on the simulated table, splice it out,
   * and scan again from the front, giving up when a scan finds none.
   */
  method GreedyScan(selected: seq<Card>, t: Tableau) returns (r: Option<seq<Card>>)
    ensures r == Greedy(selected, t)
  {
    var sim := t;
    var remaining := selected;
    var ordered: seq<Card> := [];
    PrefixedNothing(Greedy(selected, t));
    while |remaining| > 0
      invariant Greedy(selected, t) == Prefixed(ordered, Greedy(remaining, sim))
      decreases |remaining|
    {
      var i := ScanPlayable(remaining, sim);
      GreedyStep(ordered, remaining, sim, i);
      if i == |remaining| {
        return None;
      }
      var card := remaining[i];
      ordered := ordered + [card];
      remaining := remaining[..i] + remaining[i + 1..];
      sim := Apply(sim, card);
    }
    assert ordered + [] == ordered;
    return Some(ordered);
  }

  /**
   * Puts the selected cards in an order in which they can be laid one after
   * another, scanning for the first card that may be laid on the simulated
   * table; `None` when a scan finds none. On an empty table only the seven of
   * spades on its own is accepted. The greedy scan finds an order whenever one
   * exists.
   */
  method GetPlayableOrder(selected: seq<Card>, t: Tableau) returns (r: Option<seq<Card>>)
    ensures selected == [] ==> r == None
    ensures !AnyPlayed(t) ==> (r.Some? <==> selected == [SevenOfSpades])
    ensures r.Some? ==> multiset(r.value) == multiset(selected) && ValidSequence(t, r.value)
    ensures r.None? && selected != [] && AnyPlayed(t) && Valid(t) ==> !Solvable(t, multiset(selected))
    ensures r == GreedyOrder(selected, t)
  {
    if |selected| == 0 {
      return None;
    }
    if !AnyPlayed(t) {
      if |selected| != 1 {
        return None;
      }
      var card := selected[0];
      if card.suit != Spades || card.rank != 7 {
        return None;
      }
      assert ValidSequence(Apply(t, card), []);
      assert selected == [card];
      return Some([card]);
    }
    r := GreedyScan(selected, t);
    GreedySound(selected, t);
    if Valid(t) && r.None? {
      GreedyComplete(selected, t);
    }
  }

  // ---------------------------------------------------------------------------
  // Why a selection is rejected
  // ---------------------------------------------------------------------------

  datatype Reason =
    | MustStartWithSeven(card: Card)           // the suit is not opened and the card is not a seven
    | NeedsRank(card: Card, needed: int)       // the run must first reach rank `needed`
    | AlreadyOnTable(card: Card)

  datatype Explanation =
    | NoCardsSelected
    | CannotBePlayedTogether                   // no single card is at fault
    | Reasons(reasons: seq<Reason>)

  /** Why this one card cannot be laid now, if the run alone says so. */
  function Classify(c: Card, t: Tableau): (r: Option<Reason>)
    ensures r.Some? ==> r.value.card == c
    ensures r.Some? && r.value.MustStartWithSeven? ==> t.Get(c.suit).None? && c.rank != 7
    ensures r.Some? && r.value.NeedsRank? ==>
      (t.Get(c.suit).Some? &&
       ((c.rank < r.value.needed && r.value.needed == t.Get(c.suit).value.low - 1) ||
        (r.value.needed < c.rank && r.value.needed == t.Get(c.suit).value.high + 1)))
    ensures r.Some? && r.value.AlreadyOnTable? ==> Covered(t, c)
  {
    match t.Get(c.suit)
    case None =>
      if c.rank != 7 then Some(MustStartWithSeven(c)) else None
    case Some(run) =>
      if c.rank == run.low - 1 || c.rank == run.high + 1 then None
      else if c.rank < run.low then Some(NeedsRank(c, run.low - 1))
      else if c.rank > run.high then Some(NeedsRank(c, run.high + 1))
      else Some(AlreadyOnTable(c))
  }

  /** Once the table is opened, a card has no reason against it exactly when it may be laid. */
  lemma ClassifyMatchesCanPlay(c: Card, t: Tableau)
    requires AnyPlayed(t)
    ensures Classify(c, t).None? <==> CanPlayCard(c, t)
  {
  }

  /** The rank a `NeedsRank` reason names is a card that may be laid now. */
  lemma NeededRankIsPlayable(c: Card, t: Tableau)
    requires Valid(t) && Classify(c, t).Some? && Classify(c, t).value.NeedsRank?
    ensures 1 <= Classify(c, t).value.needed <= 13
    ensures CanPlayCard(Card(c.suit, Classify(c, t).value.needed), t)
  {
    assert ValidRun(t.Get(c.suit).value);
  }

  /** The reasons of the selected cards that have one, in the order of the selection. */
  function ReasonsFor(selected: seq<Card>, t: Tableau): (rs: seq<Reason>)
    ensures forall r :: r in rs ==> r.card in selected && Classify(r.card, t) == Some(r)
    ensures forall c :: c in selected && Classify(c, t).Some? ==> Classify(c, t).value in rs
  {
    if selected == [] then []
    else
      var rest := ReasonsFor(selected[1..], t);
      assert forall c :: c in selected ==> c == selected[0] || c in selected[1..];
      match Classify(selected[0], t)
      case Some(r) => [r] + rest
      case None => rest
  }

  /** The explanation sent back for a rejected selection. */
  function Explain(selected: seq<Card>, t: Tableau): (e: Explanation)
    ensures e == NoCardsSelected <==> selected == []
    ensures e == CannotBePlayedTogether <==> selected != [] && forall c :: c in selected ==> Classify(c, t).None?
    ensures e.Reasons? <==> exists c :: c in selected && Classify(c, t).Some?
    ensures e.Reasons? ==> e.reasons != []
    ensures e.Reasons? ==> forall r :: r in e.reasons <==> exists c :: c in selected && Classify(c, t) == Some(r)
  {
    if selected == [] then NoCardsSelected
    else
      var rs := ReasonsFor(selected, t);
      if rs == [] then CannotBePlayedTogether
      else assert rs[0] in rs; Reasons(rs)
  }
}
