/**
 * The round-robin deal: the shuffled deck is dealt one card at a time,
 * starting with the player after the dealer and going round the table.
 */
module Dealing {
  import opened Cards

  /** The piles the deal leaves after the cards of `deck`: card `i` goes to player `(first + i) % n`. */
  function Piles(deck: seq<Card>, n: nat, first: nat): (piles: seq<seq<Card>>)
    requires n > 0
    ensures |piles| == n
    decreases |deck|
  {
    if deck == [] then seq(n, _ => [])
    else
      var before := Piles(deck[..|deck| - 1], n, first);
      var q := (first + |deck| - 1) % n;
      before[q := before[q] + [deck[|deck| - 1]]]
  }

  /** The seat that receives card `k` of the deck. */
  function Turn(first: nat, k: nat, n: nat): nat
    requires n > 0
  {
    (first + k) % n
  }

  /** The next card goes to the next seat round the table. */
  lemma TurnNext(first: nat, k: nat, n: nat)
    requires n > 0
    ensures Turn(first, k + 1, n) == (Turn(first, k, n) + 1) % n
  {
    NextSeat(first + k, n);
  }

  /** Dealing one more card of the deck adds it to the pile of the seat whose turn it is. */
  lemma PilesStep(deck: seq<Card>, k: nat, n: nat, first: nat)
    requires n > 0 && k < |deck|
    ensures var before := Piles(deck[..k], n, first);
      Piles(deck[..k + 1], n, first) == before[Turn(first, k, n) := before[Turn(first, k, n)] + [deck[k]]]
  {
    assert deck[..k + 1][..k] == deck[..k];
  }

  /** How far round the table from `first` player `p` sits. */
  function Offset(p: nat, first: nat, n: nat): nat
    requires n > 0
  {
    (p - first) % n
  }

  lemma MulAtLeast(n: int, a: int)
    requires n > 0 && a >= 1
    ensures n * a >= n
    decreases a
  {
    if a > 1 {
      assert n * a == n * (a - 1) + n;
      MulAtLeast(n, a - 1);
    }
  }

  lemma MulAtMost(n: int, a: int)
    requires n > 0 && a <= -1
    ensures n * a <= -n
  {
    MulAtLeast(n, -a);
    assert n * a == -(n * (-a));
  }

  /** A multiple of `n` strictly between `-n` and `n` is zero. */
  lemma SmallMultiple(n: int, a: int)
    requires n > 0 && -n < n * a < n
    ensures a == 0
  {
    if a >= 1 {
      MulAtLeast(n, a);
    } else if a <= -1 {
      MulAtMost(n, a);
    }
  }

  lemma DivModUnique(x: int, n: int, q: int, r: int)
    requires n > 0 && 0 <= r < n && x == n * q + r
    ensures x / n == q && x % n == r
  {
    var q', r' := x / n, x % n;
    assert x == n * q' + r';
    assert n * (q - q') == r' - r;
    SmallMultiple(n, q - q');
  }

  lemma DivModStep(k: nat, n: nat)
    requires n > 0
    ensures k % n < n - 1 ==> (k + 1) / n == k / n && (k + 1) % n == k % n + 1
    ensures k % n == n - 1 ==> (k + 1) / n == k / n + 1 && (k + 1) % n == 0
  {
    var d, m := k / n, k % n;
    assert k == n * d + m;
    if m < n - 1 {
      DivModUnique(k + 1, n, d, m + 1);
    } else {
      assert k + 1 == n * (d + 1) + 0;
      DivModUnique(k + 1, n, d + 1, 0);
    }
  }

  /** Stepping to the next seat from a seat number is stepping from the count it came from. */
  lemma NextSeat(x: nat, n: nat)
    requires n > 0
    ensures (x % n + 1) % n == (x + 1) % n
  {
    DivModStep(x, n);
    if x % n < n - 1 {
      DivModUnique(x % n + 1, n, 0, x % n + 1);
    } else {
      DivModUnique(n, n, 1, 0);
    }
  }

  lemma OffsetOfTurn(first: nat, k: nat, n: nat, p: nat)
    requires n > 0 && p < n
    ensures Offset(p, first, n) == k % n <==> p == (first + k) % n
  {
    var q := (first + k) % n;
    var big := (first + k) / n;
    assert first + k == n * big + q;
    assert k == n * (k / n) + k % n;
    assert q - first == n * (k / n - big) + k % n;
    DivModUnique(q - first, n, k / n - big, k % n);
    var a, b := (p - first) / n, (q - first) / n;
    assert p - first == n * a + Offset(p, first, n);
    assert q - first == n * b + k % n;
    if Offset(p, first, n) == k % n {
      assert p - q == n * (a - b);
      SmallMultiple(n, a - b);
    }
  }

  /**
   * Player `p` receives one card per full round, plus one more when the last,
   * partial round reaches them.
   */
  lemma {:induction false} PileSize(deck: seq<Card>, n: nat, first: nat, p: nat)
    requires n > 0 && p < n
    ensures |Piles(deck, n, first)[p]| == |deck| / n + (if Offset(p, first, n) < |deck| % n then 1 else 0)
    decreases |deck|
  {
    if deck != [] {
      var k := |deck| - 1;
      PileSize(deck[..k], n, first, p);
      DivModStep(k, n);
      OffsetOfTurn(first, k, n, p);
    }
  }

  /** The deal is fair: any two hands differ in size by at most one card. */
  lemma PileSizesWithinOne(deck: seq<Card>, n: nat, first: nat, p: nat, q: nat)
    requires n > 0 && p < n && q < n
    ensures -1 <= |Piles(deck, n, first)[p]| - |Piles(deck, n, first)[q]| <= 1
  {
    PileSize(deck, n, first, p);
    PileSize(deck, n, first, q);
  }

  /** All the cards of a sequence of hands. */
  function Union(hands: seq<seq<Card>>): multiset<Card> {
    if hands == [] then multiset{} else Union(hands[..|hands| - 1]) + multiset(hands[|hands| - 1])
  }

  lemma {:induction false} UnionUpdate(hands: seq<seq<Card>>, q: nat, extra: seq<Card>)
    requires q < |hands|
    ensures Union(hands[q := hands[q] + extra]) == Union(hands) + multiset(extra)
    decreases |hands|
  {
    var last := |hands| - 1;
    var updated := hands[q := hands[q] + extra];
    assert updated[..last] == if q < last then hands[..last][q := hands[q] + extra] else hands[..last];
    if q < last {
      UnionUpdate(hands[..last], q, extra);
    }
  }

  /** Every hand contributes its cards to the union. */
  lemma {:induction false} UnionHas(hands: seq<seq<Card>>, p: nat, q: nat, c: Card)
    requires p < q < |hands|
    ensures Union(hands)[c] >= multiset(hands[p])[c] + multiset(hands[q])[c]
    decreases |hands|
  {
    var last := |hands| - 1;
    if q < last {
      UnionHas(hands[..last], p, q, c);
    } else {
      UnionHasOne(hands[..last], p, c);
    }
  }

  lemma {:induction false} UnionHasOne(hands: seq<seq<Card>>, p: nat, c: Card)
    requires p < |hands|
    ensures Union(hands)[c] >= multiset(hands[p])[c]
    decreases |hands|
  {
    var last := |hands| - 1;
    if p < last {
      UnionHasOne(hands[..last], p, c);
    }
  }

  lemma {:induction false} UnionOfEmpties(hands: seq<seq<Card>>)
    requires forall i :: 0 <= i < |hands| ==> hands[i] == []
    ensures Union(hands) == multiset{}
    decreases |hands|
  {
    if hands != [] {
      UnionOfEmpties(hands[..|hands| - 1]);
    }
  }

  /** The deal hands out every card of the deck exactly once. */
  lemma {:induction false} PilesPartition(deck: seq<Card>, n: nat, first: nat)
    requires n > 0
    ensures Union(Piles(deck, n, first)) == multiset(deck)
    decreases |deck|
  {
    if deck == [] {
      UnionOfEmpties(Piles(deck, n, first));
    } else {
      var k := |deck| - 1;
      var before := Piles(deck[..k], n, first);
      var q := (first + k) % n;
      assert Piles(deck, n, first) == before[q := before[q] + [deck[k]]];
      PilesPartition(deck[..k], n, first);
      UnionUpdate(before, q, [deck[k]]);
      assert multiset(deck) == multiset(deck[..k]) + multiset([deck[k]]) by {
        assert deck == deck[..k] + [deck[k]];
      }
    }
  }

  /** A card that occurs once among the hands is in exactly one of them. */
  lemma UniqueOwner(hands: seq<seq<Card>>, c: Card, p: nat, q: nat)
    requires Union(hands)[c] == 1 && p < |hands| && q < |hands|
    requires c in hands[p] && c in hands[q]
    ensures p == q
  {
    if p < q {
      UnionHas(hands, p, q, c);
    } else if q < p {
      UnionHas(hands, q, p, c);
    }
  }
}
