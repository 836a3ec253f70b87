/**
 * The matchmaking queue: people waiting for a game, in the order they
 * arrived. The longest-waiting entry hosts the queue. Anyone in it may start
 * a game, either with the first seven (the starter moved to the front) or
 * with a chosen group of two to seven. The seated entries leave the queue.
 */
module Matchmaking {
  import opened Options
  import opened Seqs
  import opened Cards
  import opened Legality
  import opened Players
  import opened Scoring
  import opened Bot
  import opened Transitions
  import opened Rooms

  /** One waiting connection; `joinedAt` is the time it joined. */
  datatype Entry = Entry(socketId: string, name: string, joinedAt: int)

  /** One line of the queue listing sent to everyone in it. */
  datatype QueueLine = QueueLine(id: string, name: string, isHost: bool, position: nat, joinedAt: int)

  datatype Refusal = NotQueued | TooFewQueued | TooManySelected

  /** The answer to a start request: the group to seat, host first, or a refusal. */
  datatype Start = Started(lineup: seq<Entry>) | Refused(why: Refusal)

  /** A matched game needs at least two people. */
  const MinMatch := 2

  predicate IdsUnique(es: seq<Entry>) {
    forall i, j :: 0 <= i < j < |es| ==> es[i].socketId != es[j].socketId
  }

  function SocketIds(es: seq<Entry>): seq<string> {
    seq(|es|, k requires 0 <= k < |es| => es[k].socketId)
  }

  predicate Queued(es: seq<Entry>, id: string) {
    exists e :: e in es && e.socketId == id
  }

  /** The first entry with the given id, as `findIndex` finds it. */
  function IndexOfEntry(es: seq<Entry>, id: string): (r: Option<nat>)
    ensures r.Some? ==> r.value < |es| && es[r.value].socketId == id
    ensures r.Some? ==> forall j :: 0 <= j < r.value ==> es[j].socketId != id
    ensures r.None? <==> !Queued(es, id)
  {
    if es == [] then None
    else if es[0].socketId == id then Some(0)
    else
      match IndexOfEntry(es[1..], id)
      case None => None
      case Some(k) => Some(k + 1)
  }

  /** The queue after `removeFromMatchmaking`: the first entry with the id is spliced out. */
  function Without(es: seq<Entry>, id: string): seq<Entry> {
    match IndexOfEntry(es, id)
    case None => es
    case Some(k) => es[..k] + es[k + 1..]
  }

  /** The entries whose id is not among `ids`, in queue order. */
  function Unchosen(es: seq<Entry>, ids: seq<string>): seq<Entry> {
    if es == [] then []
    else (if es[0].socketId in ids then [] else [es[0]]) + Unchosen(es[1..], ids)
  }

  /** The listing: every entry with its place in line, and the first one as host. */
  function Listing(es: seq<Entry>): seq<QueueLine> {
    seq(|es|, k requires 0 <= k < |es| => QueueLine(es[k].socketId, es[k].name, k == 0, k + 1, es[k].joinedAt))
  }

  /** The queue's host: the entry that has waited longest. */
  function QueueHost(es: seq<Entry>): Option<string> {
    if es == [] then None else Some(es[0].socketId)
  }

  /** The group with the entry of `actor` moved to the front and the rest in queue order. */
  function StarterFirst(es: seq<Entry>, actor: string): seq<Entry> {
    match IndexOfEntry(es, actor)
    case Some(k) => if k > 0 then ToFront(es, k) else es
    case None => es
  }

  /** Entry `k` first, then the others in their order. */
  function ToFront(es: seq<Entry>, k: nat): seq<Entry>
    requires k < |es|
  {
    [es[k]] + es[..k] + es[k + 1..]
  }

  /** The first seven of the queue once the starter is at the front. */
  function Lineup(es: seq<Entry>, actor: string): seq<Entry> {
    var all := StarterFirst(es, actor);
    if |all| <= MaxPlayers then all else all[..MaxPlayers]
  }

  /** The entries `startMatchmakingGameWithSelected` seats: those chosen, and the starter. */
  function Selected(es: seq<Entry>, chosen: seq<string>, actor: string): seq<Entry> {
    Filter(es, (e: Entry) => e.socketId in chosen || e.socketId == actor)
  }

  /** The seats of the new room: every member of the group, as a newcomer. */
  function Arrivals(lineup: seq<Entry>): seq<Player> {
    seq(|lineup|, k requires 0 <= k < |lineup| => Newcomer(lineup[k].socketId, lineup[k].name))
  }

  // ---------------------------------------------------------------------------
  // Properties of the queue functions
  // ---------------------------------------------------------------------------

  /** The listing numbers the queue from one and marks exactly its first entry as host. */
  lemma ListingNumbers(es: seq<Entry>)
    ensures |Listing(es)| == |es|
    ensures forall k :: 0 <= k < |es| ==>
      Listing(es)[k].position == k + 1 && (Listing(es)[k].isHost <==> k == 0) && Listing(es)[k].id == es[k].socketId
    ensures QueueHost(es).Some? <==> es != []
    ensures QueueHost(es).Some? ==> Listing(es)[0].isHost && Listing(es)[0].id == QueueHost(es).value
  {
  }

  /** In a queue without repeated ids, leaving takes out exactly the entry with the id. */
  lemma {:induction false} WithoutUnique(es: seq<Entry>, id: string)
    requires IdsUnique(es)
    ensures Without(es, id) == Unchosen(es, [id])
    ensures IdsUnique(Without(es, id))
    ensures !Queued(Without(es, id), id)
  {
    match IndexOfEntry(es, id)
    case None =>
      UnchosenAbsent(es, [id]);
    case Some(k) =>
      var before, after := es[..k], es[k + 1..];
      forall e | e in after ensures e.socketId != id {
        var j :| 0 <= j < |after| && after[j] == e;
        assert es[k + 1 + j] == e;
      }
      assert es == before + ([es[k]] + after);
      SpliceOnly(before, es[k], after);
    UnchosenMembers(es, [id]);
  }

  /** Splicing out the only entry with the id is taking out that id. */
  lemma {:induction false} SpliceOnly(before: seq<Entry>, x: Entry, after: seq<Entry>)
    requires forall e :: e in before ==> e.socketId != x.socketId
    requires forall e :: e in after ==> e.socketId != x.socketId
    ensures before + after == Unchosen(before + ([x] + after), [x.socketId])
  {
    var ids := [x.socketId];
    var rest := [x] + after;
    assert Unchosen(rest, ids) == after by {
      UnchosenAppend([x], after, ids);
      UnchosenOwn(x);
      UnchosenOthers(after, x.socketId);
      assert [] + after == after;
    }
    UnchosenAppend(before, rest, ids);
    UnchosenOthers(before, x.socketId);
  }

  lemma UnchosenOwn(x: Entry)
    ensures Unchosen([x], [x.socketId]) == []
  {
    assert [x][1..] == [];
  }

  /** Taking out an id nobody in `es` has leaves `es` as it is. */
  lemma {:induction false} UnchosenOthers(es: seq<Entry>, id: string)
    requires forall e :: e in es ==> e.socketId != id
    ensures Unchosen(es, [id]) == es
  {
    UnchosenAbsent(es, [id]);
  }

  /** Taking out ids from two runs of entries is taking them out of each. */
  lemma {:induction false} UnchosenAppend(a: seq<Entry>, b: seq<Entry>, ids: seq<string>)
    ensures Unchosen(a + b, ids) == Unchosen(a, ids) + Unchosen(b, ids)
  {
    if a == [] {
      assert a + b == b;
    } else {
      assert (a + b)[1..] == a[1..] + b;
      UnchosenAppend(a[1..], b, ids);
    }
  }

  /** When no id in `es` is among `ids`, nothing is taken out. */
  lemma {:induction false} UnchosenAbsent(es: seq<Entry>, ids: seq<string>)
    requires forall e :: e in es ==> e.socketId !in ids
    ensures Unchosen(es, ids) == es
  {
    if es != [] {
      UnchosenAbsent(es[1..], ids);
      assert es == [es[0]] + es[1..];
    }
  }

  /** Taking out the ids of `a` and then those of `b` is taking out those of both. */
  lemma {:induction false} UnchosenTwice(es: seq<Entry>, a: seq<string>, b: seq<string>)
    ensures Unchosen(Unchosen(es, a), b) == Unchosen(es, a + b)
  {
    if es != [] {
      UnchosenTwice(es[1..], a, b);
      var x := es[0].socketId;
      assert x in a + b <==> x in a || x in b;
      if x in a {
        assert Unchosen(es, a) == Unchosen(es[1..], a);
      } else {
        var u := Unchosen(es, a);
        assert u == [es[0]] + Unchosen(es[1..], a);
        assert u[0] == es[0] && u[1..] == Unchosen(es[1..], a);
      }
    }
  }

  /** What is left is exactly the entries whose id is not among `ids`, and no id repeats. */
  lemma {:induction false} UnchosenMembers(es: seq<Entry>, ids: seq<string>)
    ensures forall e :: e in Unchosen(es, ids) <==> e in es && e.socketId !in ids
    ensures IdsUnique(es) ==> IdsUnique(Unchosen(es, ids))
  {
    if es != [] {
      UnchosenMembers(es[1..], ids);
      assert es == [es[0]] + es[1..];
      if IdsUnique(es) {
        assert IdsUnique(es[1..]);
        var rest := Unchosen(es[1..], ids);
        forall j | 0 <= j < |rest| ensures rest[j].socketId != es[0].socketId {
          assert rest[j] in es[1..];
          var i :| 0 <= i < |es[1..]| && es[1..][i] == rest[j];
          assert es[i + 1] == rest[j];
        }
      }
    }
  }

  /**
   * Moving the starter to the front reorders the queue and nothing more:
   * same entries, the starter first, no id repeated.
   */
  lemma {:induction false} StarterFirstShape(es: seq<Entry>, actor: string)
    requires Queued(es, actor) && IdsUnique(es)
    ensures var all := StarterFirst(es, actor);
      && |all| == |es| && multiset(all) == multiset(es)
      && all[0].socketId == actor && IdsUnique(all)
  {
    var k := IndexOfEntry(es, actor).value;
    if k > 0 {
      MoveToFront(es, k);
    }
  }

  /** Entry `k` moved to the front: the same entries, and no id repeated if none was. */
  lemma MoveToFront(es: seq<Entry>, k: nat)
    requires 0 < k < |es|
    ensures var all := ToFront(es, k);
      && |all| == |es| && all[0] == es[k] && multiset(all) == multiset(es)
      && (IdsUnique(es) ==> IdsUnique(all))
  {
    assert multiset(ToFront(es, k)) == multiset(es) by {
      assert es == es[..k] + [es[k]] + es[k + 1..];
    }
    if IdsUnique(es) {
      MovedUnique(es, k);
    }
  }

  lemma MovedUnique(es: seq<Entry>, k: nat)
    requires 0 < k < |es| && IdsUnique(es)
    ensures IdsUnique(ToFront(es, k))
  {
    var all := ToFront(es, k);
    MovedPlaces(es, k);
    forall i, j | 0 <= i < j < |all| ensures all[i].socketId != all[j].socketId {
      assert Origin(i, k) != Origin(j, k);
    }
  }

  /** After the move, each place holds the entry from its `Origin`. */
  lemma MovedPlaces(es: seq<Entry>, k: nat)
    requires 0 < k < |es|
    ensures |ToFront(es, k)| == |es|
    ensures forall i :: 0 <= i < |es| ==> Origin(i, k) < |es| && ToFront(es, k)[i] == es[Origin(i, k)]
  {
  }

  /** Where the entry at place `i` stood before entry `k` moved to the front. */
  function Origin(i: nat, k: nat): nat {
    if i == 0 then k else if i <= k then i - 1 else i
  }

  /**
   * The group seated by the quick start: the starter first, at most seven,
   * all from the queue, no id twice, and the whole queue when it is short.
   */
  lemma {:induction false} LineupShape(es: seq<Entry>, actor: string)
    requires Queued(es, actor) && IdsUnique(es)
    ensures var l := Lineup(es, actor);
      && |l| == (if |es| <= MaxPlayers then |es| else MaxPlayers)
      && l[0].socketId == actor && IdsUnique(l)
      && (forall e :: e in l ==> e in es)
      && (|es| <= MaxPlayers ==> multiset(l) == multiset(es))
  {
    var all := StarterFirst(es, actor);
    StarterFirstShape(es, actor);
    var l := Lineup(es, actor);
    forall e | e in l ensures e in es {
      assert e in multiset(all);
    }
  }

  /** The chosen group holds exactly the queued entries that were chosen, and the starter's. */
  lemma {:induction false} SelectedMembers(es: seq<Entry>, chosen: seq<string>, actor: string)
    requires IdsUnique(es)
    ensures forall e :: e in Selected(es, chosen, actor) <==> e in es && (e.socketId in chosen || e.socketId == actor)
    ensures IdsUnique(Selected(es, chosen, actor))
    ensures Queued(es, actor) ==> Queued(Selected(es, chosen, actor), actor)
  {
    FilterMembers(es, (e: Entry) => e.socketId in chosen || e.socketId == actor);
    SelectedUnique(es, chosen, actor);
  }

  lemma {:induction false} SelectedUnique(es: seq<Entry>, chosen: seq<string>, actor: string)
    requires IdsUnique(es)
    ensures IdsUnique(Selected(es, chosen, actor))
  {
    if es != [] {
      SelectedUnique(es[1..], chosen, actor);
      FilterMembers(es[1..], (e: Entry) => e.socketId in chosen || e.socketId == actor);
      var rest := Selected(es[1..], chosen, actor);
      forall j | 0 <= j < |rest| ensures rest[j].socketId != es[0].socketId {
        assert rest[j] in es[1..];
        var i :| 0 <= i < |es[1..]| && es[1..][i] == rest[j];
        assert es[i + 1] == rest[j];
      }
    }
  }

  // ---------------------------------------------------------------------------
  // The queue
  // ---------------------------------------------------------------------------

  class Queue {
    var entries: seq<Entry>

    /** No connection is queued twice. */
    ghost predicate Valid()
      reads this
    {
      IdsUnique(entries)
    }

    constructor ()
      ensures entries == [] && Valid()
    {
      entries := [];
    }

    /** `removeFromMatchmaking`: the entry with the id, if any, leaves and is answered. */
    method Remove(id: string) returns (removed: Option<Entry>)
      requires Valid()
      modifies this
      ensures Valid()
      ensures entries == Without(old(entries), id) && !Queued(entries, id)
      ensures removed.None? <==> !Queued(old(entries), id)
      ensures removed.Some? ==> removed.value in old(entries) && removed.value.socketId == id
    {
      WithoutUnique(entries, id);
      var k := IndexOfEntry(entries, id);
      if k.None? {
        return None;
      }
      removed := Some(entries[k.value]);
      entries := entries[..k.value] + entries[k.value + 1..];
    }

    /** `addToMatchmaking`: an earlier entry of the connection is dropped and a new one joins at the back. */
    method Add(id: string, name: string, now: int)
      requires Valid()
      modifies this
      ensures Valid()
      ensures entries == Without(old(entries), id) + [Entry(id, name, now)]
    {
      var _ := Remove(id);
      entries := entries + [Entry(id, name, now)];
    }

    /** The ids of `ids` leave the queue one after another. */
    method RemoveEach(ids: seq<string>)
      requires Valid()
      modifies this
      ensures Valid()
      ensures entries == Unchosen(old(entries), ids)
    {
      ghost var start := entries;
      assert Unchosen(start, ids[..0]) == start by {
        UnchosenAbsent(start, []);
      }
      for k := 0 to |ids|
        invariant Valid()
        invariant entries == Unchosen(start, ids[..k])
      {
        ghost var before := entries;
        WithoutUnique(before, ids[k]);
        UnchosenTwice(start, ids[..k], [ids[k]]);
        assert ids[..k] + [ids[k]] == ids[..k + 1];
        var _ := Remove(ids[k]);
      }
      assert ids[..|ids|] == ids;
    }

    /**
     * `startMatchmakingGame`: refused unless the starter is queued and at
     * least two are; otherwise the first seven, starter first, are seated
     * and leave the queue, which keeps everyone else in order.
     */
    method StartGame(actor: string) returns (r: Start)
      requires Valid()
      modifies this
      ensures Valid()
      ensures !Queued(old(entries), actor) ==> r == Refused(NotQueued)
      ensures Queued(old(entries), actor) && |old(entries)| < MinMatch ==> r == Refused(TooFewQueued)
      ensures r.Started? <==> Queued(old(entries), actor) && |old(entries)| >= MinMatch
      ensures r.Refused? ==> entries == old(entries)
      ensures r.Started? ==>
        && r.lineup == Lineup(old(entries), actor)
        && entries == Unchosen(old(entries), SocketIds(r.lineup))
    {
      if IndexOfEntry(entries, actor).None? {
        return Refused(NotQueued);
      }
      if |entries| < MinMatch {
        return Refused(TooFewQueued);
      }
      var lineup := Lineup(entries, actor);
      RemoveEach(SocketIds(lineup));
      r := Started(lineup);
    }

    /**
     * `startMatchmakingGameWithSelected`: refused unless the starter is
     * queued, and unless the chosen entries with the starter number two to
     * seven; otherwise they are seated, starter first, and leave the queue.
     */
    method StartWithSelected(actor: string, chosen: seq<string>) returns (r: Start)
      requires Valid()
      modifies this
      ensures Valid()
      ensures var sel := Selected(old(entries), chosen, actor);
        && (!Queued(old(entries), actor) ==> r == Refused(NotQueued))
        && (Queued(old(entries), actor) && |sel| < MinMatch ==> r == Refused(TooFewQueued))
        && (Queued(old(entries), actor) && |sel| > MaxPlayers ==> r == Refused(TooManySelected))
        && (r.Started? <==> Queued(old(entries), actor) && MinMatch <= |sel| <= MaxPlayers)
        && (r.Refused? ==> entries == old(entries))
        && (r.Started? ==>
              && r.lineup == StarterFirst(sel, actor)
              && entries == Unchosen(old(entries), SocketIds(r.lineup)))
    {
      if IndexOfEntry(entries, actor).None? {
        return Refused(NotQueued);
      }
      var sel := Selected(entries, chosen, actor);
      if |sel| < MinMatch {
        return Refused(TooFewQueued);
      }
      if |sel| > MaxPlayers {
        return Refused(TooManySelected);
      }
      var lineup := StarterFirst(sel, actor);
      RemoveEach(SocketIds(lineup));
      r := Started(lineup);
    }
  }

  /**
   * The room a matched group plays in, as `createRoom` makes it for the
   * first member with every other member seated after: a quick game in the
   * lobby, hosted by the first member.
   */
  method OpenRoom(code: string, lineup: seq<Entry>, now: int) returns (room: Room)
    requires 0 < |lineup| <= MaxPlayers
    ensures fresh(room) && room.Consistent()
    ensures room.Data() == RoomState(code, lineup[0].socketId, Arrivals(lineup), Lobby, "quick", 0, 0,
                                     None, EmptyTableau, None, 1, false, [], None, [], Dumb, false, now)
  {
    room := new Room(code, lineup[0].socketId, lineup[0].name, now);
    for i := 1 to |lineup|
      invariant room.Data() == RoomState(code, lineup[0].socketId, Arrivals(lineup[..i]), Lobby, "quick", 0, 0,
                                         None, EmptyTableau, None, 1, false, [], None, [], Dumb, false, now)
    {
      assert Arrivals(lineup[..i + 1]) == Arrivals(lineup[..i]) + [Newcomer(lineup[i].socketId, lineup[i].name)];
      room.Seat(Newcomer(lineup[i].socketId, lineup[i].name), now);
    }
    assert lineup[..|lineup|] == lineup;
  }

  /** Every member of the group gets a seat, in the group's order, and the first hosts. */
  lemma ArrivalsSeatEveryone(lineup: seq<Entry>)
    requires lineup != []
    ensures var ps := Arrivals(lineup);
      && PlayerIds(ps) == SocketIds(lineup)
      && ps[0].id == lineup[0].socketId
      && forall p :: p in ps ==> !p.isBot && p.connected && p.hand == [] && p.score == 0
  {
    var ps := Arrivals(lineup);
    assert forall k :: 0 <= k < |ps| ==> PlayerIds(ps)[k] == SocketIds(lineup)[k];
  }
}
