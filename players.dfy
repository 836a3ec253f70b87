/**
 * The people (and robots) at a table: their record, how names are compared,
 * how a player is found by id or name, and how a robot gets its name.
 */
module Players {
  import opened Options
  import opened Seqs
  import opened Cards

  /**
   * One seat. `id` is the connection id of a human or a generated id of a
   * robot; `disconnectedAt` is the time the connection dropped, if it has.
   */
  datatype Player = Player(
    id: string,
    name: string,
    hand: seq<Card>,
    score: nat,
    connected: bool,
    isBot: bool,
    disconnectedAt: Option<int>)

  /** A human who has just sat down: no cards, no points, connected. */
  function Newcomer(id: string, name: string): Player {
    Player(id, name, [], 0, true, false, None)
  }

  /** A robot as `addBot` seats it: no cards, no points, connected. */
  function Robot(id: string, name: string): Player {
    Player(id, name, [], 0, true, true, None)
  }

  // ---------------------------------------------------------------------------
  // Names compare without regard to case
  // ---------------------------------------------------------------------------

  /** Lower case for the Basic Latin and Latin-1 letters. */
  function LowerChar(ch: char): char {
    if 'A' <= ch <= 'Z' || ('\U{C0}' <= ch <= '\U{DE}' && ch != '\U{D7}') then
      (ch as int + 32) as char
    else
      ch
  }

  function Lower(s: string): string {
    seq(|s|, i requires 0 <= i < |s| => LowerChar(s[i]))
  }

  predicate SameName(a: string, b: string) {
    Lower(a) == Lower(b)
  }

  /** Lower-casing twice changes nothing more, so comparing lower-cased names is stable. */
  lemma LowerIdempotent(s: string)
    ensures Lower(Lower(s)) == Lower(s)
  {
    forall i | 0 <= i < |s|
      ensures LowerChar(LowerChar(s[i])) == LowerChar(s[i])
    {
    }
  }

  predicate NameTaken(ps: seq<Player>, name: string) {
    exists p :: p in ps && SameName(p.name, name)
  }

  /** No two seats carry the same name, ignoring case. */
  ghost predicate NamesDistinct(ps: seq<Player>) {
    forall i, j :: 0 <= i < j < |ps| ==> !SameName(ps[i].name, ps[j].name)
  }

  /** The names at the table, in seat order. */
  function Names(ps: seq<Player>): seq<string> {
    seq(|ps|, i requires 0 <= i < |ps| => ps[i].name)
  }

  /** A name nobody at the table wears is not taken. */
  lemma UnwornNotTaken(ps: seq<Player>, name: string)
    requires Unworn(Names(ps), name)
    ensures !NameTaken(ps, name)
  {
    forall p | p in ps ensures !SameName(p.name, name) {
      var i :| 0 <= i < |ps| && ps[i] == p;
      assert Names(ps)[i] in Names(ps);
    }
  }

  /** Seating a player whose name is not taken keeps the names distinct. */
  lemma SeatFreshName(ps: seq<Player>, p: Player)
    requires NamesDistinct(ps) && !NameTaken(ps, p.name)
    ensures NamesDistinct(ps + [p])
  {
    forall i, j | 0 <= i < j < |ps| + 1
      ensures !SameName((ps + [p])[i].name, (ps + [p])[j].name)
    {
      if j == |ps| {
        assert ps[i] in ps;
      }
    }
  }

  // ---------------------------------------------------------------------------
  // Finding a seat
  // ---------------------------------------------------------------------------

  /** The first seat with the given id, as `findIndex` finds it. */
  function IndexOfId(ps: seq<Player>, id: string): (r: Option<nat>)
    ensures r.Some? ==> r.value < |ps| && ps[r.value].id == id
    ensures r.Some? ==> forall j :: 0 <= j < r.value ==> ps[j].id != id
    ensures r.None? <==> forall p :: p in ps ==> p.id != id
  {
    if ps == [] then None
    else if ps[0].id == id then Some(0)
    else
      match IndexOfId(ps[1..], id)
      case None => None
      case Some(k) => Some(k + 1)
  }

  /** The first robot seat with the given id. */
  function IndexOfBot(ps: seq<Player>, id: string): (r: Option<nat>)
    ensures r.Some? ==> r.value < |ps| && ps[r.value].id == id && ps[r.value].isBot
    ensures r.Some? ==> forall j :: 0 <= j < r.value ==> !(ps[j].id == id && ps[j].isBot)
    ensures r.None? <==> forall p :: p in ps ==> !(p.id == id && p.isBot)
  {
    if ps == [] then None
    else if ps[0].id == id && ps[0].isBot then Some(0)
    else
      match IndexOfBot(ps[1..], id)
      case None => None
      case Some(k) => Some(k + 1)
  }

  /** The first seat whose name matches, ignoring case. */
  function IndexOfName(ps: seq<Player>, name: string): (r: Option<nat>)
    ensures r.Some? ==> r.value < |ps| && SameName(ps[r.value].name, name)
    ensures r.Some? ==> forall j :: 0 <= j < r.value ==> !SameName(ps[j].name, name)
    ensures r.None? <==> !NameTaken(ps, name)
  {
    if ps == [] then None
    else if SameName(ps[0].name, name) then Some(0)
    else
      match IndexOfName(ps[1..], name)
      case None => None
      case Some(k) => Some(k + 1)
  }

  /** The first human seat. */
  function IndexOfHuman(ps: seq<Player>): (r: Option<nat>)
    ensures r.Some? ==> r.value < |ps| && !ps[r.value].isBot
    ensures r.Some? ==> forall j :: 0 <= j < r.value ==> ps[j].isBot
    ensures r.None? <==> forall p :: p in ps ==> p.isBot
  {
    if ps == [] then None
    else if !ps[0].isBot then Some(0)
    else
      match IndexOfHuman(ps[1..])
      case None => None
      case Some(k) => Some(k + 1)
  }

  /** The first seat equal to `x`, as `indexOf` finds a seat object. */
  function IndexOfSeat(ps: seq<Player>, x: Player): (r: Option<nat>)
    ensures r.Some? ==> r.value < |ps| && ps[r.value] == x
    ensures r.None? <==> x !in ps
  {
    if ps == [] then None
    else if ps[0] == x then Some(0)
    else
      match IndexOfSeat(ps[1..], x)
      case None => None
      case Some(k) => Some(k + 1)
  }

  function RemoveAt(ps: seq<Player>, i: nat): (r: seq<Player>)
    requires i < |ps|
    ensures |r| == |ps| - 1
    ensures forall j :: 0 <= j < i ==> r[j] == ps[j]
    ensures forall j :: i <= j < |r| ==> r[j] == ps[j + 1]
  {
    ps[..i] + ps[i + 1..]
  }

  // ---------------------------------------------------------------------------
  // Robot names
  // ---------------------------------------------------------------------------

  const BotNames: seq<string> := [
    "Dave", "Deckard", "Roy", "Pris", "Leon", "Rachael", "Kirsh", "Anna",
    "R2-D2", "HAL-9000", "Mathilda", "C-3PO", "Ash 120-A/2", "Bishop",
    "Chappie", "M3GAN", "Gort", "Dalek", "Bender", "Ava", "Data", "T-800",
    "T-1000", "Wall-E", "Mother", "Marvin", "Astro Boy", "K-2SO", "Daneel",
    "Hadaly", "J\U{E4}rnj\U{E4}tten", "Dot Matrix", "KITT", "TARS", "ED-209",
    "Baymax", "Mazinger Z", "Sonny", "GLaDOS", "Megatron", "Optimus Prime",
    "Maria", "SAL-9000", "Twiki", "Mimus", "Maskinen", "Pl\U{E5}tniklas",
    "Atari ST", "Amiga", "ZX Spectrum", "Commodore 64", "PC", "Macintosh",
    "VIC-20"
  ]

  /** Decimal text of a natural number. */
  function NatText(n: nat): (r: string)
    ensures r != [] && forall i :: 0 <= i < |r| ==> '0' <= r[i] <= '9'
  {
    if n < 10 then [Digit(n)] else NatText(n / 10) + [Digit(n % 10)]
  }

  /** The number a string of decimal digits denotes. */
  function DigitsValue(s: string): nat
    requires forall i :: 0 <= i < |s| ==> '0' <= s[i] <= '9'
  {
    if s == [] then 0 else 10 * DigitsValue(s[..|s| - 1]) + (s[|s| - 1] as int - '0' as int)
  }

  /**
   * The decimal text reads back as the number it was written from, and has no
   * leading zero except for zero itself; so different numbers get different texts.
   */
  lemma {:induction false} NatTextValue(n: nat)
    ensures DigitsValue(NatText(n)) == n
    ensures NatText(n)[0] == '0' ==> n == 0
  {
    var r := NatText(n);
    if n >= 10 {
      NatTextValue(n / 10);
      assert r[..|r| - 1] == NatText(n / 10);
      assert r[0] == NatText(n / 10)[0];
    }
  }

  lemma NatTextInjective(a: nat, b: nat)
    requires NatText(a) == NatText(b)
    ensures a == b
  {
    NatTextValue(a);
    NatTextValue(b);
  }

  /** No one at the table wears `name`, ignoring case. */
  predicate Unworn(existing: seq<string>, name: string) {
    forall e :: e in existing ==> !SameName(e, name)
  }

  /** The names of `names` not yet worn by anyone at the table. */
  function UnwornNames(names: seq<string>, existing: seq<string>): seq<string> {
    Filter(names, name => Unworn(existing, name))
  }

  /**
   * The name a new robot gets. `pick` and `fallback` stand for the random
   * draws: a free name from the list, or "Bot-" and a number below 1000 when
   * every name is taken.
   */
  function BotName(existing: seq<string>, pick: nat, fallback: nat): string {
    var available := UnwornNames(BotNames, existing);
    if |available| == 0 then "Bot-" + NatText(fallback % 1000) else available[pick % |available|]
  }

  /** Whichever free name is drawn, it comes from the list and nobody at the table wears it. */
  lemma DrawnNameIsFree(names: seq<string>, existing: seq<string>, pick: nat)
    requires UnwornNames(names, existing) != []
    ensures var available := UnwornNames(names, existing);
      available[pick % |available|] in names && Unworn(existing, available[pick % |available|])
  {
    var available := UnwornNames(names, existing);
    FilterMembers(names, name => Unworn(existing, name));
    assert available[pick % |available|] in available;
  }

  /** A robot gets a listed name nobody at the table wears, and a numbered name only when the list is used up. */
  lemma BotNameIsFree(existing: seq<string>, pick: nat, fallback: nat)
    ensures var name := BotName(existing, pick, fallback);
      && (UnwornNames(BotNames, existing) != [] ==> name in BotNames && Unworn(existing, name))
      && (UnwornNames(BotNames, existing) == [] ==> name == "Bot-" + NatText(fallback % 1000))
  {
    if UnwornNames(BotNames, existing) != [] {
      DrawnNameIsFree(BotNames, existing, pick);
    }
  }

  /** A robot seated while a listed name is still free keeps the names at the table distinct. */
  lemma SeatRobotKeepsNamesDistinct(ps: seq<Player>, id: string, pick: nat, fallback: nat)
    requires NamesDistinct(ps) && UnwornNames(BotNames, Names(ps)) != []
    ensures NamesDistinct(ps + [Robot(id, BotName(Names(ps), pick, fallback))])
  {
    var name := BotName(Names(ps), pick, fallback);
    BotNameIsFree(Names(ps), pick, fallback);
    UnwornNotTaken(ps, name);
    SeatFreshName(ps, Robot(id, name));
  }
}
