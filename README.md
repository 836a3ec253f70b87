# Asken — a verified model of the game rules

Asken is a Swedish card game of the "sevens" family, played in rooms of three
to seven seats, some of which may be robots. A round starts with the seven of
spades. After that, each suit grows as a run outward from its seven: a card
may be laid when it is the seven of an unopened suit or sits right next to an
end of its suit's run. A player who can lay a card must do so. A player who
cannot lay one passes and takes the *asken*, which costs 50 points. The round
ends when somebody's hand is empty. Every player then scores the penalty
points still in hand: 25 for an ace, 10 for ten to king, 5 for the rest. The
lowest round totals win the round.

The project models the rule core of the server (`server/index.js`), module by
module:

| module | file | what it holds |
|---|---|---|
| `Options` | options.dfy | the `Option` type |
| `Seqs` | seqs.dfy | `Filter` over sequences and its membership and count lemmas |
| `Cards` | cards.dfy | cards and their ids, the deck, hand sorting, card points |
| `Legality` | legality.dfy | the table (a run per suit), `canPlayCard`, `canBePartOfSequence`, ordering a selection, why a card cannot be laid |
| `Dealing` | dealing.dfy | dealing round-robin from the seat after the dealer |
| `Players` | players.dfy | seats, case-insensitive names, seat lookup, robot names |
| `Scoring` | scoring.dfy | the round score lines, round winners, game over |
| `Bot` | bot.dfy | the robot's three playing tiers |
| `Transitions` | transitions.dfy | a room as a value, and each step of play as a function on it: deal, lay, pass, end of round, cleanup, leave, rejoin |
| `Rooms` | rooms.dfy | the `Room` class: one method per socket handler, changing the room's fields in place |
| `Views` | views.dfy | the per-player snapshot the server broadcasts |
| `Matchmaking` | matchmaking.dfy | the matchmaking queue class and opening a room for a matched group |

The imperative parts of the server stay imperative:
- `createDeck`, `getPlayableOrder`, the dealing loop and the robot's search are methods with loops and invariants.
- Every handler is a method of `Room` that updates fields.
- The matchmaking queue is a class whose entry list the methods reassign.

Every such method is proved against a specification on values: a function its result or new state equals, or, for the robot's choice among equally good moves, a predicate that determines the move. For example, `Room.PlayCards` ends in `Data() == AfterPlay(old(Data()), i, played, now)`, `GetPlayableOrder` returns `GreedyOrder(selected, t)`, and `EnumerateSequences` returns `Enumeration(cands, t)`. The lemmas about those functions carry the rules of the game: dealing partitions the deck, a play only widens the table, and the winners are exactly the lowest totals.

Inputs that the server takes from the outside world are parameters:
- the shuffled deck;
- the dumb robot's random pick;
- the robot-name draws;
- the room code;
- the current time `now`;
- the ids of new robots.

## Model

| member | source | states |
|---|---|---|
| Cards.SuitOrder | server/index.js:894 | each suit has its own place, below four, in the order spades, hearts, clubs, diamonds |
| Cards.ParseId | server/index.js:900-908 | an id that parses names the card whose id it is |
| Cards.ParseIdOfId | server/index.js:900-908 | every card's id `suit-rank` parses back to that card |
| Cards.IdInjective | server/index.js:900-908 | two cards have the same id exactly when they are the same card, so looking a card up by id finds that card |
| Cards.CompareIsKeyOrder | server/index.js:919-927 | the sort comparison puts a card first exactly when its suit comes earlier, or the suit is the same and its rank is lower; it is zero only for equal cards |
| Cards.CreateDeck | server/index.js:900-908 | the deck has 52 cards, holds every card exactly once, and is laid out suit by suit, ace to king |
| Cards.InsertSorted | server/index.js:919-927 | inserting a card into a sorted hand keeps it sorted and adds exactly that card |
| Cards.SortHandSorts | server/index.js:919-927 | a sorted hand is in suit-then-rank order and holds exactly the cards of the hand |
| Cards.SortedUnique | server/index.js:919-927 | two sorted arrangements of the same cards are equal, so the sorted hand does not depend on the deal order |
| Cards.HandPointsAppend | server/index.js:929-933 | the points of two hands together are the sum of their points |
| Cards.HandPointsBounds | server/index.js:929-933 | a hand costs between 5 and 25 points per card, and nothing exactly when it is empty |
| Cards.HandPointsPermutation | server/index.js:929-933 | a hand's points do not depend on the order of its cards |
| Legality.PlayableIsPartOfSequence | server/index.js:984-1043 | a card that may be laid now can also be part of a sequence |
| Legality.SequenceCardIffPlayableCard | server/index.js:984-1043 | a hand has a card that can be part of a sequence exactly when it has a card that may be laid now |
| Legality.ApplyPlayable | server/index.js:2149-2160 | laying a legal card opens its suit at 7-7 or moves one end of its run out by exactly one; runs stay intervals in 1..13 containing 7, the card is on the table, and no other suit changes |
| Legality.PlayableNotCovered | server/index.js:984-997 | a card that may be laid is not on the table already |
| Legality.ExtendsTransitive | server/index.js:2149-2160 | a table only widened twice is a widening of the first |
| Legality.LayOnTable | server/index.js:2149-2160 | laying the cards one by one gives the table that the value-level sequence of plays gives |
| Legality.ValidSequenceSnoc | server/index.js:1104-1157 | a legal order followed by a card legal after it is a legal order |
| Legality.ValidSequenceExtends | server/index.js:1104-1157 | laying a legal order keeps every run valid, only widens the table, starts it, and puts every card of the order on it |
| Legality.ValidSequenceFresh | server/index.js:1104-1157 | a legal order has no card twice and none that was already on the table |
| Legality.ApplyKeepsValid | server/index.js:2149-2160 | laying a legal card keeps the table valid and started |
| Legality.Diamond | server/index.js:1104-1157 | two different cards that may both be laid now may be laid in either order, with the same table |
| Legality.Exchange | server/index.js:1104-1157 | in a legal order, a card that may be laid now can be laid first and the rest still follows legally |
| Legality.SolvableAfter | server/index.js:1104-1157 | laying any selected card that is legal now keeps the rest of the selection orderable when it was; this is why the greedy loop is complete |
| Legality.Stuck | server/index.js:1104-1157 | when none of the remaining cards may be laid, no order of them exists |
| Legality.FirstPlayableSpec | server/index.js:1131-1151 | the scan stops at a card that may be laid, and every card before it may not; it runs off the end only when none may be laid |
| Legality.ScanPlayable | server/index.js:1131-1151 | the inner `for` loop finds exactly the position `FirstPlayable` names |
| Legality.GreedyStep | server/index.js:1128-1154 | one round of the outer loop lays the first card that may be laid and goes on with the rest on the widened table, or gives up when there is none |
| Legality.GreedySound | server/index.js:1128-1156 | a greedy order lays exactly the given cards, each legal after those before it |
| Legality.GreedyComplete | server/index.js:1128-1156 | on a consistent, started table the greedy scan gives up only when no order of the cards can be laid |
| Legality.GreedyOrderSound | server/index.js:1104-1157 | any order found, including the lone seven of spades on an empty table, is a permutation of the selection laid legally |
| Legality.GreedyOrderSingle | server/index.js:1104-1157 | a single card is ordered exactly when it may be laid now, and then it is its own order |
| Legality.GetPlayableOrder | server/index.js:1104-1157 | the result is the greedy order itself (first layable card, splice, rescan from the front); it is none for an empty selection; on an empty table it is an order exactly for the lone seven of spades; any result is a permutation of the selection in which every card is legal after those before it; none on a started table means no such order exists |
| Legality.Classify | server/index.js:1046-1102 | a reason names its card; "must start with a seven" only for an unopened suit and a rank other than 7; "needs rank" names the end of the run on the card's side; "already on the table" only for a covered card |
| Legality.ClassifyMatchesCanPlay | server/index.js:1046-1102 | on a started table a card gets a reason exactly when it may not be laid now |
| Legality.NeededRankIsPlayable | server/index.js:1046-1102 | the rank a reason asks for is a rank from 1 to 13 that may be laid now |
| Legality.ReasonsFor | server/index.js:1046-1102 | the reasons are exactly those of the selected cards that cannot be laid |
| Legality.Explain | server/index.js:1046-1102 | "no cards selected" exactly for an empty selection; "cannot be played together" exactly when the selection is non-empty and no selected card has a reason of its own; otherwise the answer is a list of reasons holding exactly the reasons `Classify` gives the selected cards |
| Dealing.Piles | server/index.js:1507-1534 | dealing gives one pile per seat |
| Dealing.TurnNext | server/index.js:1512-1517 | the seat dealt to moves on by one, wrapping at the seat count |
| Dealing.PileSize | server/index.js:1507-1534 | each seat gets the deck size divided by the seat count, plus one for the seats served first in the remainder, counted from the seat after the dealer |
| Dealing.PileSizesWithinOne | server/index.js:1507-1534 | two hands dealt from the same deck differ in size by at most one |
| Dealing.PilesPartition | server/index.js:1507-1534 | the dealt piles together hold exactly the cards of the deck |
| Dealing.UniqueOwner | server/index.js:1507-1534 | a card that occurs once among the hands is held by one seat only |
| Players.LowerIdempotent | server/index.js:1774 | lower-casing a lower-cased name changes nothing |
| Players.UnwornNotTaken | server/index.js:95-103 | a name nobody at the table wears is not taken |
| Players.SeatFreshName | server/index.js:1774-1789 | seating a name that is not taken keeps the names at the table distinct, ignoring case |
| Players.IndexOfId | server/index.js:2101-2107 | the first seat with the id, and none exactly when no seat has it |
| Players.IndexOfBot | server/index.js:1938-1961 | the first robot seat with the id, and none exactly when there is no such robot |
| Players.IndexOfName | server/index.js:1817-1819 | the first seat whose name matches ignoring case, and none exactly when the name is not taken |
| Players.IndexOfHuman | server/index.js:2340 | the first human seat, and none exactly when every seat is a robot |
| Players.IndexOfSeat | server/index.js:2332 | the first seat equal to the given one, and none exactly when it is not seated |
| Players.RemoveAt | server/index.js:2335 | removing a seat keeps the seats before it and shifts those after it down by one |
| Players.NatText | server/index.js:100 | the decimal text of a number is non-empty and made of digits |
| Players.NatTextValue | server/index.js:100 | the decimal text reads back as the number it was written from, and starts with `0` only for zero |
| Players.NatTextInjective | server/index.js:100 | different numbers have different decimal texts |
| Players.DrawnNameIsFree | server/index.js:95-103 | whichever free name is drawn comes from the list and nobody at the table wears it |
| Players.BotNameIsFree | server/index.js:95-103 | a robot gets a listed name nobody wears while one is free, and `Bot-` with a number below 1000 only when the list is used up |
| Players.SeatRobotKeepsNamesDistinct | server/index.js:1903-1935 | seating a robot while a listed name is free keeps the names distinct |
| Scoring.LowestTotalIsLowest | server/index.js:2429 | the minimum exists exactly for a non-empty list, is no more than any total, and is one of the totals |
| Scoring.LowestLine | server/index.js:2429-2432 | a score line has the minimum total exactly when its seat's total is no more than any other seat's |
| Scoring.WinnerIsLowest | server/index.js:2428-2433 | with distinct ids, every round winner has a lowest round total |
| Scoring.LowestIsWinner | server/index.js:2428-2433 | every seat with a lowest round total is a round winner |
| Scoring.WinnersAreLowest | server/index.js:2428-2433 | with distinct ids, a seat wins the round exactly when its total is lowest |
| Scoring.WinnersNonEmpty | server/index.js:2428-2433 | a round with players has at least one winner |
| Scoring.RoundPointsAddUp | server/index.js:2409-2426 | for seats with distinct ids, the round totals add up to the points of all cards still held, plus 50 when the asken holder is seated |
| Scoring.GameOverStays | server/index.js:1427 | a finished game is still finished after another round is scored |
| Scoring.CreditedIds | server/index.js:2417 | crediting the scores keeps every seat's id |
| Scoring.WinnersIds | server/index.js:2430-2433 | the winning seats carry exactly the winning ids, in seat order |
| Bot.CandidatesMembers | server/index.js:1165 | the candidates are exactly the cards of the hand that can be part of a sequence |
| Bot.CandidatesIffPlayable | server/index.js:1165-1169 | the robot has candidates exactly when it holds a card that may be laid now |
| Bot.SingleCandidatePlayable | server/index.js:1172-1179 | a lone candidate may be laid now |
| Bot.CandidateNotYetPlayable | server/index.js:1172-1179 | a candidate need not be layable now: with 7 of spades on the table and 8 and 9 of spades in hand, the 9 is a candidate but only the 8 is legal |
| Bot.OfSuitMembers | server/index.js:1183-1187 | a suit group holds exactly the candidates of that suit |
| Bot.SingleCardOrder | server/index.js:1172-1179 | a lone legal card is a legal order of itself, and on an empty table it is the seven of spades |
| Bot.PlayableCandidate | server/index.js:1165-1169 | on a consistent table a robot with candidates has one it may lay now |
| Bot.SuitsSeenMembers | server/index.js:1183-1192 | the suit order lists exactly the candidates' suits, none twice |
| Bot.GroupBySuit | server/index.js:1183-1187 | the suits come in order of first appearance among the candidates, as `Object.keys` gives them; the groups are keyed by exactly those suits, and each group is that suit's candidates in hand order |
| Bot.SlicesMembers | server/index.js:1195-1203 | a slice entry is exactly a non-empty order of some contiguous slice |
| Bot.SlicesLegal | server/index.js:1195-1203 | every slice entry is a non-empty legal order of cards of the slice |
| Bot.SlicesNonEmpty | server/index.js:1195-1203 | a card that may be laid now yields a slice entry |
| Bot.SlicesStartingAt | server/index.js:1196-1203 | the inner `for` loop collects exactly the entries of the slices starting at `i`, by increasing end (`SlicesFrom`) |
| Bot.EnumerationMembers | server/index.js:1189-1213 | a sequence is weighed exactly when it is an entry of one suit's rank-sorted slices, or the order of all candidates when there are several and it lays more than one card |
| Bot.EnumerationLegal | server/index.js:1189-1213 | every weighed sequence is a non-empty legal order of candidates |
| Bot.EnumerationNonEmpty | server/index.js:1189-1213 | some sequence is weighed whenever a candidate may be laid now |
| Bot.SliceSequences | server/index.js:1192-1205 | the entries are the orders of the orderable contiguous slices, by start and then by end (`Slices`); each is a non-empty legal order of the suit's cards, and some slice is kept when one of them may be laid now |
| Bot.SlicesBySuit | server/index.js:1192-1205 | the loop over the suits collects, suit by suit in the given order, the slice entries of each rank-sorted group (`SuitSlices`) |
| Bot.EnumerateSequences | server/index.js:1189-1213 | the list is `Enumeration`: each suit's slice entries in order of first appearance, then the all-candidates entry; every option is a non-empty legal order of candidates, and there is one when any candidate may be laid now |
| Bot.PickMedium | server/index.js:1224-1240 | the pick has the largest `len*100 + points`, and it is the first such |
| Bot.ClearBonusWhenSuitGone | server/index.js:1297-1306 | playing every card of a suit that the robot holds earns the 25-point bonus |
| Bot.SmartScoreOf | server/index.js:1247-1307 | the loop computes the smart score of the option |
| Bot.EndsOf | server/index.js:1279-1295 | the loop sums the end bonuses of the option |
| Bot.ClearsOf | server/index.js:1297-1306 | the loop sums the clear bonuses of the option |
| Bot.PickSmart | server/index.js:1243-1315 | the pick has the largest smart score, and it is the first such |
| Bot.BotMoveUnique | server/index.js:1163-1319 | the move is determined by the hand, the table, the tier and the draw: the first option of greatest weight is unique |
| Bot.FallbackPasses | server/index.js:1215-1221 | when nothing is weighed, the fallback to the first candidate never lays it, since a layable candidate is itself a weighed slice |
| Bot.PickBest | server/index.js:1224-1315 | the medium or smart tier's pick is the first option of greatest weight |
| Bot.WeighedMove | server/index.js:1189-1315 | the medium and smart tiers weigh exactly `Enumeration` and play its first heaviest option; on a consistent table they always play, and every option is a legal order of cards from the hand |
| Bot.GetBotMove | server/index.js:1163-1319 | the move is the one `IsBotMove` determines: no candidates means pass; the dumb tier plays its drawn candidate exactly when it may be laid; the other tiers weigh exactly `Enumeration`, which is non-empty on a consistent table with candidates, and play its first option of greatest weight; every play is a non-empty legal order of cards of the hand |
| Bot.SingletonOrder | server/index.js:1174-1179 | the only order of a single card is that card, and then it may be laid |
| Bot.DumbTierMayPassWhilePlayable | server/index.js:1172-1179 | the dumb tier can draw a candidate that is not legal and so pass while holding a card it could lay |
| Transitions.FindCard | server/index.js:2113 | the card found by id is in the hand and has that id, and none exactly when no card has it |
| Transitions.ResolveSelects | server/index.js:2113-2117 | the selection holds only cards of the hand, no more than there were ids, and is empty exactly when no id names a card of the hand |
| Transitions.ResolveOwnIds | server/index.js:2113 | looking up the ids of cards of the hand gives back those cards |
| Transitions.RemoveFirstCount | server/index.js:2143-2146 | taking a card out removes one copy of it, or leaves the hand alone when it is not there |
| Transitions.RemoveCardsCount | server/index.js:2143-2146 | taking out played cards removes exactly them, and the hand shrinks by their number when it held them |
| Transitions.RemoveCardsSorted | server/index.js:2143-2146 | taking cards out of a sorted hand keeps it sorted |
| Transitions.DistinctInHand | server/index.js:2143-2146 | distinct cards all from the hand form a sub-multiset of it |
| Transitions.HolderOfFirst | server/index.js:1523-1525 | the seat found is the first that holds the card, and none means nobody holds it |
| Transitions.DealtUnion | server/index.js:1507-1521 | after the deal the hands together hold exactly the deck |
| Transitions.DealtOwner | server/index.js:1507-1525 | with a full deck every card has one holder |
| Transitions.DealKeepsSeats | server/index.js:1507-1534 | the deal changes only the hands of the seats |
| Transitions.DealHandsHoldDeck | server/index.js:1507-1534 | the dealt hands of a room hold exactly the deck |
| Transitions.DealPartitionsDeck | server/index.js:1507-1534 | with a full deck every card is held, and by one seat only |
| Transitions.DealtFairAndSorted | server/index.js:1507-1521 | dealt hands differ in size by at most one and are each sorted |
| Transitions.DealIsFairAndSorted | server/index.js:1507-1534 | after the deal the hands differ in size by at most one and are each sorted by suit and rank |
| Transitions.DealStartsWithSevenOfSpades | server/index.js:1523-1527 | after dealing a full deck, the turn and the starter are the seat holding the seven of spades, and no other seat holds it |
| Transitions.EndedScores | server/index.js:2409-2436 | each score grows by its hand's points, plus 50 for the asken holder only; nothing else about a seat changes; the phase becomes round end; a room with players has a winner |
| Transitions.AfterPlayHands | server/index.js:2139-2146 | a play takes the cards out of the player's hand and leaves every other hand alone |
| Transitions.PlayTakesCards | server/index.js:2139-2146 | a play removes exactly the played cards, shrinks the hand by their number, keeps it sorted, and leaves other hands alone |
| Transitions.PlayWidensTable | server/index.js:2139-2160 | after a play the table is the old one widened by the cards, every card is on it, and the last-played ids are the cards' ids in order |
| Transitions.PlayEndsOrAdvances | server/index.js:2162-2169 | an emptied hand ends the round with scores; otherwise the turn moves to the next seat, wrapping at the seat count |
| Transitions.StaleMembers | server/index.js:2324-2329 | the seats to remove are exactly the human seats disconnected for more than twelve hours |
| Transitions.KeptMembers | server/index.js:2324-2336 | the seats kept are exactly those that are not stale |
| Transitions.RemoveStale | server/index.js:2331-2346 | removing the stale seats one at a time leaves exactly the seats that are not stale, in order |
| Transitions.CleanedKeeps | server/index.js:2316-2346 | after a cleanup the seats are exactly the seats that were not stale, in order |
| Transitions.HostUntouched | server/index.js:2339-2344 | the host stays when none of the removed seats held its id |
| Transitions.RemoveSeatsKeepHost | server/index.js:2331-2346 | after the removals the host is still seated, unless only robots are left |
| Transitions.ReconnectedStays | server/index.js:1878-1900 | a player who pinged is not removed by the cleanup that follows |
| Transitions.LeaveKeepsHost | server/index.js:2389-2401 | with distinct ids nobody with the leaver's id is left, and a seated host stays seated or hands over to a seated player while anybody is left |
| Transitions.ReseatedKeepsSeat | server/index.js:1820-1837 | a rejoin changes only the rejoining seat, giving it the new id, connected; distinct names stay distinct |
| Rooms.TurnSeat | server/index.js:2092-2111 | a seat is returned exactly when the room is playing, the round is on and the actor's first seat is the current one; it is the actor's seat |
| Rooms.Room.constructor | server/index.js:948-980 | a new room is in the lobby with the creator as its only seat and as host, quick mode, round 1, an empty table, dumb robots and help mode off |
| Rooms.Room.Deal | server/index.js:1507-1534 | the room becomes the dealt room |
| Rooms.Room.EndRound | server/index.js:2409-2436 | the room becomes the scored room |
| Rooms.Room.Lay | server/index.js:2139-2169 | the room becomes the room after the play |
| Rooms.Room.PassTurn | server/index.js:2206-2209 | the room becomes the room after the pass |
| Rooms.Room.PlayCards | server/index.js:2086-2181 | refusals in the server's order (not playing, round over, not in the game, not your turn, no valid cards) leave the room unchanged; a selection is accepted exactly when it can be ordered (the lone seven of spades on an empty table); a rejection is an error in help mode and an explained invalid move otherwise; an accepted play is the greedy order `GreedyOrder` of the selection (a legal permutation of it), and the room becomes the room after that play, with `lastPlayedCards` the ids in that order |
| Rooms.Room.Pass | server/index.js:2184-2219 | ignored unless it is the actor's turn in a running round; accepted exactly when no card of the hand can be part of a sequence, and then the passer takes the asken and the turn moves on; refused with an error in help mode and a notice otherwise |
| Rooms.Room.ExecuteBotTurn | server/index.js:1321-1392 | acts exactly when the room is playing, the round is on and the expected seat is the current one and a robot; a play is legal and made of the robot's cards and is applied like a human play; a pass is applied like a human pass; the move is the one `IsBotMove` determines for the seat's hand, the table, the room's tier and the draw; a robot with no candidates passes |
| Rooms.Room.Join | server/index.js:1756-1799 | refused once started, when seven are seated, or when the name is taken ignoring case, in that order; otherwise the newcomer takes the last seat; distinct names stay distinct |
| Rooms.Room.AddBot | server/index.js:1903-1935 | ignored for anyone but the host; refused outside the lobby or with seven seated; otherwise a robot with a drawn name takes the last seat; distinct names stay distinct while a listed name is free |
| Rooms.Room.RemoveBot | server/index.js:1938-1961 | ignored for anyone but the host; refused outside the lobby or when no robot has the id; otherwise exactly the first such robot leaves |
| Rooms.Room.SetBotDifficulty | server/index.js:1964-1985 | ignored for anyone but the host; refused outside the lobby or for a name other than dumb, medium or smart; otherwise that tier is set |
| Rooms.Room.SetHelpMode | server/index.js:1988-2003 | ignored for anyone but the host; refused outside the lobby; otherwise help mode is set |
| Rooms.Room.StartGame | server/index.js:2006-2041 | ignored for anyone but the host; refused with fewer than three seats; otherwise the mode is set (quick when none is given), the first dealer is seat 0, and the room is dealt |
| Rooms.Room.NextRound | server/index.js:2222-2244 | only the host can start the next round; the round number grows by one, the dealer moves on one seat, the old scores are cleared and the room is dealt |
| Rooms.Room.NewGame | server/index.js:2247-2265 | only the host can start a new game; every score becomes 0 and nothing else about a seat changes; round 1, no round result, back to the lobby |
| Rooms.Room.Leave | server/index.js:2363-2407 | outside the lobby the room is deleted; in the lobby the leaver's seat goes, a leaving host hands over to the first seat, and the room is deleted exactly when nobody is left |
| Rooms.Room.Disconnect | server/index.js:2296-2312 | the actor's first seat is marked disconnected since now; nothing else changes |
| Rooms.Room.Cleanup | server/index.js:2316-2361 | the room becomes the cleaned room; the answer is true exactly when it is empty or some seat was removed |
| Rooms.Room.Ping | server/index.js:1878-1900 | the actor's seat is marked connected, the activity time is now, then the room is cleaned |
| Rooms.Room.Rejoin | server/index.js:1802-1875 | after a cleanup a seat with the name (ignoring case) is taken over; otherwise a newcomer is seated in a lobby with room; otherwise the rejoin fails and only the cleanup remains; the room stays deleted exactly when the cleanup emptied it and the rejoin failed |
| Rooms.Room.Reseat | server/index.js:1820-1837 | the seat takes the new id, connected, and a host or asken id that was the old one follows it |
| Rooms.RemoveStaleSeats | server/index.js:2331-2346 | the removal loop gives the value-level removals, and reports a change exactly when there was a seat to remove |
| Rooms.RemoveStaleSeat | server/index.js:2332-2344 | one removal gives the value-level removal, and reports whether the seat was there |
| Rooms.ParseDifficultyNames | server/index.js:1964-1985 | each tier's name parses to it, and only its name does |
| Rooms.ZeroScores | server/index.js:2254 | every score becomes 0 and nothing else changes |
| Rooms.DealHands | server/index.js:1507-1521 | the hands are the round-robin piles from the seat after the dealer, each sorted |
| Rooms.ClearHands | server/index.js:1508 | every hand is emptied and nothing else changes |
| Rooms.DealRoundRobin | server/index.js:1511-1517 | the loop deals the piles, starting at the seat after the dealer |
| Rooms.SortHands | server/index.js:1519-1521 | every hand is sorted and nothing else changes |
| Rooms.ScoreRound | server/index.js:2409-2426 | the loop credits every seat and builds the score lines |
| Rooms.TakeCards | server/index.js:2143-2146 | the loop takes the played cards out of the hand |
| Views.SeatsShownTruly | server/index.js:1440-1505 | every seat is shown truly; another seat's hand is shown only after moves once the round is over, and never in the lobby broadcast |
| Views.OneCurrentSeat | server/index.js:1440-1505 | at most one seat is marked current, and one is exactly when the turn index is a seat |
| Views.HelpedIdsExact | server/index.js:1489-1493 | in help mode the selectable ids are exactly those of the viewer's cards that can be part of a sequence |
| Views.PlayableOnlyOnTurn | server/index.js:1487-1498 | selectable ids go only to the seat on turn in a running round, name its own cards, and are the whole hand without help mode |
| Views.NothingOfferedIffMayPass | server/index.js:1487-1498 | in help mode a player on turn is offered no card exactly when a pass would be accepted |
| Views.OneViewPerHuman | server/index.js:1440-1443 | every human seat gets one snapshot addressed to it, and no robot gets one |
| Matchmaking.IndexOfEntry | server/index.js:151-153 | the first entry with the id, and none exactly when the id is not queued |
| Matchmaking.ListingNumbers | server/index.js:162-177 | the listing numbers the queue from one, marks exactly the first entry as host, and the host is the first entry |
| Matchmaking.WithoutUnique | server/index.js:151-160 | with distinct ids, removing an id drops exactly its entry and leaves it unqueued |
| Matchmaking.UnchosenTwice | server/index.js:1630-1640 | removing two groups one after the other removes both |
| Matchmaking.UnchosenMembers | server/index.js:1630-1640 | the entries left are exactly those whose id was not chosen, and ids stay distinct |
| Matchmaking.StarterFirstShape | server/index.js:1601-1606 | moving the starter to the front keeps the same entries and the distinct ids, with the starter first |
| Matchmaking.MoveToFront | server/index.js:1603-1606 | moving an entry to the front keeps the same entries, and it is first |
| Matchmaking.LineupShape | server/index.js:1598-1611 | the quick-start group has the starter first, at most seven entries, all from the queue with distinct ids, and is the whole queue when it is short |
| Matchmaking.SelectedMembers | server/index.js:1659-1661 | the selected group is exactly the queued entries that were chosen or are the starter, with distinct ids, and holds the starter |
| Matchmaking.Queue.constructor | server/index.js:132 | the queue starts empty |
| Matchmaking.Queue.Remove | server/index.js:151-160 | the first entry with the id leaves and the id is no longer queued; nothing is returned exactly when it was not queued |
| Matchmaking.Queue.Add | server/index.js:137-149 | an earlier entry with the id is removed, then the new entry goes to the back |
| Matchmaking.Queue.RemoveEach | server/index.js:1630-1640 | the loop removes exactly the entries whose ids are given, keeping the others in order |
| Matchmaking.Queue.StartGame | server/index.js:1584-1647 | refused unless the starter is queued and at least two are; otherwise the first seven, starter first, are seated and leave the queue, and a refusal changes nothing |
| Matchmaking.Queue.StartWithSelected | server/index.js:1650-1721 | refused unless the starter is queued and the chosen group with the starter has two to seven entries; otherwise that group, starter first, is seated and leaves the queue |
| Matchmaking.OpenRoom | server/index.js:1612-1628 | the new room is a lobby hosted by the first of the group, with every member seated as a newcomer in group order |
| Matchmaking.ArrivalsSeatEveryone | server/index.js:1612-1628 | the seats carry the group's ids in order, host first, all human, connected, without cards or points |

## Left out

- Redis, the room cache and its expiry, the periodic sync, room lookup by code and the "room does not exist" answers are not modelled; they are storage outside the rules. A deleted room is reported by a returned flag.
- socket.io transport, `emit`, `socket.join`/`leave`, the chat, `selectCards`, `confirmMatchmakingJoin`, `logStats` and the Express admin and statistics pages are not modelled; they are transport and telemetry.
- The queue broadcast (`broadcastMatchmakingState`) is not modelled, and neither is the check for a live socket before a snapshot is sent; both are transport.
- `shuffle`, `generateRoomCode` and its uniqueness retry, and `Math.random` in robot names and the dumb tier are not modelled; the deck, the room code and the draws are parameters.
- `Date.now()` is not modelled; the time is a parameter `now`.
- Matchmaking.Queue.StartGame, Matchmaking.Queue.StartWithSelected: each start is taken as one atomic step. In the server, `startMatchmakingGame` copies the queue (server/index.js:1599) and waits on `createRoom` and `saveRoom` before it removes the seated entries (server/index.js:1628-1640), and `startMatchmakingGameWithSelected` does the same (server/index.js:1659-1718). Two starts that overlap can therefore seat the same queued player in two rooms. The model does not capture that interleaving; `entries == Unchosen(old(entries), …)` holds only when nothing runs in between.
- The pacing delay (`setTimeout`) and the recursive chaining of robot turns in `executeBotTurn` are not modelled: timing and concurrency. `ExecuteBotTurn` takes the seat index the turn was scheduled for and makes one move.
- `calculateScores` (server/index.js:1536-1552) is never called by the server. It is not modelled separately; its scoring is that of `endRound`.
- `endRoundForRoom` and `endRound` score the same way and are modelled once, as `Ended`. Game over (quick mode, or a score of at least 500) is the predicate `GameOver` that the view reports.
- Names are compared after lower-casing Basic Latin and Latin-1 letters only; JavaScript's full Unicode case mapping is not modelled.
- JavaScript's `indexOf` finds a seat object by identity; the model finds the first equal seat, which is the same seat while seats differ.
- Rooms.Room.NextRound: requires seated players, because the source computes the next dealer modulo the seat count and has no answer for an empty room.
- Rooms.Room.NextRound: as in the server, there is no check of the room's phase, so a host can deal a new round at any time.
- Rooms.Room.StartGame: as in the server, there is no check of the room's phase, and scores and the round number are not reset.
- Rooms.Room.AddBot: distinct names are promised only while a listed robot name is free; the `Bot-N` fallback can repeat a name already at the table.
- Rooms.Room.Leave: as in the server, the leaving host hands over to the first seat even when that is a robot, and leaving during a game deletes the room.
- Rooms.Room.Cleanup: as in the server, a removed host stays the host id when only robots remain, and a `disconnectedAt` of 0 counts as unset.
- Rooms.Room.Ping: as in the server, a ping whose cleanup empties the room deletes it and then saves it again, so the room survives; the model keeps the room.
- Rooms.Room.Rejoin: as in the server, a rejoin by name can take over a robot's seat, which stays marked as a robot. The deletion of a room that the cleanup emptied is reported by `deleted`; the store itself is not modelled.
- Rooms.Room.Disconnect, Rooms.Room.Leave and Rooms.Room.Cleanup: saving a room also stamps `lastActivity` with the current time (server/index.js:195-196); these three do not model that stamp, since the save is storage I/O.
- `hostEndGame` (server/index.js:2268-2280) is not modelled: it changes no field of the room, only checks that the caller is the host and deletes the room from the store, which is not part of this model.
- Rooms.Room.SetHelpMode: the flag is a `bool`; the server sets `helpMode === true`, so any value the client sends that is not the boolean `true` (the string "true", 1, a missing field) turns help mode off. The model does not represent those values.
- Rooms.Room.Reseat: as in the server, a rejoined round winner is no longer marked as a winner, because winners are matched by id.
- Bot.GetBotMove: the dumb tier's random draw is the parameter `pick`. The tier may pass while holding a layable card (`Bot.DumbTierMayPassWhilePlayable`).
- The mode `mode || 'quick'` is modelled with the empty string standing for a missing mode.
- Views.SeatsShownTruly: is a direct consequence of how the snapshot is built and needs no proof steps.
