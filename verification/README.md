# Proofs about coev

This project models the parts of the coev repository whose correctness depends on several functions
at once, and proves what those parts are for.

* **Kafka partition assignors** (`Order`, `Movements`, `Assignment`, `Score`, `Plans`, `Subscribing`,
  `Passes`, `Settling`, `Visiting`, `Endless`, `Termination`, `Sticky`, `Range`). The sticky assignor reads the
  members' subscriptions, hands out partitions greedily, sets aside members that cannot take part, moves
  partitions one at a time through a movement record that may redirect a move to another partition and
  another giver, and writes a plan. The private state it passes by reference is the fields of a class.
  `Passes` says what it does on ownership alone, and every method is proved to do exactly that, so a plan
  is a known function of its input; what a visit moves, to whom and in which order is also stated without
  those functions (`VisitMovesExactly`, `VisitGoes`, `VisitOrder`). Results: every plan is exactly-once; the movement record is always
  the difference between first and present ownership, its index is its exact inverse, and no topic ever
  records a movement and its reverse; a potential bounds imbalance through redirected moves; a settled
  plan cannot be improved by any single move. The loop of passes need not settle: `Endless` gives an
  input on which it never does, and `Settling` and `Termination` say when it does. The cycle detector is
  proved against its declarative meaning, and range assignment against the slices it should cut.
* **Coroutine kernel** (`Queue`, `Event`, `GuardAsync`, `Channel`, `Mutex`, `WaitGroup`, `TaskIds`,
  `WaitForAll`, `LiveTask`, `Deliver`, `Handover`, `ClientPool`). The intrusive circular list is modelled
  with heap nodes and a ghost sequence. The protocols are transition systems: each block under a mutex is
  one step, each atomic operation outside one is its own step, and any number of coroutines may take part.
  The theorems are about every state of every interleaving. `Handover` puts the queue of a guard, its
  events and the co_deliver of every thread together: whoever is taken off the queue goes on exactly once,
  per thread in the order handed over, and whatever is under way comes to rest.
* **CRC field** (`Crc32`). CRC-32 (section 8 of RFC 1952) and CRC-32C (section 12.1 of RFC 3720) over
  bit vectors: the table-driven loop and the bit-by-bit loop, writing and checking the field, and the
  theorem that every change confined to w consecutive covered bytes of an intact buffer is caught if
  and only if w is at most four.
* **Client metadata cache** (`Metadata`). The cached partition lists always equal a recomputation from
  the metadata map.

`dafny verify dfyconfig.toml` checks everything.

Assumptions made throughout: atomics are sequentially consistent, threads that events are delivered to
are alive, nothing is cancelled or destroyed while it is waited for (except the children of a task object
in `LiveTask`), and counters and container sizes stay within their machine types, which are modelled as
unbounded integers except in `Crc32`.

Where the code and its comments differ, the code is followed. Three things in the sticky assignor are
worth knowing. `prepopulateCurrentAssignments` never fills `userPartitions`
(src/coev_kafka/balance_strategy.cpp:596), so `Plan` always starts from empty member lists and an empty
`prevAssignment`. `balance` is therefore always in its initializing case (`AlwaysInitializing`), and its
comparison of scores never restores an assignment. `has_cycles` ignores pairs from a member to itself
and, despite the path search, reports exactly pairs of opposite movements.

Properties that look true and are not, each with an input on which it fails and the condition under
which it holds:

* **The sticky assignor terminates.** It does not: on the well-formed input in `Endless` (five members,
  sixteen topics of one or two partitions) every pass after the first sends one partition of topic C home
  and takes it back, so no number of passes settles (`NeverSettles`). Three statements say when the loop
  does end. For a single input: it ends if and only if it ends within as many passes as there are ways to
  give the partitions to the members (`SettlesIffInTime`). For all inputs with at most s subscribers on
  every topic of more than k partitions: all of them end if and only if s is at most 2 and k at most 1
  (`LimitsThatSettle`); so one topic with three subscribers and two partitions is enough to loop for ever,
  and without one the loop ends within half the square of the number of partitions (`LimitedSettles`). With
  identical subscriptions the first pass is the last and the loads differ by at most one (`UniformIsEven`).
* **No reassignment makes the balance score worse.** On the same input the first reassignment of every pass
  after the first makes it worse by four (`EveryPassRaisesScore`). A reassignment makes it worse if and only
  if the partition that really moves, after redirection, goes between two members with equal loads; it then
  adds four, and four for every other active member with that load. A gap of one leaves the score alone, a
  larger one improves it by at least four (`ReassignScore`). A whole run lowers the score by at least four
  for every move when topics are narrow as above (`NarrowRunScore`).
* **`co_waitgroup::add` never strands a waiter.** With a negative number it can bring the count to zero
  without waking anybody (`NegativeAddStrands`). An addition is safe exactly when it does not bring a
  positive count down to zero or less (`AddIsSafeExactly`), and with safe additions no wake-up is lost
  (`EveryRunLosesNoWakeup`).
* **`co_waitgroup` wakes nobody early.** A `done` that is still draining wakes a waiter that came after the
  count was raised again (`EarlyWakeup`). In a given state a coroutine that has not called `wait` yet can be
  woken with the count positive all the while if and only if the count is positive and a `done` is draining
  (`EarlyExactly`). Over a whole run that comes up if and only if some `add` is called while a `done` drains
  and leaves the count positive (`CalmExactly`).
* **A sleeping waiter of a guard `co_task` is woken by the last child.** Within n loads over the life of one
  task object some waiter can be left asleep, with no child live and nothing left to deliver, if and only if
  somebody waits and either n exceeds the number of identifiers above 0, or n is at least 1 and a second
  coroutine waits or children are destroyed (`StrandsExactly`). After the identifiers wrap a child is given
  0, which `unload` takes for "not found"; a child wakes one waiter, so of two that sleep on one child the
  second stays asleep; and a destroyed child wakes nobody.
* **When `wait_for_all` returns, its children are done with its task object.** Every child has been loaded and
  has left the table, and no wake-up is lost (`EveryRunWaitsForAll`). But a child may have erased its entry
  and still be about to deliver on that object, which goes when the call returns: such a state is reachable
  if and only if there is a child (`ReturnsBeforeDelivery`).
* **What `deliver(value)` passes on reaches the waiter.** `co_event::resume` overwrites it with 0, on both
  ways to the waiter (`ValueIsOverwritten`), so every waiter reads 0 (`EveryRunGoesOnOnce`): it gets the value passed exactly when
  that is 0, and `wait` of a guard `co_task` never gets the identifier of the child that woke it.
* **`load` returns the identifier.** It returns it cut to 32 bits: the true one exactly below 2^31
  (`ReturnedExactly`). Within n loads a live child can have been reported under another number if and only
  if n is at least 2^31 (`MisreportsExactly`).

## Model

| member | source | states |
|---|---|---|
| Movements.PartitionMovements.RemoveMovementRecordOfPartition | src/coev_kafka/balance_strategy.cpp:646-660 | returns the recorded movement, forgets exactly that partition, and keeps the by-topic index the exact inverse of the record with no empty bucket |
| Movements.PartitionMovements.AddPartitionMovementRecord | src/coev_kafka/balance_strategy.cpp:662-675 | records one movement and keeps the index the exact inverse of the record |
| Movements.PartitionMovements.MovePartition | src/coev_kafka/balance_strategy.cpp:677-697 | a partition that returns to its recorded origin leaves the record, any other is recorded as (origin, new owner); the index stays exact |
| Movements.PartitionMovements.GetTheActualPartitionToBeMoved | src/coev_kafka/balance_strategy.cpp:699-724 | the look-up through the index gives what a scan of the whole record would: the least partition of the topic whose recorded movement is the reverse of the wanted one, or the partition itself when there is none |
| Movements.IndexUnique | src/coev_kafka/balance_strategy.cpp:130-131 | a record determines its index, so the two maps can never drift apart |
| Movements.AddedIndexes | src/coev_kafka/balance_strategy.cpp:662-675 | filing one new movement under topic and pair turns an exact index into the exact index of the larger record |
| Movements.RemovedIndexes | src/coev_kafka/balance_strategy.cpp:650-659 | unfiling one movement and dropping emptied containers gives the exact index of the smaller record |
| Movements.MovedIsDifference | src/coev_kafka/balance_strategy.cpp:677-697 | recording a move keeps the record equal to the difference between first and present ownership |
| Movements.MovedKeepsNoOpposites | src/coev_kafka/balance_strategy.cpp:699-724 | moving the partition the record chooses never creates a movement and its reverse within a topic |
| Movements.ActualIsLowest | src/coev_kafka/balance_strategy.cpp:699-724 | of the partitions of a topic whose recorded movement is the reverse of the wanted one, the one with the lowest number is redirected to |
| Movements.EveryRunIsSticky | src/coev_kafka/balance_strategy.cpp:1129-1157 | after any sequence of reassignments to members other than the present owner, no topic records a movement and its reverse |
| Movements.IsLinked | src/coev_kafka/balance_strategy.cpp:726-763 | extends the given path by the members visited when stepping straight to the target where that pair is listed and along the first outgoing pair where it is not, never using a pair twice, and says whether the target was reached |
| Movements.FollowWalks | src/coev_kafka/balance_strategy.cpp:726-763 | a reported path is a real walk along listed pairs, and it is one step long exactly when the direct pair is listed between distinct members |
| Movements.FollowFinds | src/coev_kafka/balance_strategy.cpp:726-763 | whenever stepping along the first unused outgoing pair, and straight to the target where that pair is left, leads to the target, the search finds it and reports exactly that trail |
| Movements.FollowTrails | src/coev_kafka/balance_strategy.cpp:726-763 | and every path it reports is such a trail |
| Movements.In | src/coev_kafka/balance_strategy.cpp:765-788 | true exactly when some remembered cycle of the same length is a window of the cycle unrolled twice |
| Movements.WindowMeans | src/coev_kafka/balance_strategy.cpp:765-788 | what a window of the cycle gone round twice is, entry by entry |
| Movements.HasCycles | src/coev_kafka/balance_strategy.cpp:790-810 | true exactly when two listed pairs are opposite movements between distinct members, whatever longer cycles the search meets and remembers |
| Movements.PartitionMovements.IsSticky | src/coev_kafka/balance_strategy.cpp:812-827 | true exactly when no topic of the record holds a movement and its reverse |
| Movements.TopicCycles | src/coev_kafka/balance_strategy.cpp:814-821 | the pairs filed under a topic are opposed exactly when two recorded movements of that topic are |
| Order.SortedUnique | src/coev_kafka/balance_strategy.cpp:477-486 | under a total order distinct elements have one sorted sequence, so the sorting algorithm does not matter |
| Order.StringLeMeans | src/coev_kafka/balance_strategy.cpp:497-511 | a string comes before another exactly when it is a proper prefix or has the smaller character at the first difference |
| Assignment.SortMembers | src/coev_kafka/balance_strategy.cpp:469-487 | lists exactly the members of the assignment, none lighter after a heavier one |
| Assignment.SortMembersUnique | src/coev_kafka/balance_strategy.cpp:469-487 | ties included, no other list is sorted by load and then by id |
| Assignment.SortMembersOrder | src/coev_kafka/balance_strategy.cpp:469-487 | a member earlier in the list has fewer partitions, or as many and a name that comes first |
| Assignment.RemoveFirst | src/coev_kafka/balance_strategy.cpp:442-455 | removes one occurrence; in a list without repetitions exactly the partition named |
| Assignment.ChosenIsMovable | src/coev_kafka/balance_strategy.cpp:1129-1141 | whatever the record redirects a move to, the taker may own it, does not own it, and giver and taker are both active; a redirected partition goes home to the taker from the origin of the wanted one |
| Assignment.ReassignKeepsInv | src/coev_kafka/balance_strategy.cpp:1129-1157 | every reassignment, redirected or not, keeps: both ownership maps agree, every owner is allowed, everything assignable is assigned, set-aside members have no shared partition, the record is the ownership difference without opposites |
| Assignment.HandedAgrees | src/coev_kafka/balance_strategy.cpp:1150-1155 | taking a partition from one member's list and appending it to another's keeps lists and owner map in agreement, without repetitions |
| Assignment.HandedSquares | src/coev_kafka/balance_strategy.cpp:1152-1154 | one hand-over changes the sum of squared loads by exactly 2 (taker load - giver load) + 2 |
| Assignment.SumSquaresSplit | src/coev_kafka/balance_strategy.cpp:1049-1109 | the sum of squared loads does not depend on the order in which members are added up |
| Assignment.ReassignKeepsPotential | src/coev_kafka/balance_strategy.cpp:1111-1141 | no move raises squared loads + 2 × recorded movements; a direct move takes at least 2 off the squares, a redirected one shortens the record by one |
| Assignment.BalancedIsOptimal | src/coev_kafka/balance_strategy.cpp:1065-1066 | when isBalanced says yes, no shared partition can be moved to a member lighter by two or more |
| Score.GetBalanceScore | src/coev_kafka/balance_strategy.cpp:251-269 | the nested loops over copies of the size table give the sum of load gaps over ordered pairs of members |
| Score.ZeroMeansEven | src/coev_kafka/balance_strategy.cpp:251-269 | the score is never negative and is zero exactly when all loads are equal |
| Score.ScoreOfTwo | src/coev_kafka/balance_strategy.cpp:259-267 | the score taken apart around any two members: twice their gap, twice their gaps to the rest, and the score of the rest |
| Score.DirectMoveLowersScore | src/coev_kafka/balance_strategy.cpp:1111-1157 | every reassignment that is not redirected lowers the score by at least four |
| Score.HandedScore | src/coev_kafka/balance_strategy.cpp:259-267 | what a hand-over to a member no heavier than the giver does to the score: equal loads add four and four for every third member with that load, a gap of one changes nothing, a larger gap takes off at least four |
| Score.ReassignScore | src/coev_kafka/balance_strategy.cpp:1111-1157 | a reassignment, redirected or not, raises the score if and only if giver and taker of the partition that really moves have equal loads, and by exactly four for that pair and four for every other active member with that load |
| Plans.AddToPlan | src/coev_kafka/balance_strategy.cpp:27-33 | appends to one member's list of one topic, leaves every other list alone, and adds no entry for nothing |
| Subscribing.BuildSubscriptions | src/coev_kafka/balance_strategy.cpp:844-878 | for every input the two potential-ownership maps are each other's inverse and allow exactly the known partitions of subscribed topics; when nothing is listed twice nobody is entered twice |
| Subscribing.WritePlan | src/coev_kafka/balance_strategy.cpp:940-954 | the plan has every member, even idle ones, and lists for each exactly the partitions assigned to it, once |
| Subscribing.WrittenExactlyOnce | src/coev_kafka/balance_strategy.cpp:844-954 | reading, assigning completely and writing give an exactly-once plan with an entry for every member |
| Passes.Pick | src/coev_kafka/balance_strategy.cpp:403-424 | a least loaded member among those that may own the partition, ties by id |
| Passes.FirstIsPick | src/coev_kafka/balance_strategy.cpp:1118-1125 | the first member in load order that may own a partition is that one |
| Passes.PickMeans | src/coev_kafka/balance_strategy.cpp:1111-1127 | of those that may own the partition, the member picked owns the fewest, or as few and has the first name |
| Passes.VisitOrder | src/coev_kafka/balance_strategy.cpp:489-514 | partitions are sorted, and visited in a pass, by the number of potential consumers, then by topic, then by partition number |
| Passes.GreedyOrder | src/coev_kafka/balance_strategy.cpp:990-998 | the greedy assignment deals partitions out by topic and partition number |
| Visiting.PlanIs | src/coev_kafka/balance_strategy.cpp:1049-1109 | an input on which the order of visits decides: every plan with at least one pass moves the one partition with two potential consumers that comes first, and the plan is exactly this one |
| Visiting.SettlesInTwo | src/coev_kafka/balance_strategy.cpp:1049-1109 | on that input the second pass moves nothing |
| Passes.CountMoved | src/coev_kafka/balance_strategy.cpp:1150-1155 | a move changes the loads of giver and taker by one and nobody else's |
| Passes.WantedByLoad | src/coev_kafka/balance_strategy.cpp:1067-1104 | the test before a move, read off the members' lists, is the test on ownership |
| Passes.EvenByLoad | src/coev_kafka/balance_strategy.cpp:271-341 | the verdict of isBalanced is evenness of ownership among the active members |
| Passes.TakesPartByLists | src/coev_kafka/balance_strategy.cpp:343-386 | the participation test on lists is the test on ownership |
| Passes.SetAsideExactly | src/coev_kafka/balance_strategy.cpp:343-386 | a member is set aside if and only if all it may own is its own and nobody else may own any of it |
| Passes.ReassignIsServe | src/coev_kafka/balance_strategy.cpp:1129-1157 | what a reassignment does to the owner map, redirection included |
| Passes.NoMovesNoChange | src/coev_kafka/balance_strategy.cpp:1060-1107 | a pass that moves nothing leaves all ownership as it is |
| Passes.StaysSettled | src/coev_kafka/balance_strategy.cpp:1059-1107 | after a pass without moves no later pass moves anything |
| Settling.MovingGoesHome | src/coev_kafka/balance_strategy.cpp:699-724 | a redirected partition goes home to the taker, from the first owner of the wanted one |
| Settling.VisitMovesExactly | src/coev_kafka/balance_strategy.cpp:1060-1107 | a visit moves something if and only if the partition has at least two potential consumers, an owner with a name, and some potential consumer owns fewer by two or more |
| Settling.VisitGoes | src/coev_kafka/balance_strategy.cpp:1111-1141 | it then gives the lowest partition of the topic that went the opposite way, or the visited one when there is none, to the potential consumer with the fewest partitions, ties by name |
| Settling.NarrowKeepsGiver | src/coev_kafka/balance_strategy.cpp:699-724 | when no partition with siblings has more than two potential owners, a redirected move takes from the same member as the wanted one |
| Settling.MoveSpread | src/coev_kafka/balance_strategy.cpp:1150-1155 | a move changes the sum of squared loads by exactly 2 (taker load - giver load) + 2 |
| Settling.NarrowPass | src/coev_kafka/balance_strategy.cpp:1059-1107 | with such topics every move of a pass takes at least 2 off the squares |
| Settling.NarrowSettles | src/coev_kafka/balance_strategy.cpp:1059-1107 | with such topics more passes than half the squares are never needed |
| Settling.NarrowPlanSettles | src/coev_kafka/balance_strategy.cpp:829-956 | with such topics a plan settles within half the square of the number of partitions |
| Settling.NarrowRunScore | src/coev_kafka/balance_strategy.cpp:1036-1041 | with such topics a whole run of passes lowers the balance score by at least four for every move, so the comparison at the end of balance would not undo it |
| Settling.NarrowPlanImproves | src/coev_kafka/balance_strategy.cpp:1030-1041 | the same from the greedy assignment of any such input on |
| Settling.EqualMoveScore | src/coev_kafka/balance_strategy.cpp:259-267 | on ownership: a move between equally loaded active members raises the score by exactly four and four for every other active member with that load |
| Settling.OpeningClosed | src/coev_kafka/balance_strategy.cpp:1014-1025 | nobody who may own a shared partition is set aside |
| Settling.GreedyIsLevel | src/coev_kafka/balance_strategy.cpp:396-440 | with identical subscriptions the greedy assignment keeps all loads within one of each other |
| Settling.AlikeNeverMoves | src/coev_kafka/balance_strategy.cpp:829-956 | with identical subscriptions no pass moves anything and the first pass is the last |
| Settling.AllDifferent | src/coev_kafka/balance_strategy.cpp:1059-1107 | up to the first pass without moves the ownerships before the passes are all different |
| Settling.SettlesInTime | src/coev_kafka/balance_strategy.cpp:1059-1107 | a loop that ends at all ends within the number of ways to give the partitions to the members |
| Settling.SettlesIffInTime | src/coev_kafka/balance_strategy.cpp:1059-1107 | for every input the loop ends if and only if it ends within that many passes |
| Endless.GreedyEnds | src/coev_kafka/balance_strategy.cpp:990-998 | what the greedy assignment gives on the input that never settles |
| Endless.FirstPass | src/coev_kafka/balance_strategy.cpp:1060-1107 | on that input the first pass moves five partitions |
| Endless.LaterPass | src/coev_kafka/balance_strategy.cpp:1060-1107 | every later pass moves two partitions and ends with the ownership it began with |
| Endless.NeverSettles | src/coev_kafka/balance_strategy.cpp:1049-1109 | on that input no number of passes settles: the do-while loop never ends |
| Endless.EveryPassRaisesScore | src/coev_kafka/balance_strategy.cpp:1060-1107 | on that input the first reassignment of every pass after the first raises the balance score by exactly four |
| Termination.LimitedSettles | src/coev_kafka/balance_strategy.cpp:1049-1109 | when every topic with three or more subscribers has at most one partition the loop ends, within half the square of the number of partitions |
| Termination.LimitsThatSettle | src/coev_kafka/balance_strategy.cpp:1049-1109 | all inputs in which every topic with more than s subscribers has at most k partitions settle if and only if s is at most 2 and k at most 1 |
| Termination.MapsRead | src/coev_kafka/balance_strategy.cpp:844-878 | every input has a pair of potential-ownership maps |
| Termination.SameTopicsAlike | src/coev_kafka/balance_strategy.cpp:844-878 | members that subscribe to the same known topics may own the same partitions |
| Sticky.HoldsAll | src/coev_kafka/balance_strategy.cpp:368-377 | a member whose list is as long as what it may own holds all of it |
| Sticky.CannotParticipate | src/coev_kafka/balance_strategy.cpp:343-386 | a member that may not take part holds everything it may own and none of it is shared |
| Sticky.StickyBalanceStrategy.ProcessPartitionMovement | src/coev_kafka/balance_strategy.cpp:1143-1157 | owner map, both lists, movement record and sorted member list change together exactly as the value-level move says |
| Sticky.StickyBalanceStrategy.ReassignPartition | src/coev_kafka/balance_strategy.cpp:1129-1141 | performs the value-level reassignment, redirection included, and keeps the whole invariant |
| Sticky.StickyBalanceStrategy.ReassignPartitionToNewConsumer | src/coev_kafka/balance_strategy.cpp:1111-1127 | always finds a taker, and it is the least loaded member allowed to own the partition, ties by id |
| Sticky.StickyBalanceStrategy.ReassignIfUneven | src/coev_kafka/balance_strategy.cpp:1067-1105 | does exactly the visit: moves if and only if some member allowed to own the partition is lighter than its owner by two or more, the partition and taker the record and the loads determine; otherwise nothing changes |
| Sticky.VisitMoves | src/coev_kafka/balance_strategy.cpp:1093-1105 | the reassignment made for a wanted partition is the visit, and does not raise the potential |
| Sticky.StickyBalanceStrategy.BalancedNow | src/coev_kafka/balance_strategy.cpp:1065-1066 | the test each visit starts with decides evenness; evenness is locally optimal |
| Sticky.StickyBalanceStrategy.OnePass | src/coev_kafka/balance_strategy.cpp:1060-1107 | leads to exactly the ownership of the pass and answers true if and only if the pass moved something; keeps the invariant, never raises the potential; a pass without moves, complete or cut short by isBalanced, changes nothing and proves local optimality |
| Sticky.PassGoesOn | src/coev_kafka/balance_strategy.cpp:1063-1106 | one more visit of a pass keeps what is left to visit leading where the whole pass does |
| Sticky.StickyBalanceStrategy.PerformReassignments | src/coev_kafka/balance_strategy.cpp:1049-1109 | leads to exactly the ownership after so many passes; `settled` if and only if one of them moved nothing, `performed` if and only if the first moved something; keeps the invariant, never raises the potential or the sum of squared loads, and is locally optimal when settled |
| Sticky.LoopedEnd | src/coev_kafka/balance_strategy.cpp:1107-1108 | the loop goes on exactly while every pass so far has moved something |
| Sticky.AllSettledIsOptimal | src/coev_kafka/balance_strategy.cpp:1063-1106 | when every shared partition is settled no single move can help |
| Sticky.FirstAllowedIsGood | src/coev_kafka/balance_strategy.cpp:1118-1125 | the first listed member that may own the partition is lightest among all that may, and lighter than the owner by two or more |
| Sticky.MoversAreActive | src/coev_kafka/balance_strategy.cpp:1014-1025 | a partition that changes owner does so between two members that were not set aside |
| Sticky.PutBackAgrees | src/coev_kafka/balance_strategy.cpp:1043-1046 | the lists of set-aside members are still right when put back: nothing they own was moved, everybody is present again, and optimality carries over to all members |
| Sticky.SplitStep | src/coev_kafka/balance_strategy.cpp:1015-1025 | setting one more member aside keeps every member either active or set aside, each with its own list |
| Sticky.IsBalanced | src/coev_kafka/balance_strategy.cpp:271-341 | true exactly when all loads differ by at most one or no member may own a partition of a heavier one; its look-ups never miss |
| Sticky.FindHeavierRival | src/coev_kafka/balance_strategy.cpp:313-338 | true exactly when some partition the member may own belongs to a heavier member |
| Sticky.OwnersByList | src/coev_kafka/balance_strategy.cpp:298-309 | the reverse map built from the lists is the owner map restricted to active members |
| Sticky.StickyBalanceStrategy.AssignPartition | src/coev_kafka/balance_strategy.cpp:396-440 | gives the partition to the least loaded member allowed to own it, ties by id, and changes nothing else |
| Sticky.StickyBalanceStrategy.AssignAll | src/coev_kafka/balance_strategy.cpp:990-998 | leads to exactly the greedy ownership; everything that somebody may own has an owner that may own it, and lists and owner map agree |
| Sticky.KeepShared | src/coev_kafka/balance_strategy.cpp:1000-1012 | keeps exactly the partitions with at least two entries of potential owners, in the order of the sorted list |
| Sticky.StickyBalanceStrategy.SetAside | src/coev_kafka/balance_strategy.cpp:1014-1025 | splits the members into active and set-aside ones with their lists; the active ones are exactly those that may take part, and nobody set aside may own a shared partition |
| Sticky.StickyBalanceStrategy.Rebalance | src/coev_kafka/balance_strategy.cpp:1014-1047 | from any complete assignment on: exactly the ownership of the passes over the active members, with every member present again |
| Sticky.AlwaysInitializing | src/coev_kafka/balance_strategy.cpp:983-988 | with all member lists empty, the test before assigning is always true, so the restore branch is never taken |
| Sticky.StickyBalanceStrategy.Balance | src/coev_kafka/balance_strategy.cpp:973-1047 | ownership is exactly that of the greedy assignment and so many passes; settled if and only if they settle; every member is present, lists and owner map agree and are complete, the record has no opposites, and the result is locally optimal when settled |
| Sticky.StickyBalanceStrategy.Plan | src/coev_kafka/balance_strategy.cpp:829-956 | for every input: the plan gives out exactly the ownership the greedy assignment and so many passes lead to; every known partition with a subscriber goes to exactly one member, a subscriber; every member has an entry; the record is sticky; settled if and only if the passes settle, and then fair; even, and settled in the first pass, when all subscriptions are the same; settled in time when topics are narrow; no topics give an empty plan |
| Sticky.OptimalIsFair | src/coev_kafka/balance_strategy.cpp:1093-1105 | local optimality of the assignment, read off the written plan: nobody holding a partition another subscribes to has two more than that one |
| Sticky.UniformIsEven | src/coev_kafka/balance_strategy.cpp:829-956 | when all members subscribe to the same known topics, any two get numbers of partitions that differ by at most one, however few passes are made, and the first pass settles |
| Sticky.TwinsAreEven | src/coev_kafka/balance_strategy.cpp:1093-1105 | in a fair plan two members with the same subscriptions are even, whatever the others subscribe to |
| Range.SlicesConcat | src/coev_kafka/balance_strategy.cpp:100-107 | the first k slices, put end to end, are a prefix of the partition list |
| Range.SliceBounds | src/coev_kafka/balance_strategy.cpp:97-104 | slices follow each other without gap or overlap, stay inside the list, and have the common length or one more |
| Range.Core | src/coev_kafka/balance_strategy.cpp:95-108 | for any partition list and any members, the slices in member order are the whole list, the longer ones come first, nobody else gets anything of the topic, and other topics are untouched |
| Range.MembersByTopic | src/coev_kafka/balance_strategy.cpp:45-54 | enters under each topic exactly its subscribers |
| Range.RangePlan | src/coev_kafka/balance_strategy.cpp:43-79 | each known topic with a subscriber is split among exactly its subscribers, and nothing else is given out, even when lists repeat entries; of two subscribers the one whose name comes first holds the earlier slice, which is not shorter |
| Range.InOneList | src/coev_kafka/balance_strategy.cpp:100-107 | in lists put end to end without repetition every entry is in exactly one of them, once |
| Range.RangeExactlyOnce | src/coev_kafka/balance_strategy.cpp:43-79 | when no topic lists a partition twice a range plan is exactly-once in the same sense as a sticky plan |
| Queues.Queue.ListAdd | src/coev/queue.cpp:31-38 | links a node between any two neighbours of a circular list: the sequence gains it at that place |
| Queues.Queue.Erase | src/coev/queue.cpp:11-16 | unlinks a node from anywhere in a list: the sequence loses it and the node is again an empty list of its own |
| Queues.Queue.MoveTo | src/coev/queue.cpp:17-30 | hands all nodes in order to an empty header, and does nothing when the source is empty or the target is not |
| Queues.Queue.PushFront | src/coev/queue.h:23 | the sequence gains the node at the front |
| Queues.Queue.PushBack | src/coev/queue.h:24 | the sequence gains the node at the back |
| Queues.Queue.Empty | src/coev/queue.h:25 | the comparisons of both links decide exactly whether the sequence is empty |
| Queues.Queue.PopFront | src/coev/queue.h:26 | removes and returns the first node, detached, or null for an empty list |
| Queues.Queue.PopBack | src/coev/queue.h:27 | removes and returns the last node, detached, or null for an empty list |
| Queues.Queue.ElementIsNotAlone | src/coev/co_event.cpp:27-34 | a node on a list is never linked to itself, so the emptiness test in the event's destructor decides membership |
| Event.RunKeepsInv | src/coev/co_event.cpp:35-88 | in every interleaving of one co_await and one resume, status, stored handle and both program counters fit together |
| Event.EveryRunIsSafe | src/coev/co_event.cpp:35-88 | no assert(false) is reached, the coroutine is continued at most once, only with its handle stored, having read the value passed, and the resuming side is then done with the event |
| Event.EveryRunContinuesOnce | src/coev/co_event.cpp:35-88 | every interleaving ends after at most nine steps, and when neither side can step the coroutine has continued exactly once with the value |
| Event.ReadyGoesOn | src/coev/co_event.cpp:35-38 | when the resume call is over before the co_await begins the coroutine goes on at once, without being suspended |
| GuardAsync.BlocksKeepFifo | src/coev/co_async.cpp:60-134 | both locked blocks keep the waiters served in arrival order |
| Channel.TakeKeepsInv | src/coev/co_channel.h:73-102 | every step of set, get, try_get or a resumed getter keeps the channel's invariant |
| Channel.EveryRunDeliversInOrder | src/coev/co_channel.h:73-114 | in every interleaving nobody waits while data is queued, the k-th value handed out is the k-th value set, every call returns the one value it was handed, waiters are served in arrival order, and no empty queue is popped |
| Channel.GetsFirst | src/coev/co_channel.h:85-102 | on queued values get and try_get both return the first at once; on an empty queue get waits last in line and try_get answers nothing |
| Channel.SetServesFirst | src/coev/co_channel.h:73-84 | set hands its value to the first waiter, who can go on and return it, or queues it last |
| Mutex.TakeKeepsInv | src/coev/co_mutex.cpp:43-72 | every step of lock, unlock, try_lock or a resumed waiter keeps the mutex's invariant |
| Mutex.EveryRunExcludes | src/coev/co_mutex.cpp:43-72 | in every interleaving the flag is on exactly when somebody owns the lock, at most one coroutine does, somebody waits only while it is on, and grants follow arrival order |
| Mutex.LockTakes | src/coev/co_mutex.cpp:43-72 | on a free lock lock and try_lock take it at once; on a held one lock waits last in line and try_lock changes nothing |
| Mutex.UnlockFrees | src/coev/co_mutex.cpp:50-62 | an unlock without waiters leaves the lock to nobody |
| Mutex.UnlockHandsOver | src/coev/co_mutex.cpp:50-62 | an unlock with waiters leaves the flag on and the first waiter as owner in one step, and that waiter can go on holding the lock |
| WaitGroup.DeliverKeepsInv | src/coev/co_waitgroup.cpp:34-36 | a drain that finds the queue empty leaves nobody between reading the counter and queueing |
| WaitGroup.EveryRunLosesNoWakeup | src/coev/co_waitgroup.cpp:12-37 | in every interleaving, whoever waits or has read a positive counter under the lock is covered by a positive count or a done still draining |
| WaitGroup.QuietMeansAwake | src/coev/co_waitgroup.cpp:28-37 | once the count is down and no done is draining, nobody sleeps |
| WaitGroup.WaitQueuesExactly | src/coev/co_waitgroup.cpp:12-17 | wait queues, last in line, exactly when it reads a count above zero, and otherwise leaves without suspending |
| WaitGroup.DrainWakesFirst | src/coev/co_waitgroup.cpp:34-36 | each round of a drain wakes the first waiter, who can leave, and goes on until it finds nobody |
| WaitGroup.AddIsSafeExactly | src/coev/co_waitgroup.cpp:18-27 | an addition keeps every covered state covered exactly when it does not bring a positive count down to zero or less |
| WaitGroup.NegativeAddStrands | src/coev/co_waitgroup.cpp:23-27 | a reachable state in which adding -1 leaves a sleeper with the count at zero and nobody draining |
| WaitGroup.EarlyExactly | src/coev/co_waitgroup.cpp:12-37 | in every reachable state, a coroutine that has not called wait yet can call it and be woken with the count positive throughout and no further add or decrement, if and only if the count is positive and some done is draining |
| WaitGroup.CalmExactly | src/coev/co_waitgroup.cpp:18-37 | somebody can be woken early at some moment of a run if and only if some add of that run is called while a done drains and leaves the count positive |
| WaitGroup.NoEarlyWakeup | src/coev/co_waitgroup.cpp:28-37 | in a run without such an add every wake-up happens while the count is down |
| WaitGroup.EarlyWakeup | src/coev/co_waitgroup.cpp:28-37 | a run in which the count is positive during the whole wait of a coroutine that is woken |
| TaskIds.Increase | src/coev/co_task.cpp:29-45 | the search terminates and returns the first unused identifier going round the ring, and marks exactly it as used |
| TaskIds.SomeFree | src/coev/co_task.cpp:31 | as long as fewer identifiers are in use than exist, one is free |
| TaskIds.FirstFreeExists | src/coev/co_task.cpp:29-45 | as long as an identifier is free there is a first free one going round the ring |
| TaskIds.FirstFreeUnique | src/coev/co_task.cpp:29-45 | that first unused identifier is unique |
| TaskIds.CoTask.Load | src/coev/co_task.cpp:192-209 | enters the promise under the first unused identifier and returns that identifier cut to an int; live tasks keep pairwise distinct identifiers, all marked as used |
| TaskIds.CoTask.Unload | src/coev/co_task.cpp:211-225 | removes the promise, frees its identifier and returns it cut to an int, deciding on the whole identifier whether to deliver; or answers 0 and changes nothing when the promise is not there |
| TaskIds.ReturnedExactly | src/coev/co_task.cpp:192-209 | the caller of load gets the true identifier if and only if it is below 2^31 |
| TaskIds.ReturnedTwice | src/coev/co_task.cpp:192-209 | identifiers 2^32 apart are returned as the same number |
| TaskIds.CoTask.Destroy | src/coev/co_task.cpp:159-173 | removes the live entry with that identifier if there is one, without freeing the identifier |
| TaskIds.CoTask.DestroyAll | src/coev/co_task.cpp:145-151 | empties the table, without freeing identifiers |
| WaitForAll.TakeKeepsInv | src/coev/co_task.cpp:177-231 | every step of the parent and of the unloading children keeps the invariant |
| WaitForAll.EveryRunWaitsForAll | src/coev/wait_for.h:49-59 | the parent returns only when all children were loaded and have left the table; while it sleeps a child is live or an unload has still to deliver |
| WaitForAll.ReturnsBeforeDelivery | src/coev/co_task.cpp:211-231 | a state in which the parent has returned and an unload can still deliver on its task object is reachable if and only if there is a child |
| WaitForAll.NeverStuck | src/coev/wait_for.h:49-59 | with at most half the identifier range of children, until the parent returns some step can always be taken and the assertion in the identifier search holds |
| WaitForAll.EveryRunEnds | src/coev/wait_for.h:49-59 | every run of a call with so many children has at most 24 times as many steps and six more, so that with NeverStuck the parent returns |
| LiveTask.TakeKeepsInv | src/coev/co_task.cpp:145-231 | every step of any number of waiters, the loads, the unloading and the destroyed children keeps the invariant |
| LiveTask.EveryRunCoversTheWaiter | src/coev/co_task.cpp:177-231 | with one waiting coroutine and no child destroyed, until the identifiers wrap whoever sleeps in wait or wait_all is covered by a live child or an unload that has still to deliver; StrandsExactly shows that each of these conditions is needed |
| LiveTask.WaitReturnsExactly | src/coev/co_task.cpp:177-191 | wait suspends unless no child is live and returns when woken; wait_all returns exactly when its own test finds no child live |
| LiveTask.CanLoadExactly | src/coev/co_task.cpp:29-45 | a child can be loaded if and only if fewer than half of TASK_ID_MAX identifiers are in use, as the source asserts |
| LiveTask.StrandsExactly | src/coev/co_task.cpp:145-231 | for any number of waiters, with or without destroyed children: within n loads some waiter can be left behind if and only if there is a waiter and n exceeds TASK_ID_MAX, or n is at least 1 and there are two waiters or children are destroyed |
| LiveTask.SecondWaiterStrands | src/coev/co_task.cpp:211-231 | the run: two coroutines sleep on one child, which delivers once, and the second sleeps on with an empty table |
| LiveTask.MisreportsExactly | src/coev/co_task.cpp:192-209 | within n loads a live child whose loader was told another number than its identifier is reachable if and only if n is at least 2^31 |
| LiveTask.StrandedIsStuck | src/coev/co_task.cpp:177-231 | from such a state every step except a new load leaves each sleeper asleep and the state stranded |
| Deliver.TakeKeepsInv | src/coev/co_deliver.cpp:77-93 | every step of the handing-over threads and the loop thread keeps the invariant |
| Deliver.EveryRunResumesInOrder | src/coev/co_deliver.cpp:20-93 | events are resumed at most once and in hand-over order; a waiting event always has a wake-up pending or a callback about to move the list; an idle loop without a wake-up has resumed everything |
| Deliver.CoDeliver.CallResume | src/coev/co_deliver.cpp:77-82 | on the heap lists: queues the event and raises the signal, the machine's step |
| Deliver.CoDeliver.MoveOut | src/coev/co_deliver.cpp:84-90 | on the heap lists: moves the whole queue to the local list, the machine's step |
| Deliver.CoDeliver.PopOne | src/coev/co_async.cpp:41-49 | on the heap lists: takes the next event off the local list before it is resumed, or leaves, the machine's step |
| Handover.TakeKeepsInv | src/coev/co_async.cpp:60-153 | every step of queue, events and per-thread deliverers together keeps their joint invariant: each wake-up is in exactly one place, and a thread works on what its calls say |
| Handover.EveryRunGoesOnOnce | src/coev/co_async.cpp:109-153 | in every interleaving of any number of waiters and threads, each waiter goes on at most once and only after it was taken off the queue, no event assertion fails, and it reads 0 whatever value deliver passed |
| Handover.EveryRunKeepsHandOrder | src/coev/co_deliver.cpp:77-105 | on every thread, the tickets handed to its co_deliver go on in hand-over order, each on its own thread, and exactly those that came through are recorded |
| Handover.FreeThreadWaits | src/coev/co_async.cpp:84-108 | a free thread can always start to wait, last in the queue |
| Handover.FreeThreadTakesOff | src/coev/co_async.cpp:60-70 | and take off the first waiter, which it can then resume |
| Handover.ValueIsOverwritten | src/coev/co_async.cpp:132-153 | a value passed to deliver is put into the event and overwritten with 0 by the first step of its resume |
| Handover.HandOverQueues | src/coev/co_async.cpp:109-153 | a deliver call on another thread puts the waiter last into the co_deliver of its own thread and leaves a wake-up pending |
| Handover.AtRestAllGone | src/coev/co_async.cpp:109-153 | when no call, event or loop can take a step of its own any more, every waiter taken off the queue has gone on, exactly once |
| Handover.EveryRunComesToRest | src/coev/co_deliver.cpp:20-105 | without new waits and take-offs only so many steps can follow one another, so that rest is reached |
| ClientPool.ThoseUpdate | src/coev/client_pool.h:131-133 | how a head count changes when one coroutine changes phase |
| ClientPool.TakeKeepsInv | src/coev/client_pool.h:183-256 | every step between two suspension points keeps the counters equal to the true counts |
| ClientPool.EveryRunCounts | src/coev/client_pool.h:183-256 | in every interleaving m_used is the number of instances held, m_connecting the number of creations under way, m_used + idle = m_connected, and m_connected + m_connecting never exceeds the maximum; HeadServes and GivesUpExactly say what each call gets |
| ClientPool.EveryRunExclusive | src/coev/client_pool.h:183-256 | in every interleaving no client is held by two coroutines, or held and idle, or idle twice |
| ClientPool.HeadServes | src/coev/client_pool.h:183-240 | in every state that keeps the counters, a coroutine at the head of the loop waits last in line when every connection is in use and none may be created, starts a creation that hands it the new client when there is room, and takes the first idle client otherwise |
| ClientPool.CallsAndRetries | src/coev/client_pool.h:202-226 | a failed creation is retried after a sleep while attempts are left, and gives its place back otherwise |
| ClientPool.GivesUpExactly | src/coev/client_pool.h:183-226 | over whole runs a call leaves without a client exactly when the maximum is 0, when there is room but no attempt is allowed, or when so many creations have failed since it was last at the head as are allowed |
| ClientPool.ReleaseWakesFirst | src/coev/client_pool.h:242-252 | a released client goes last among the idle ones and the first waiter back to the head of the loop |
| ClientPool.NoUnderflow | src/coev/client_pool.h:227-255 | whenever there is no room and not everybody has to wait there is an idle client to pop, and no counter is decremented below zero |
| Crc32.StepLinear | src/coev_kafka/crc32_field.cpp:44-54 | a bit step is linear over exclusive or |
| Crc32.StepInjective | src/coev_kafka/crc32_field.cpp:44-54 | a bit step loses nothing, for both polynomials |
| Crc32.StepsDrop | src/coev_kafka/crc32_field.cpp:127 | eight bit steps merely drop a zero low byte |
| Crc32.TableStep | src/coev_kafka/crc32_field.cpp:126-127 | the table update equals eight bit steps after mixing in the byte |
| Crc32.CastagnoliTable | src/coev_kafka/crc32_field.cpp:39-59 | the table holds, for every byte, eight bit steps of it |
| Crc32.FoldByTable | src/coev_kafka/crc32_field.cpp:123-129 | over a whole buffer the table-driven loop computes the bit-by-bit checksum |
| Crc32.FoldByBits | src/coev_kafka/crc32_field.cpp:131-148 | the bit-by-bit loop computes the fold of its bytes |
| Crc32.FoldAppend | src/coev_kafka/crc32_field.cpp:123-148 | the register after two buffers is the register after the second, started from the first |
| Crc32.FoldInjective | src/coev_kafka/crc32_field.cpp:123-148 | reading the same bytes keeps different registers different |
| Crc32.FoldWord | src/coev_kafka/crc32_field.cpp:123-148 | up to four bytes act on the register as one word, whatever the polynomial |
| Crc32.BigEndianRoundTrip | src/coev_kafka/crc32_field.cpp:82-104 | the bytes written by run are read back by check as the same word |
| Crc32.Crc32Field.Crc | src/coev_kafka/crc32_field.cpp:118-150 | by table or bit by bit, the checksum of the bytes after the field; CheckValues fixes which checksum that is for either polynomial |
| Crc32.CheckValues | src/coev_kafka/crc32_field.cpp:118-150 | the published check values: over "123456789" CRC-32 is 0xCBF43926 and CRC-32C is 0xE3069283 |
| Crc32.CheckField | src/coev_kafka/crc32_field.cpp:73-116 | a field anywhere in a buffer that covers "123456789" is intact exactly when its four bytes are the check value, most significant byte first |
| Crc32.Crc32Field.Run | src/coev_kafka/crc32_field.cpp:73-87 | overwrites exactly the four field bytes, and the field is intact afterwards |
| Crc32.Crc32Field.Check | src/coev_kafka/crc32_field.cpp:91-116 | succeeds exactly when the field is intact, in particular right after run; otherwise reports a mismatch |
| Crc32.BurstIsCaught | src/coev_kafka/crc32_field.cpp:91-116 | any change to an intact buffer confined to at most four consecutive covered bytes leaves a field that is not intact, so check reports a mismatch, for both polynomials |
| Crc32.FiveBytesCanSlip | src/coev_kafka/crc32_field.cpp:118-150 | from every register, five bytes can be replaced by five others with any other first byte that lead to the same register |
| Crc32.FiveByteChangeSlips | src/coev_kafka/crc32_field.cpp:91-116 | in every intact buffer every five consecutive covered bytes can be changed so that the buffer is still intact and check succeeds |
| Crc32.CatchesExactly | src/coev_kafka/crc32_field.cpp:91-116 | every change confined to w consecutive covered bytes of an intact buffer is caught if and only if w is at most 4, for both polynomials |
| Metadata.Client.SetPartitionCache | src/coev_kafka/client.cpp:711-728 | the list for a topic is the ascending ids of its metadata, for the writable list those whose leader is available |
| Metadata.Client.CachedPartitions | src/coev_kafka/client.cpp:701-709 | whatever is looked up, cached or not, is exactly what the metadata says: each id of the right kind once, ascending |
| Metadata.LookupIsExact | src/coev_kafka/client.cpp:701-728 | under the invariant a look-up equals a recomputation for every topic and both lists |
| Metadata.Client.UpdateTopic | src/coev_kafka/client.cpp:974-1019 | what one topic of a response does to the three maps, and exactly when it asks for a retry |
| Metadata.Client.UpdateMetadata | src/coev_kafka/client.cpp:956-1021 | keeps cache and metadata in agreement; a closed client changes nothing; on a full refresh a topic that the response does not mention is gone from all three maps, on a partial one it stays as it was; a retry is asked for exactly when some topic of the response calls for one |
| Metadata.RefreshOthers | src/coev_kafka/client.cpp:965-970 | a full refresh forgets every topic not mentioned, a partial one leaves it alone |
| Metadata.FullRefreshIsFresh | src/coev_kafka/client.cpp:965-970 | what a full refresh leaves in the three maps depends on the response alone |
| Metadata.RefreshMentioned | src/coev_kafka/client.cpp:972-1019 | after either kind of refresh the last entry of a mentioned topic alone decides what is kept of it |
| Metadata.AnswersAre | src/coev_kafka/client.cpp:956-1021 | what is looked up afterwards for a mentioned topic: with error code 0 or 5 exactly the ids carried by its last entry, for the writable list those whose last entry has no code 5, ascending; with any other code nothing |
| Metadata.RetriesExactly | src/coev_kafka/client.cpp:984-1012 | a topic calls for a retry exactly on code 3 or 5, or on a partition with code 5 when its own code is 0 |
| Metadata.EnterAgrees | src/coev_kafka/client.cpp:974-1019 | one topic, accepted or refused, keeps cache and metadata in agreement |
| Metadata.EveryRunAgrees | src/coev_kafka/client.cpp:956-1021 | after any sequence of responses, faulty, repeating or complete, the cache agrees with the metadata |
| Metadata.LastTopicWins | src/coev_kafka/client.cpp:972-1019 | a topic's last entry in a response alone decides its metadata and whether it is cached |
| Metadata.LastPartitionWins | src/coev_kafka/client.cpp:1007-1010 | a partition's last entry in a topic is the one kept |
| Metadata.OthersStay | src/coev_kafka/client.cpp:972-1019 | topics a response does not mention are left alone |

## Left out

- PerformReassignments: the do-while loop need not end (NeverSettles), so its number of passes is bounded by a parameter; the contract says exactly what so many passes do and whether the loop has ended by then.
- Fair: a partition whose owner has the empty string as its name is exempt, because the loop skips an empty owner name (src/coev_kafka/balance_strategy.cpp:1073).
- GetBalanceScore: the source adds in `double` and casts to int; the model adds integers.
- EveryRunLosesNoWakeup: an `add(n)` that brings a positive count down to zero or less is excluded; see AddIsSafeExactly.
- EveryRunWaitsForAll: at most TASK_ID_MAX children in one call, more than any call can list.
- NeverStuck: at most TASK_ID_MAX / 2 children, the bound the assertion at src/coev/co_task.cpp:31 asks for on identifiers in use.
- CoTask.Load: starting or resuming the loaded coroutine is not modelled.
- EveryRunCounts: a client returned by `create` is open, the maximum does not change, and nothing is cancelled; a client created closed is passed to `del` without having been counted (src/coev/client_pool.h:220), which is excluded.
- ReassignPartition: the branch of performReassignments that moves a partition back to its previous member (src/coev_kafka/balance_strategy.cpp:1078-1092), the reading of earlier assignments (586-641, 888-916) and the restoring of the earlier assignment (1036-1041) never happen from Plan and are not modelled.
- UpdateMetadata: brokers, controller id and the metadata refresher, which the same call updates, are not modelled; closed is a field that nothing here changes. `Client::Close` clears the metadata but not the cache.
- Round-robin assignment, assignment user data, `areSubscriptionsIdentical`.
- The plain `co_channel`, whose woken getter pops without looking again, and the single-threaded `co_mutex`, `co_task` and `wait_for_all`.
- Values passed through the plain `co_async::resume(value)`, which the following resume overwrites as in the guard version.
- Relocking the internal mutex after a wake-up, cancellation, memory orders and coroutine frames; a nested resume is a later step of the machines.
- The map of loop threads, stopping a deliverer, and events for threads that have ended.
- Client pool: waiters after a failed creation, `stop`, `clear`, per-thread pools and moving instances.
- The pool of CRC field objects.
- libev loops, timers, sockets, TLS, DNS, HTTP, SASL, logging, broker connections, retries, Kafka packet encoding, producers and consumer sessions.
