# OTHire: verified models of the server's algorithms

OTHire is a game server. Around its scripts, database and sockets it holds a number of self-contained
algorithms that keep delicate state: a node-file format read through a small block cache, nested containers
with totals that are passed up on every change, stack merging and splitting, money, two ways of storing the
items of a map, a timer wheel and a scheduler, incremental caches and ledgers on creatures, two protocols, and
the matrices of combat areas. This project models each of them in Dafny and proves what they keep.

Code that changes things in place is modelled by classes and arrays; each such method is proved against a
specification, and lemmas say what the specification promises. Modules:

| module | models |
|---|---|
| `NodeFormat` | the node-file format: escaping, printing, and the rows the parser accepts |
| `NodeFiles` | `FileLoader`: the three-slot cache, the recursive parser on linked nodes, `getProps`, writing |
| `Forests` | forests with summed columns: ancestors, descendants, attaching and detaching, breadth-first order |
| `Containers` | `Container`: its list, its totals, its queries, and `ContainerIterator` |
| `Moves` | `Game::internalMoveItem` and `Game::internalAddItem` between containers |
| `Money` | `getMoney`, `removeMoney`, `addMoney` |
| `MapItems` | item attributes as bytes, `PropStream`, `PropWriteStream`, item trees with totals |
| `MapBinary` | the binary map store |
| `MapRelational` | the relational map store |
| `DecayWheels` | the sixteen-bucket decay wheel |
| `Thinkers` | the ten vectors of creature checks with lazy deletion |
| `WalkCaches` | the local walk cache of a creature |
| `Conditions` | the conditions of a creature and the ledger of speed, skills and stats |
| `DamageLists` | the splitting of damage over time |
| `Connections` | the close protocol of a connection |
| `Trades` | the trade handshake |
| `Areas` | combat areas, their rotations and reflections |

## Findings

Where the code does not meet what it is for in every case, the exact condition is proved, and a case that fails is given.

- source/fileloader.cpp:281-286. A node whose type is 0xFE or 0xFF does not survive being written and read: the writer
  escapes the type byte, the parser does not undo it. A node of type 0xFD survives only with some properties.
  `NodeFormat.RoundTrip` says exactly which rows survive, `NodeFormat.SpecialTypeLost` gives a row that does not.
- source/fileloader.cpp:363-383. The loop of `readBytes` over a cache would not end for bytes past the end of the file
  (`NodeFiles.ReadBytesEnds`). No caller reaches this: the method is not public, `getProps` is its only caller, and the
  range of a parsed node always lies in the file (`NodeFiles.NodePropsReadable`).
- source/container.cpp:733-751. `Container::__removeThing` with a count above that of a stack would leave the totals wrong
  (`Containers.Item.RemoveThing`, and `Moves.TotalsBreak` for one that does). The moves that are modelled never ask for it, as `__queryRemove` refuses such a count.
- source/game.cpp:1336-1365. `internalMoveItem` can take units out that the destination then refuses. It loses units if and
  only if they go onto a stack that lies beyond the size of its container and has not enough room, which in a container with a size
  of its own takes limits that are off; or a whole thing goes to the place behind the last one of the container without a size it is in
  (`Moves.MoveLosesExactly`, and `Moves.InternalMoveItem` for how many). `Moves.UnitsAreLost` loses 40 of 140 units.
- source/game.cpp:4196-4215. An item that takes a new form while it is filed for decay, and is then started to decay, is
  listed twice (`DecayWheels.Game.Enlist`, and `DecayWheels.ListedTwice` for one that is).
- source/condition.cpp:1523-1552. `generateDamageList` may overshoot the amount, when the first hit is large beside the rest;
  it is exact if and only if `DamageLists.Exact` holds (`DamageLists.GenerateDamageList`, and `DamageLists.Overshoots` for 29 in
  hits from 25).
- source/combat.cpp:1356-1375. The mirrored and flipped copies of an area place the centre by the wrong dimension; they are
  reflections if and only if the matrix is a square or has no cell set (`Areas.MirrorExact`, `Areas.FlipExact`, and for the
  corner areas of a list `Areas.AreaCombat.SetupExtArea`; `Areas.CornersMissed` has two that are not). `createArea` writes outside
  its matrix if and only if the list sets a cell behind its last full row (`Areas.WritesInside`).
- source/connection.cpp:426-446. A send whose timer cannot be set leaves a pending write that nothing will finish. A connection
  that is to be closed may stay in CLOSING if and only if a write is pending without an error, neither it nor its timer is
  under way, and the read timer need not close the socket either (`Connections.Connection.MayStay`): otherwise every order of
  events closes it (`Connections.Connection.Drain`), and from there one leaves it (`Connections.Connection.Stay`), never to be
  closed (`Connections.Connection.Run`). `Connections.LostWriteStaysClosing` gets there.
- source/game.cpp:2780-2797. A player who has only acknowledged a trade can accept it without an offer; if the other player
  accepts too, the trade enters its transfer, moves nothing, and ends (`Trades.Game.BeginAccept`, `Trades.Game.FinishAccept`).
- source/game.cpp:1711-1714 and 1766-1793. `getMoney` saturates while `removeMoney` adds up in a word that wraps: with 2^32 or more
  in reach, `removeMoney` may refuse an amount that is there (`Money.GetMoney`, `Money.Purse.RemoveMoney`, and `Money.RefusedWithPlenty` for one it refuses).
- source/game.cpp:2740-2744 and 2780-2795. A player who has offered can accept before the partner has: the partner then offers anything
  and accepts, and both items change hands (`Trades.OpenAcceptance`). An acceptance is of this kind if and only if the
  partner had only acknowledged (`Trades.Game.BeginAccept`); otherwise what changes hands is what lay on the table at the acceptance, and
  of two who exchange at most one has accepted in this way (`Trades.Game.FinishAccept`).
- source/item.cpp:567-615 and 171-202. An item keeps its attributes through the map store if and only if `MapItems.Faithful`
  holds: owners, unique ids, long strings, negative durations and charges on a stack, among others, do not come back
  (`MapItems.AttributesBack`). An item that has used up its charges comes back with all that its type has
  (`MapItems.UsedUpRefilled`).
- source/iomapserialize.cpp:198-199, 276-277 and 525-527. Loading starts the decay of what it puts on a tile, so that what can decay comes
  back as it was only if it was decaying with more than 499 ms left (`MapItems.DecayStarts`), where the load starts it. The relational
  store starts it for things on the tile and directly in containers on it, and no deeper, as a container that lies in another
  one comes to the tile only later; the binary store at any depth, but never for containers themselves, nor does the relational
  store for containers on the tile. `MapItems.Sound` is the exact condition for each, and `MapItems.Torches` has a torch that
  burns on from one of them only, and a body that decays on from the other only.

## Model

| member | source | states |
|---|---|---|
| `NodeFormat.UnescapeEscape` | source/fileloader.cpp:226-245 | any bytes, escaped by the writer and unescaped by getProps, are the original bytes |
| `NodeFormat.ScanExact` | source/fileloader.cpp:136-204 | the scan for the end of the properties stops at an offset if and only if a delimiter is there and everything before it is well escaped |
| `NodeFormat.ParseSound` | source/fileloader.cpp:126-213 | on any bytes: what the parser accepts is a row of nodes laid out in the file without gaps, properties escaped, every node ended, and it stops right behind the row, at the end of the file or of the parent |
| `NodeFormat.ParseComplete` | source/fileloader.cpp:126-213 | every such layout is parsed, to exactly the nodes it lays out |
| `NodeFormat.ParseExact` | source/fileloader.cpp:126-213 | parsing gives a row and an end offset if and only if the file holds the layout of that row from the start to that offset |
| `NodeFormat.RangesSeparated` | source/fileloader.cpp:126-213 | the property ranges of a laid-out row are pairwise disjoint, in file order, and inside the row |
| `NodeFormat.ParsedRangesDisjoint` | source/fileloader.cpp:126-213 | whatever file was parsed, the property range of every node lies inside the file, ends before its child begins, and is disjoint from all others |
| `NodeFormat.RoundTrip` | source/fileloader.cpp:126-213 | a row printed anywhere in a file parses back to the same tree, with the same types and unescaped properties, if and only if its types are readable |
| `NodeFormat.PlainTypesReadable` | source/fileloader.cpp:281-286 | all rows with types below 0xFD are readable, whatever their properties |
| `NodeFormat.SpecialTypeLost` | source/fileloader.cpp:281-286 | a node of type 0xFE is written so that parsing fails |
| `NodeFiles.ClearBits` | source/fileloader.cpp:487-504 | clearing the bits of a mask takes off at most the mask, for any mask |
| `NodeFiles.CacheSizeFor` | source/fileloader.cpp:92-97 | the block size is positive and at most 32768 for every file size |
| `NodeFiles.BlockBase` | source/fileloader.cpp:487-504 | the block that is computed for an offset contains the offset, for every block size, a power of two or not |
| `NodeFiles.Available` | source/fileloader.cpp:363-383 | a turn of the read loop can copy something unless the offset is the end of the file, and never past it |
| `NodeFiles.LeftAfterBounds` | source/fileloader.cpp:363-383 | so many turns leave nothing to read inside the file, and never less than what lies beyond it |
| `NodeFiles.ReadBytesEnds` | source/fileloader.cpp:358-402 | the loop of readBytes ends if and only if the bytes asked for lie in the file |
| `NodeFiles.WrittenFileLoads` | source/fileloader.cpp:58-124 | a written row opens as a file and decodes to what was written if and only if it is readable |
| `NodeFiles.NodePropsReadable` | source/fileloader.cpp:215-255 | every node of any parsed file has a property range in the file that is well escaped, as getProps needs |
| `NodeFiles.FileLoader.constructor` | source/fileloader.cpp:26-40 | a new loader has no file, nothing in its cache and a buffer of 1024 bytes |
| `NodeFiles.FileLoader.OpenFile` | source/fileloader.cpp:58-124 | with or without a cache, a file opens if and only if its identifier is accepted and a row can be parsed at offset 4, and then the linked nodes are that row |
| `NodeFiles.FileLoader.ParseRoot` | source/fileloader.cpp:99-117 | the tree is built if and only if offset 4 starts a row, and is that row |
| `NodeFiles.FileLoader.OpenForWriting` | source/fileloader.cpp:60-66 | a new file holds the four wildcard bytes |
| `NodeFiles.FileLoader.WriteData` | source/fileloader.h:135-154 | appends the bytes, escaped if asked |
| `NodeFiles.FileLoader.StartNode` | source/fileloader.cpp:281-286 | appends a node start and the type, which is escaped |
| `NodeFiles.FileLoader.SetProps` | source/fileloader.cpp:272-279 | appends the escaped properties |
| `NodeFiles.FileLoader.EndNode` | source/fileloader.cpp:288-292 | appends the node end |
| `NodeFiles.FileLoader.LoadCacheBlock` | source/fileloader.cpp:506-551 | loads the block into the first free slot, else the first far one, else slot 0; every loaded slot still holds the bytes of the file at its base |
| `NodeFiles.FileLoader.GetCacheBlock` | source/fileloader.cpp:487-504 | returns a slot with the block of the offset, and changes no slot if one had it |
| `NodeFiles.FileLoader.SafeSeek` | source/fileloader.cpp:442-461 | cached or not, the reader is at the offset, like a plain file |
| `NodeFiles.FileLoader.SafeTell` | source/fileloader.cpp:463-485 | gives the offset of the byte before the one that comes next, cached or not |
| `NodeFiles.FileLoader.ReadByte` | source/fileloader.cpp:324-356 | gives the byte of the file at the position and moves one on, or fails at the end of the file, cached or not |
| `NodeFiles.FileLoader.ReadChunk` | source/fileloader.cpp:364-382 | copies part of a block, the bytes of the file, and makes progress |
| `NodeFiles.FileLoader.ReadBytesCached` | source/fileloader.cpp:360-385 | copies exactly the bytes of the file, across any number of blocks |
| `NodeFiles.FileLoader.ReadBytes` | source/fileloader.cpp:358-402 | copies exactly the bytes of the file, cached or not, leaves the rest of the buffer, and stands behind them |
| `NodeFiles.FileLoader.ParseBody` | source/fileloader.cpp:131-205 | one node of a row: its type, its property size, its children and its end, or no row can be parsed |
| `NodeFiles.FileLoader.EndChildless` | source/fileloader.cpp:156-165 | a node without children has the properties up to its end |
| `NodeFiles.FileLoader.ParseChild` | source/fileloader.cpp:139-154 | the first child of a node is the row that starts where the delimiter was found |
| `NodeFiles.FileLoader.StartNext` | source/fileloader.cpp:167-175 | a sibling is linked behind the node, which is otherwise finished |
| `NodeFiles.FileLoader.ParseNode` | source/fileloader.cpp:126-213 | terminates on any bytes, fails if and only if no row can be parsed, and otherwise links exactly the nodes of the row and stands at its end |
| `NodeFiles.FileLoader.GetProps` | source/fileloader.cpp:215-255 | the buffer, doubled until it is large enough, begins with exactly the unescaped properties of the node |
| `NodeFiles.UnescapeInPlace` | source/fileloader.cpp:226-245 | the displacement loop leaves the unescaped bytes at the front of the same buffer |
| `Forests.BumpSummed` | source/container.cpp:164-178 | adding a difference to a node and all its holders keeps every sum right when the node's own share changes by it |
| `Forests.BumpBreaks` | source/container.cpp:164-178 | adding it without such a change breaks a sum |
| `Forests.AttachValid` | source/container.cpp:538-590 | adding a loose node to one it does not hold keeps the forest acyclic and linked from both ends |
| `Forests.AttachSummed` | source/container.cpp:538-590 | and, with its number passed up, every sum right |
| `Forests.DetachValid` | source/container.cpp:704-765 | taking a child out keeps the forest acyclic and linked |
| `Forests.DetachSummed` | source/container.cpp:704-765 | and, with its number passed up negatively, every sum right |
| `Forests.SummedIsRecount` | source/container.cpp:164-183 | numbers that sum up at every node are the recursive recount of everything nested |
| `Forests.RecountIsSize` | source/container.cpp:226-235 | with a share of one each, the recount is the number of nested nodes |
| `Forests.BfsVisits` | source/container.cpp:1013-1034 | taking the first pending node and appending its children visits a node if and only if it is nested in a pending one, and ends |
| `Forests.BfsExactlyOnce` | source/container.cpp:1013-1034 | from the contents of a container, every nested node is visited exactly once |
| `Containers.Item.UpdateAmountOfItems` | source/container.cpp:164-170 | the difference reaches the container and every one that holds it, and no other |
| `Containers.Item.UpdateItemWeight` | source/container.cpp:172-178 | the same for the weight |
| `Containers.Item.InternalAddThing` | source/container.cpp:870-917 | puts the item in front, and keeps the forest acyclic and both totals right everywhere |
| `Containers.Item.GetItemHoldingCount` | source/container.cpp:226-235 | the count by iteration plus one is amountOfItems, and the number of items nested |
| `Containers.Item.IsHoldingItem` | source/container.cpp:237-244 | true if and only if the item is nested anywhere inside |
| `Containers.Item.GetIndexOfThing` | source/container.cpp:767-778 | the first index of the thing, or -1 |
| `Containers.Item.QueryAdd` | source/container.cpp:319-388 | the answer for every input; a container is refused if and only if it is the destination or holds it, before the room and the nested amount of every holder are considered |
| `Containers.Item.QueryRemove` | source/container.cpp:437-459 | gives the item away if and only if it is in the list, the count is neither zero nor above that of a stack, and it may be moved |
| `Containers.Item.QueryMaxCount` | source/container.cpp:390-435 | with limits, a hundred units for every free slot and what is missing to a hundred on a stack of the same id in the slot; a room error if and only if not all fits; without limits all is let through |
| `Containers.Item.FirstStack` | source/container.cpp:461-531 | the first thing of the list that is another item of the same id and not full, or none if there is none |
| `Containers.Item.QueryDestination` | source/container.cpp:461-531 | the destination, index and target for every input: the holder, the container in the slot, the first stack with room, or the container itself |
| `Containers.Item.AddThing` | source/container.cpp:538-590 | adds in front, with all totals right, or does nothing if the index is not below the capacity |
| `Containers.Item.UpdateThing` | source/container.cpp:592-641 | restamps the item of the list and keeps all totals right |
| `Containers.Item.RemoveUnits` | source/container.cpp:733-751 | takes units off a stack; totals stay right if and only if fewer are taken than there are |
| `Containers.Item.RemoveWhole` | source/container.cpp:752-764 | takes the item out, loose afterwards, with all totals right |
| `Containers.Item.RemoveThing` | source/container.cpp:704-765 | takes out the whole item or units of it; all totals stay right if and only if no more than its count is asked of a stack |
| `Containers.Item.ReplaceThing` | source/container.cpp:643-702 | the new item has the place of the old one, which is loose; all totals are right |
| `Containers.ContainerIterator.Begin` | source/container.cpp:927-942 | the iterator has the contents of the container before it |
| `Containers.ContainerIterator.Next` | source/container.cpp:1013-1034 | passes the current item and appends what it holds to what comes |
| `Containers.ContainerIterator.Push` | source/container.cpp:1016-1021 | what a container holds comes after all that is pending |
| `Containers.ContainerIterator.Advance` | source/container.cpp:1023-1031 | the first pending item is passed, to the next container if need be |
| `Containers.AmountIsSize` | source/container.cpp:164-170 | with consistent totals, amountOfItems is the number of items nested, the container included |
| `Containers.WeightIsRecount` | source/container.cpp:172-183 | and getWeight is the recursive sum of own weights |
| `Moves.Take` | source/game.cpp:1330-1340 | removing units takes exactly them out of the one container, and leaves every other thing and list as it is |
| `Moves.Merge` | source/game.cpp:1342-1348 | merging adds exactly the units to the stack, and changes no other thing |
| `Moves.Put` | source/container.cpp:538-590 | adding an item adds exactly its units, or nothing if the index is refused |
| `Moves.Resolve` | source/game.cpp:1253-1264 | the destination loop ends within its bound, at a destination whose target is in its list |
| `Moves.Ask` | source/game.cpp:1246-1334 | asks without changing anything, gives the specified answer, and plans only what can be carried out |
| `Moves.AskAt` | source/game.cpp:1266-1334 | the same for a settled destination |
| `Moves.FitsIs` | source/game.cpp:1309-1318 | asking for the room by the index of the target gives the free slots and what the target takes |
| `Moves.MoveAmount` | source/game.cpp:1309-1334 | for a stack that the destination accepts: refused for room if and only if there is no free slot and the target is no stack of the same id below a hundred; else, if the source gives it away, the smaller of the count and a hundred for every free slot with what the target misses |
| `Moves.AnswerSound` | source/game.cpp:1266-1334 | a plan moves at least one unit and no more than there are, never an item into itself, and within the room the destination has |
| `Moves.MoveLostIs` | source/game.cpp:1336-1365 | the units lost, as a function of the call, are those of the plan that are not merged, if the place is refused after the taking |
| `Moves.LostExactly` | source/container.cpp:538-546 | a plan loses units if and only if it goes past a full stack beyond the size, or to the place that goes with the thing itself |
| `Moves.MoveLosesExactly` | source/game.cpp:1246-1400 | so for a whole call: the exact condition, on the plan it settles on |
| `Moves.UnitsAreLost` | source/game.cpp:1336-1365 | a call in a world of two containers with 140 units of a kind, after which they hold 100 |
| `Moves.OverfullWorld` | source/container.cpp:538-546 | there is such a world |
| `Moves.TotalsBreak` | source/container.cpp:733-751 | taking 91 units off a stack of 90 leaves its container with wrong totals |
| `Moves.CarryOut` | source/game.cpp:1336-1365 | a feasible plan moves its units, less the lost ones, respects the limits it must, and changes nothing else: units leave the item or it goes as a whole, the target grows by what merges, and what does not lies in front of the destination |
| `Moves.TakeAndMerge` | source/game.cpp:1336-1348 | units taken out, those that fit merged: both containers change by exactly these |
| `Moves.CreateStack` | source/item.cpp:46-95 | a new stack is held by nobody and changes no container |
| `Moves.PutNew` | source/game.cpp:1350-1365 | the units of a new stack enter the destination, or vanish if the index is refused |
| `Moves.Deliver` | source/game.cpp:1350-1365 | what could not be merged enters the destination |
| `Moves.Perform` | source/game.cpp:1336-1365 | source and destination change by the units moved, less the lost ones, for every kind of item; all other things and lists stay |
| `Moves.InternalMoveItem` | source/game.cpp:1246-1400 | the return value and the moved amount for every input; which stack grows and by how much, and what every list then holds; units of every kind are conserved over all containers except exactly the lost ones, whose number is given for every input; no container exceeds its limit unless limits are off; totals stay right |
| `Moves.MoveTo` | source/game.cpp:1253-1400 | the same for a call with a destination: the answer, the units, what every thing then stands for and every list holds |
| `Moves.AddAccepted` | source/game.cpp:1439-1480 | an accepted item is merged, split or added with exactly its units, poured as specified |
| `Moves.PutAccepted` | source/game.cpp:1457-1479 | an accepted item that is not merged is added whole |
| `Moves.AddRemainder` | source/game.cpp:1449-1456 | the remainder of a merged stack is accepted and added, and the recursion ends |
| `Moves.InternalAddItem` | source/game.cpp:1402-1483 | the return value for every input, with the room that the item needs; without an error exactly the units of the item are added: the stacks are filled one after the other, and what is left, the item itself or a new stack, lies in front of the destination; with an error nothing changes; no limit is exceeded unless limits are off; it ends and leaves no remainder |
| `Moves.PouredFirst` | source/game.cpp:1444-1456 | units poured over all stacks in one go are those of which the first stack with room takes what it can, and the others are poured again |
| `Moves.AddedIs` | source/game.cpp:1439-1480 | where the units of an added item go, by the target the destination offers: what merges there, and the rest over the other stacks |
| `Moves.AddOnto` | source/game.cpp:1439-1469 | an item is merged into the target and what is left is added |
| `Moves.AddLeft` | source/game.cpp:1448-1469 | a new stack of what is left, the item itself if nothing merged, or nothing |
| `DamageLists.HalfIsExact` | source/condition.cpp:1523-1552 | if the rest is at least half the first hit, the list is exact |
| `DamageLists.EnoughIsExact` | source/condition.cpp:1523-1552 | the same, said of the amount |
| `DamageLists.Overshoots` | source/condition.cpp:1523-1552 | 29 points with a first hit of 25 are not exact |
| `DamageLists.DefaultStart` | source/condition.cpp:1273-1302 | the first hit is the least number that a twentieth of the amount does not exceed, and at least 1 |
| `DamageLists.DefaultStartExact` | source/condition.cpp:1273-1302 | a twentieth of the amount, rounded up, is always a first hit with an exact list |
| `DamageLists.FollowsOnce` | source/condition.cpp:1536-1551 | there is only one list in which, after the first hit, each value is dealt until twice what the curve asks for at it exceeds what was dealt by no more than the value, and no hit is dealt without need |
| `DamageLists.GenerateDamageList` | source/condition.cpp:1523-1552 | the one falling list that follows the curve; its values go from the first hit to 1, with a sum of at least the amount and less than half the first hit above; exactly the amount if and only if Exact; a single hit if the amount is not above it; a single zero for a first hit of zero |
| `DamageLists.ConditionDamage.constructor` | source/condition.cpp:1090-1102 | a new condition has no hits and an interval of 2000 |
| `DamageLists.ConditionDamage.AddDamage` | source/condition.cpp:1243-1271 | refuses if and only if it is already periodic; else adds one entry and its time for every round, or becomes periodic without an end |
| `DamageLists.ConditionDamage.AddHits` | source/condition.cpp:1292-1297 | every value of the list becomes one negative hit, in order, and the ticks grow by an interval for each |
| `DamageLists.ConditionDamage.Init` | source/condition.cpp:1273-1302 | the hits are the list of the curve for the first hit that is given, cut to the maximum, or else a twentieth of the amount; with none given they add up to exactly the amount drawn, with one to at least it; hits weaken and each costs at least one; the duration is that of the list |
| `DecayWheels.LongChecks` | source/game.cpp:4240-4286 | an item beyond the horizon goes round until it comes near, in all as many checks as its duration rounded to seconds |
| `DecayWheels.FiledChecks` | source/game.cpp:4240-4286 | the closed form: an item filed with a duration D of at least 500 decays on check floor((D+500)/1000) if D is above 15499, else one later |
| `DecayWheels.OtherBucketDue` | source/game.cpp:4240-4286 | a check brings items of other buckets one check nearer |
| `DecayWheels.ScannedBucketDue` | source/game.cpp:4240-4286 | an item of the scanned bucket is due if and only if next to nothing is left; else its new bucket brings it one check nearer |
| `DecayWheels.NearerBucket` | source/game.cpp:4265-4277 | the new bucket is never the scanned one |
| `DecayWheels.DecayItem.SetID` | source/item.cpp:268-286 | the form sets the duration and the mark of a decaying item |
| `DecayWheels.TransformedOn` | source/game.cpp:4217-4228 | an item that takes a form without time goes on to what that form decays to |
| `DecayWheels.ScannedDue` | source/game.cpp:4247-4281 | what was scanned is due or one check nearer; what was due has decayed once and once more for every form that lasts no time, and is in the form after those, waiting with its time if that lasts |
| `DecayWheels.Enlisted` | source/game.cpp:4196-4215 | listing an item keeps one place each if and only if it had none |
| `DecayWheels.Game.constructor` | source/game.cpp:76 | an empty wheel is valid |
| `DecayWheels.Game.Enlist` | source/game.cpp:4196-4215 | the same on the state: valid afterwards if and only if the item had no place |
| `DecayWheels.Game.StartDecay` | source/game.cpp:4196-4215 | an item is listed, decays at once to what comes after the forms that last no time, or is left alone, by its duration and marks; every listed item keeps exactly one place |
| `DecayWheels.Game.InternalDecayItem` | source/game.cpp:4217-4238 | the item is in its next form that lasts, with its time and marks, waiting if it does decay, and has decayed once and once more for every form that lasts no time; without a further form it has no place and does not decay; nothing else changes |
| `DecayWheels.Game.Cleanup` | source/game.cpp:4415-4435 | every waiting item gets the bucket of its duration, each in exactly one |
| `DecayWheels.Game.ScanItem` | source/game.cpp:4247-4281 | an item of the scanned bucket leaves, decays to its next form, stays or moves, and the scan goes on with the next one |
| `DecayWheels.Game.TakeOut` | source/game.cpp:4253-4264 | an item that is over leaves its bucket and decays to its next form |
| `DecayWheels.ScanningStep` | source/game.cpp:4247-4281 | one item done keeps what is known of all items, done or not |
| `DecayWheels.Game.ScanNext` | source/game.cpp:4247-4281 | so does a turn of the scan |
| `DecayWheels.Game.ScanBucket` | source/game.cpp:4247-4281 | the scan ends, touches no other bucket's items, and decays exactly what is over |
| `DecayWheels.Game.CheckDecay` | source/game.cpp:4240-4286 | what is due decays, once and once more for every form that lasts no time, and is afterwards in its next lasting form or gone; nothing else does; all else keeps its form and comes one check nearer; what waited is filed with its closed-form term |
| `DecayWheels.Game.CheckRepeatedly` | source/game.cpp:4240-4286 | over any number of checks, an item decays at the check it is due and not before |
| `DecayWheels.ListedTwice` | source/game.cpp:4196-4215 | a waiting item that takes a new form and is started again is listed twice |
| `Thinkers.IndexIffOnce` | source/game.cpp:3710-3736 | a creature's index is non-negative if and only if it occurs exactly once in the pending list and the vectors together |
| `Thinkers.TurnOf` | source/game.cpp:3753-3758 | ten checks in a row meet every vector exactly once |
| `Thinkers.ActedFacts` | source/game.cpp:3710-3736 | no turn takes a place from a creature, and one that spares a creature leaves it marked and as alive as it was |
| `Thinkers.TurnsFacts` | source/game.cpp:3758-3777 | in the turns of a vector a registered creature that is spared thinks if and only if it is there and alive, and one left unmarked loses its place |
| `Thinkers.Game.constructor` | source/game.cpp:99 | empty vectors are valid |
| `Thinkers.Game.AddCreatureCheck` | source/game.cpp:3710-3726 | marks the creature, and gives it a place and a reference only if it has none |
| `Thinkers.Game.RemoveCreatureCheck` | source/game.cpp:3728-3736 | unmarks a creature that has a place, and leaves it there |
| `Thinkers.Game.AddPending` | source/game.cpp:3746-3751 | the pending creatures go to the vectors of their index, behind those that are there, in their order |
| `Thinkers.Game.Act` | source/game.cpp:3710-3736 | one thing a turn may do, to one creature |
| `Thinkers.Game.Perform` | source/game.cpp:3760-3771 | a turn does one thing after the other; it never moves a creature that has a place |
| `Thinkers.Game.Drop` | source/game.cpp:3772-3776 | a creature that is no longer marked leaves its vector, loses its index and is released once |
| `Thinkers.Game.TakeTurn` | source/game.cpp:3760-3777 | the creature thinks if and only if it is marked and alive, or is dropped; what its turn does to all creatures, action after action |
| `Thinkers.Game.TakeTurns` | source/game.cpp:3758-3777 | who of a vector thinks and what becomes of all creatures, turn after turn; exactly those that stay marked and live think, each once |
| `Thinkers.Game.CheckCreatures` | source/game.cpp:3738-3780 | one check: the next vector, with what was pending for it, takes its turns; exactly the registered living creatures of it think; those unmarked leave |
| `Thinkers.Game.TenChecks` | source/game.cpp:3738-3780 | a creature that has a place, and stays registered and alive whatever happens to its health, thinks exactly once in any ten checks |
| `WalkCaches.Walker.constructor` | source/creature.cpp:397-411 | a new cache is the full computation |
| `WalkCaches.Walker.UpdateTileCache` | source/creature.cpp:425-466 | sets one cell, if it is in range, to whether the tile is walkable |
| `WalkCaches.Walker.UpdateMapCache` | source/creature.cpp:397-411 | every cell is computed |
| `WalkCaches.Walker.RefillRow` | source/creature.cpp:663-667 | one row is computed, the others stay |
| `WalkCaches.Walker.RefillColumn` | source/creature.cpp:700-704 | one column is computed, the others stay |
| `WalkCaches.Walker.ShiftSouth` | source/creature.cpp:657-662 | every row has what the row above had |
| `WalkCaches.Walker.ShiftNorth` | source/creature.cpp:669-674 | every row has what the row below had |
| `WalkCaches.Walker.ShiftWest` | source/creature.cpp:683-699 | in some rows, every cell has what the one to the east had |
| `WalkCaches.Walker.ShiftEast` | source/creature.cpp:707-723 | in some rows, every cell has what the one to the west had |
| `WalkCaches.Walker.MoveRows` | source/creature.cpp:657-680 | rows in view move against a step, the row that comes into view is computed |
| `WalkCaches.Walker.OldRows` | source/creature.cpp:684-693 | the rows whose columns are shifted: all but the one just computed |
| `WalkCaches.Walker.StepEast` | source/creature.cpp:682-705 | the columns for a step to the east |
| `WalkCaches.Walker.StepWest` | source/creature.cpp:706-729 | the columns for a step to the west |
| `WalkCaches.Walker.MoveColumns` | source/creature.cpp:682-729 | the columns for any step |
| `WalkCaches.Walker.Shift` | source/creature.cpp:652-729 | for all eight directions, every tile that was in view moves against the step and every other is computed |
| `WalkCaches.Walker.Step` | source/creature.cpp:651-733 | after a step the cache equals the full computation everywhere but on the creature's own tile, whose cell is what it was for the new tile |
| `WalkCaches.Walker.OnMove` | source/creature.cpp:647-735 | so it does after a step, a teleport or a change of floor |
| `WalkCaches.Walker.OnTileItem` | source/creature.cpp:519-550 | and after an item came to a tile or left it |
| `WalkCaches.Walker.OnOtherMove` | source/creature.cpp:738-748 | and after another creature moved |
| `WalkCaches.Walker.GetWalkCache` | source/creature.cpp:468-517 | the answer for a tile is right for the present ground: walkable, not, or not known |
| `WalkCaches.Walker.Follow` | source/creature.cpp:519-750 | over any sequence of events the cache stays right without ever being computed anew |
| `Conditions.SumErased` | source/creature.cpp:1485-1548 | what erasing an entry does to the sums |
| `Conditions.SumChanged` | source/condition.cpp:447-468 | what changing an entry does to the sums |
| `Conditions.SumAppended` | source/creature.cpp:1446-1469 | what appending an entry does to the sums |
| `Conditions.KeptExactly` | source/creature.cpp:1485-1548 | a list without some conditions has exactly the others |
| `Conditions.KeptAndChosen` | source/creature.cpp:1485-1548 | a sum over a list is that over what is kept and that over what goes |
| `Conditions.Exchanged` | source/creature.cpp:1446-1469 | the totals change by the new entry less those that went |
| `Conditions.Condition.SetTicks` | source/condition.cpp:180-184 | sets the ticks and the end time |
| `Conditions.Creature.constructor` | source/creature.cpp:51-75 | a creature without conditions is balanced |
| `Conditions.Creature.ChangeSpeed` | source/game.cpp:3782-3799 | adds to the variable speed |
| `Conditions.Creature.ChangeSpeedByOther` | source/game.cpp:3782-3799 | equipment and scripts keep the ledger, with their share apart |
| `Conditions.Creature.ChangeSkills` | source/condition.cpp:549-618 | adds or takes off every skill's amount |
| `Conditions.Creature.ChangeStats` | source/player.cpp:765-795 | the same for stats |
| `Conditions.Creature.UpdateAttributes` | source/condition.cpp:549-618 | percentages replace the plain amounts where they are given, and exactly the resulting amounts are added |
| `Conditions.Creature.StartCondition` | source/condition.cpp:533-547 | the entry is what is drawn: a speed that was 0, and for a player each skill and stat with a percentage, the others as they were; the totals change by exactly it, and the end time is set |
| `Conditions.Creature.EndCondition` | source/condition.cpp:625-655 | ending it takes off exactly what its entry says |
| `Conditions.Creature.Ledger` | source/creature.cpp:1446-1581 | speed, skills and stats over the plain ones are the sums over the active conditions, nothing once the last has ended |
| `Conditions.Creature.Refresh` | source/condition.cpp:348-468 | a condition cast again is replaced or left, by the test of its kind; the totals change by exactly the difference |
| `Conditions.Creature.RefreshListed` | source/creature.cpp:1453-1459 | so refreshing keeps the ledger |
| `Conditions.Creature.GetCondition` | source/creature.cpp:1550-1559 | a condition with the key, if and only if there is one |
| `Conditions.Creature.EraseAt` | source/creature.cpp:1485-1502 | erasing a condition keeps the ledger and all others in order |
| `Conditions.Creature.RemoveByType` | source/creature.cpp:1485-1502 | exactly those of the type go |
| `Conditions.Creature.RemoveByTypeAndId` | source/creature.cpp:1504-1521 | exactly those of the type and id go |
| `Conditions.Creature.RemoveCondition` | source/creature.cpp:1534-1548 | exactly this one goes |
| `Conditions.Creature.RemoveByAttacker` | source/creature.cpp:1523-1532 | those of the type go, but for a player's items' |
| `Conditions.Creature.Die` | source/player.cpp:2440-2462 | exactly the persistent ones go |
| `Conditions.Creature.Execute` | source/condition.cpp:186-201 | a condition has an interval less to go, if it has an end, and is over if and only if its end has passed |
| `Conditions.Creature.ExecuteNext` | source/creature.cpp:1561-1581 | a condition that is over is erased, and the next one follows; the other stays with an interval less to go |
| `Conditions.Creature.ExecuteConditions` | source/creature.cpp:1561-1581 | every condition is executed once; exactly those that are over go, the others stay in their order with an interval less to go; the ledger holds |
| `Conditions.Creature.OnAddCondition` | source/creature.cpp:1304-1315 | haste ends paralysis and the other way round, if it is still live |
| `Conditions.Creature.Push` | source/creature.cpp:1461-1462 | a started condition is appended with the entry that is drawn; the totals change by exactly it and the ledger holds |
| `Conditions.Creature.AddNew` | source/creature.cpp:1461-1465 | a new condition gives what is drawn, and what it displaces goes: the totals change by its entry less theirs |
| `Conditions.Creature.AddCondition` | source/creature.cpp:1446-1469 | no two conditions share type, id and sub id; the list, the refreshed condition and the result for every input; a new one gives what is drawn, and the totals change by exactly that less what it displaces; the others stay as they are; the ledger holds |
| `Connections.Connection.constructor` | source/connection.cpp:243-270 | a new connection is open and idle |
| `Connections.Connection.CloseConnection` | source/connection.cpp:96-111 | queues a close task unless one is queued or the connection closed |
| `Connections.Connection.CloseSocket` | source/connection.cpp:147-189 | the socket is closed and nothing is pending |
| `Connections.Connection.CloseConnectionTask` | source/connection.cpp:113-145 | only in REQUEST_CLOSE, so the error branch is unreachable; closes at once if no write is pending or one failed, else waits; the protocol is released |
| `Connections.Connection.ReleaseProtocol` | source/connection.cpp:128-132 | the protocol is released if it is still there |
| `Connections.Connection.ReleaseConnection` | source/connection.cpp:191-201 | deletes, or tries again later, exactly once |
| `Connections.Connection.ReleaseAgain` | source/connection.cpp:191-201 | trying again happens in CLOSED only and deletes at most once |
| `Connections.Connection.StartRead` | source/connection.cpp:305-322 | a read and its timer start, or fail part way, and a failure requests a close if errors are logged |
| `Connections.Connection.AcceptConnection` | source/connection.cpp:243-270 | the first read starts, and a protocol may be there from the start |
| `Connections.Connection.HandleReadError` | source/connection.cpp:489-515 | requests a close unless the read was aborted |
| `Connections.Connection.EndRead` | source/connection.cpp:272-286 | the end of any read cancels the timer and requests a close unless all is well; a connection that may stay may do so after it only if it could before |
| `Connections.Connection.ParseHeader` | source/connection.cpp:272-325 | a body is read if and only if all is well, the size in range and packets not too many; else a close is requested |
| `Connections.Connection.Send` | source/connection.cpp:389-424 | accepts a message if and only if open, and starts a write only if none is pending |
| `Connections.Connection.InternalSend` | source/connection.cpp:426-446 | one write is pending, with its timer, unless setting either throws |
| `Connections.Connection.Receive` | source/connection.cpp:344-365 | whatever the protocol sends or closes while it handles a message keeps the protocol's invariant |
| `Connections.Connection.MeetProtocol` | source/connection.cpp:344-359 | the first packet makes the protocol if there is none, or a close is requested |
| `Connections.Connection.TakeMessage` | source/connection.cpp:342-384 | a packet makes the protocol if need be, once, and the next header is read, or a close is requested |
| `Connections.Connection.ParsePacket` | source/connection.cpp:327-387 | the state and the next read after a body, for every error and reply |
| `Connections.Connection.HandleWriteError` | source/connection.cpp:554-580 | requests a close unless the write was aborted |
| `Connections.Connection.OnWriteOperation` | source/connection.cpp:462-487 | nothing is pending after a write; a connection that was closing is requested to close again |
| `Connections.Connection.OnReadTimeout` | source/connection.cpp:517-525 | closes the socket if and only if a read was pending or failed |
| `Connections.Connection.OnWriteTimeout` | source/connection.cpp:527-535 | the same for a write |
| `Connections.Connection.ExpireReadTimer` | source/connection.cpp:517-525 | an expiring timer brings the end nearer |
| `Connections.Connection.ExpireWriteTimer` | source/connection.cpp:527-535 | the same for a write; it cannot change whether the connection may stay |
| `Connections.Connection.DrainFacts` | source/connection.cpp:113-145 | with nothing outstanding, a connection in CLOSING has lost a write and is stuck |
| `Connections.Connection.Drain` | source/connection.cpp:96-189 | once a close is requested, the events run out in any order, and the connection is CLOSED unless it may stay |
| `Connections.Connection.Stay` | source/connection.cpp:96-189 | from every state that may stay, there is an order of events that ends in CLOSING, stuck |
| `Connections.Connection.Handle` | source/connection.cpp:96-580 | every event in every state keeps the invariant; the state after it; what is not due changes nothing, and what is due is used up; CLOSED is absorbing, OPEN never comes back, and what is stuck stays stuck |
| `Connections.Connection.Run` | source/connection.cpp:96-580 | over any interleaving: the states follow each other as the events may lead on, so that only a close task closes, and only a request or an end of an operation asks for it; a close task is queued if and only if the state is REQUEST_CLOSE, never two; protocol and connection are released at most once; pending operations stay 0 or 1; CLOSED stays; a stuck connection is never closed |
| `Connections.Connection.RunFacts` | source/connection.cpp:96-189 | the same, of any valid state |
| `Connections.LostWriteStaysClosing` | source/connection.cpp:426-446 | a connection that stays in CLOSING with nothing left to happen, and stuck |
| `Trades.StartFits` | source/game.cpp:2738-2772 | an offer keeps all sides and offers fitting |
| `Trades.AcceptFits` | source/game.cpp:2780-2795 | so does accepting |
| `Trades.TransferFits` | source/game.cpp:2795-2815 | so does entering the transfer |
| `Trades.EndFits` | source/game.cpp:2988-3039 | so does ending a trade, for both |
| `Trades.StartConsents` | source/game.cpp:2738-2772 | an offer changes nothing that a player has accepted, and may fill what was open |
| `Trades.AcceptConsents` | source/game.cpp:2780-2801 | accepting records what lies on the table, for the second player both items |
| `Trades.EndConsents` | source/game.cpp:2988-3039 | the end of a trade leaves what others have accepted |
| `Trades.TransferUndisturbed` | source/game.cpp:2988-2999 | no other player has a player in transfer as partner, and the partner is in transfer too |
| `Trades.Game.constructor` | source/game.cpp:2738-2772 | without trades the invariant holds |
| `Trades.Game.PlayerRequestTrade` | source/game.cpp:2661-2736 | an offer succeeds if and only if the item is free, small enough and reachable and both players may trade; the sides and offers afterwards |
| `Trades.Game.InternalStartTrade` | source/game.cpp:2738-2772 | the same for the second half; the item is held once |
| `Trades.Game.Hold` | source/game.cpp:2752-2753 | an item on offer is held once more |
| `Trades.Game.Release` | source/game.cpp:3002-3007 | an item on offer is released exactly once |
| `Trades.Game.BeginAccept` | source/game.cpp:2774-2815 | accepting marks the player and is an acceptance of what lies on the table, with nothing of the partner exactly if that one has only acknowledged; or it puts both in transfer |
| `Trades.Game.BeginTransfer` | source/game.cpp:2800-2815 | both are in transfer and both items off the offers, each released once |
| `Trades.Game.FinishAccept` | source/game.cpp:2817-2873 | both items change hands, or none; what does is what each has accepted, or what came where nothing was offered yet, for at most one of them; the trade is over for both |
| `Trades.Game.Leave` | source/game.cpp:3001-3017 | one player's side ends and the offer is released |
| `Trades.Game.InternalCloseTrade` | source/game.cpp:2988-3039 | calls the trade off for both, and does nothing in a transfer |
| `Trades.Game.Handle` | source/game.cpp:2661-3039 | what every event makes of all sides, offers, acceptances and exchanges, and it keeps the invariant |
| `Trades.Game.Run` | source/game.cpp:2661-3039 | over any run: all trades are what its events make of them one after the other; partners name each other, players with no trade or only acknowledging offer nothing, the offers are exactly the items of the players' sides and each is held exactly once; what was accepted stays what is offered; a transfer is undisturbed until it is finished |
| `Trades.OpenAcceptance` | source/game.cpp:2740-2744 | a run in which a player accepts before anything is offered, and gives the own item |
| `Areas.MatrixArea.constructor` | source/combat.h:116-133 | a new matrix is blank |
| `Areas.MatrixArea.SetCenter` | source/combat.h:165 | the centre is kept in unsigned words |
| `Areas.TurnedOnce` | source/combat.cpp:1409-1422 | a rotation brings a cell to exactly one place, and the inverse rotation finds it |
| `Areas.TurnedInside` | source/combat.cpp:1409-1422 | every write of a rotation is inside a matrix of twice the size |
| `Areas.OutsideStaysOutside` | source/combat.cpp:1409-1422 | cells outside the output come from outside the input |
| `Areas.CopyCells` | source/combat.cpp:1347-1352 | the copy has the same cells |
| `Areas.MirrorCells` | source/combat.cpp:1356-1362 | columns are reversed |
| `Areas.FlipCells` | source/combat.cpp:1366-1372 | rows are reversed |
| `Areas.RotateCells` | source/combat.cpp:1409-1422 | a cell is set if and only if the cell the inverse rotation finds is |
| `Areas.MirrorArea` | source/combat.cpp:1356-1365 | what the mirrored area reaches, about its new centre |
| `Areas.FlipArea` | source/combat.cpp:1366-1375 | what the flipped area reaches |
| `Areas.RotateArea` | source/combat.cpp:1377-1425 | an offset is reached if and only if the offset turned back was |
| `Areas.CopyArea` | source/combat.cpp:1342-1426 | all six operations |
| `Areas.MirrorExact` | source/combat.cpp:1356-1365 | the mirrored area is the reflection of the input if and only if the matrix is a square or blank |
| `Areas.FlipExact` | source/combat.cpp:1366-1375 | the same for the flipped area |
| `Areas.EnterCell` | source/combat.cpp:1436-1443 | one value of the list: a cell that is set, the centre, both or neither |
| `Areas.SquareList` | source/combat.cpp:1430 | the matrix is a square if and only if the list has as many values as the square of its rows |
| `Areas.CursorAt` | source/combat.cpp:1445-1450 | where the loop is after so many values, for any list |
| `Areas.WritesInside` | source/combat.cpp:1436-1451 | every cell that is set lies in the matrix if and only if nothing is set behind the last full row |
| `Areas.CreateArea` | source/combat.cpp:1428-1454 | the matrix has the cells of the list, 1 and 3 set, and the centre at the last 2 or 3 |
| `Areas.Derive` | source/combat.cpp:1463-1478 | a fresh square matrix with the turned or reflected area |
| `Areas.Turns` | source/combat.cpp:1458-1478 | the area to the north and its three rotations, all valid |
| `Areas.Corners` | source/combat.cpp:1556-1581 | the four corner areas, all valid; the first two copies are reflections if and only if the list is a square or sets nothing |
| `Areas.CornersMissed` | source/combat.cpp:1356-1375 | a list of one row whose mirrored and flipped areas are no reflections |
| `Areas.Facing` | source/combat.h:214-243 | the area of an attack is that towards the target: of a corner if there are areas for corners, else of its side, and to the south on the own place |
| `Areas.AreaCombat.SetupArea` | source/combat.cpp:1456-1479 | the areas to the east, south and west are the one to the north turned by 90, 180 and 270 degrees, and others stay; all areas are valid, as an attack needs them |
| `Areas.AreaCombat.SetupExtArea` | source/combat.cpp:1554-1582 | the corner areas are each other's copies, mirrored and flipped; the last is an exact reflection, and the others are if and only if the list is a square or sets nothing; all areas are valid; an empty list changes nothing |
| `Areas.AreaCombat.GetList` | source/combat.cpp:1286-1340 | the tiles of an attack are exactly those on the map and in sight that the area of its direction reaches, each once |
| `Areas.SignedDifference` | source/combat.cpp:1299-1310 | unsigned subtraction of a centre that stands for a negative number gives the right tile |
| `MapItems.ShortBack` | source/fileloader.h:327-339 | a short is read back from its two bytes |
| `MapItems.LongBack` | source/fileloader.h:327-339 | a long is read back from its four bytes |
| `MapItems.PropWriteStream.Add` | source/fileloader.h:341-415 | bytes are appended |
| `MapItems.PropStream.GetUint8` | source/fileloader.h:244-246 | reads a byte and moves on, or fails and stays |
| `MapItems.PropStream.GetUint16` | source/fileloader.h:200-202 | reads two bytes and moves on, or fails and stays |
| `MapItems.PropStream.GetUint32` | source/fileloader.h:192-194 | reads four bytes and moves on, or fails and stays |
| `MapItems.PropStream.GetString` | source/fileloader.h:256-273 | succeeds if and only if the length and that many bytes are there |
| `MapItems.StoredChunk` | source/item.cpp:567-615 | a stored attribute is found again whatever stands around it |
| `MapItems.ReadWritten` | source/item.cpp:545-615 | attributes written in a row are read back in order, for any bytes before and after |
| `MapItems.Created` | source/item.cpp:171-202 | every field of a new item: the number counts for a fluid, a stack or charges, by its type, and not for a container |
| `MapItems.SetSubType` | source/item.cpp:327-343 | the number goes to the fluid, the stack or the charges, by the type |
| `MapItems.ApplyByte` | source/item.cpp:345-543 | what a byte that was read does to the item, by its attribute |
| `MapItems.ApplyShort` | source/item.cpp:345-543 | the same of a short, with the least action and unique ids |
| `MapItems.ApplyText` | source/item.cpp:345-543 | the same of a text, of which an empty one does nothing |
| `MapItems.ReadAttr` | source/item.cpp:345-543 | one attribute is read as specified, fails, or ends at a container's items |
| `MapItems.UnserializeAttr` | source/item.cpp:545-560 | the loop reads all attributes, up to an end mark, the end of data or a container's items |
| `MapItems.SerializeAttr` | source/item.cpp:567-615 | writes the attributes of the item in order |
| `MapItems.RestoredFields` | source/item.cpp:345-615 | every attribute after writing, creating anew and reading |
| `MapItems.AttributesBack` | source/item.cpp:345-615 | the attributes are what they were if and only if the item is faithful, created with its sub type or without, and with its decay started or not |
| `MapItems.StartDecay` | source/game.cpp:4196-4215 | a type that can decay does so with time left, and has decayed without |
| `MapItems.DecayStarts` | source/game.cpp:4196-4215 | the mark of a loaded item whose decay is started, or not, whatever it was |
| `MapItems.StartDecaying` | source/container.cpp:919-924 | an item starts, and a container passes it on, as far as where it lies wants |
| `MapItems.UsedUpRefilled` | source/item.cpp:191-199 | an item without charges left comes back with all the charges of its type |
| `MapItems.StackKept` | source/item.cpp:567-579 | a stack keeps its count, whatever charges its type has by default |
| `MapItems.FilledInOrder` | source/container.cpp:870-917 | pushing to the front from last to first restores the order and adds up the totals |
| `MapItems.ChunksKnown` | source/item.cpp:567-615 | everything that is written is of a shape the reader knows |
| `MapItems.RebuiltSame` | source/container.cpp:870-924 | a tree that is saved, loaded and started where it lies is what it was if and only if all its items are faithful there and its totals were right |
| `MapItems.BegunFront` | source/container.cpp:870-924 | starting the decay of a container and putting an item into it go together |
| `MapItems.BegunLoose` | source/item.cpp:1037-1041 | nothing starts to decay that is on no tile |
| `MapItems.Torches` | source/iomapserialize.cpp:265-280 | things that burn on, are lit, or go out by a load, of each store |
| `MapItems.RebuiltAmount` | source/container.cpp:870-917 | a loaded container counts everything nested |
| `MapItems.AttributesRead` | source/item.cpp:545-560 | reading written attributes stops where they end |
| `MapBinary.SaveItem` | source/iomapserialize.cpp:659-679 | appends the bytes of the item and all it holds |
| `MapBinary.SaveItems` | source/iomapserialize.cpp:667-674 | the items of a container, the last first, after their number |
| `MapBinary.LoadItem` | source/iomapserialize.cpp:495-539 | reads an item that comes into a container as specified, failing where the code fails, and ends |
| `MapBinary.LoadContainer` | source/iomapserialize.cpp:474-493 | reads so many items, each to the front, and the end mark |
| `MapBinary.LoadSaved` | source/iomapserialize.cpp:495-539 | loading consumes exactly the bytes of an item, whatever stands around them |
| `MapBinary.LoadSavedBox` | source/iomapserialize.cpp:516-523 | what a container holds is read back from behind its attributes |
| `MapBinary.LoadSavedBack` | source/iomapserialize.cpp:474-493 | so it does for all a container holds, and restores the order |
| `MapBinary.BinaryRoundTrip` | source/iomapserialize.cpp:474-679 | an item that is saved and loaded into a container on no tile is the same tree with the same order and totals if and only if it is sound there |
| `MapBinary.LoadItemOnTile` | source/iomapserialize.cpp:511-539 | an item that comes to a tile then starts the decay of all it holds |
| `MapBinary.TileRoundTrip` | source/iomapserialize.cpp:474-679 | an item that is saved and loaded onto a tile is the same tree with the same order and totals if and only if it is sound for a load that does that |
| `MapRelational.KidsAppend` | source/iomapserialize.cpp:386-402 | a further row lies in its container after the others |
| `MapRelational.QueueFirst` | source/iomapserialize.cpp:376-390 | the queue holds the containers still to be stored in the order of their numbers |
| `MapRelational.AddedKeeps` | source/iomapserialize.cpp:339-402 | the rows added for the contents of a container are exactly these, inside it and in order, and their containers are queued |
| `MapRelational.AddedLess` | source/iomapserialize.cpp:380-403 | with every container taken from the queue less is left to store, so saving ends |
| `MapRelational.StoredStores` | source/iomapserialize.cpp:321-409 | every nested item gets one row, with a number above its container's, and a container's rows are its contents in order |
| `MapRelational.SaveInside` | source/iomapserialize.cpp:339-402 | one list of items gets the next numbers, with its container's, and queues its containers |
| `MapRelational.SaveItems` | source/iomapserialize.cpp:321-409 | the rows of a tile: its own items first, then the contents of one container after the other, breadth first |
| `MapRelational.LoadRow` | source/iomapserialize.cpp:179-264 | the item of a row, if its type is known and its attributes can be read |
| `MapRelational.RowsLoaded` | source/iomapserialize.cpp:178-264 | the items of all rows have their attributes restored and hold nothing yet, those on the tile started to decay, in whatever order the rows come |
| `MapRelational.StepFacts` | source/iomapserialize.cpp:266-280 | where the item with the next lower number goes, and that it is complete by then |
| `MapRelational.LoadedStep` | source/iomapserialize.cpp:266-280 | putting the item with the next lower number into its container, to the front, when it is complete itself, and starting its decay if that container is on the tile |
| `MapRelational.LoadItems` | source/iomapserialize.cpp:167-283 | for any rows that lie in earlier ones: the items by number, each put to the front of its container if that exists and is one, the highest number first, and started to decay where it lies on the tile by then |
| `MapRelational.RelationalRoundTrip` | source/iomapserialize.cpp:167-409 | for any forest and any order of its rows: loading gives one item for every row, and every item on the tile comes back the same tree, with its order and totals, if and only if it is sound for a load that starts decay on the tile and directly in its containers |
| `Money.Worth` | source/item.cpp:1055-1059 | the worth of a stack is a word |
| `Money.SumPermuted` | source/game.cpp:1738-1817 | the order of the stacks does not matter to their worth |
| `Money.CountLevel` | source/game.cpp:1698-1733 | counting one list, with its containers for later, or finding that there is too much |
| `Money.GetMoney` | source/game.cpp:1685-1736 | the money in reach at any depth, or the largest word if it is more |
| `Money.Insert` | source/game.cpp:1748-1769 | the list of stacks stays ordered by worth and gains exactly the one |
| `Money.GatherLevel` | source/game.cpp:1754-1789 | the stacks of one list are gathered in order, with their worth in a word |
| `Money.Gather` | source/game.cpp:1745-1789 | exactly the stacks in reach are gathered, ordered by worth, and their worth modulo 2^32 |
| `Money.UnitLeavesNothing` | source/game.cpp:1819-1842 | with a coin of worth 1, any amount can be given out |
| `Money.RestBelow` | source/game.cpp:1819-1842 | behind every kind of coin less than one of it is left to give out |
| `Money.CheapestFirst` | source/game.cpp:1796-1812 | the front of an ordered list is worth no more, stack by stack, than its rest |
| `Money.Purse.AddStack` | source/game.cpp:1830-1835 | a new stack goes to the inventory or the ground |
| `Money.Purse.Issue` | source/game.cpp:1824-1839 | so many coins of a kind, in full stacks and one of the rest, each to the inventory if it fits |
| `Money.Purse.AddMoney` | source/game.cpp:1819-1842 | the coins that are given out, stack by stack and of the dearest kinds first, and where each goes; together exactly the amount, less what no coin is small enough for, in stacks of at most a hundred |
| `Money.Purse.TakeOut` | source/game.cpp:1796-1800 | a stack leaves with its worth |
| `Money.Purse.PayWith` | source/game.cpp:1796-1812 | a stack pays up to its worth and change is given for the rest, if and only if it is worth more than what was due |
| `Money.Purse.PayCheapest` | source/game.cpp:1794-1812 | the cheapest stacks are taken, no more than are needed, and change is given if and only if the last is worth more than what was still due |
| `Money.Purse.RemoveMoney` | source/game.cpp:1738-1817 | true if and only if the amount is 0 or the money in reach modulo 2^32 covers it; then no stack taken is worth more than one that is left, all but the last together are worth less than the amount, the coins are what is left and the change, and coins and change together fall by exactly the amount; else nothing changes |
| `Money.RefusedWithPlenty` | source/game.cpp:1738-1794 | two coins of half a word each, of which one cannot be paid |

## Left out

Of the node files:
- `fseek`, `ftell` and `fread` failures, reading past the end of the file, error codes, and the width of `unsigned long` against the mark of an empty slot.
- NodeFiles.FileLoader.OpenFile: a loader that has opened a file with a cache before is not opened again; the code would keep the blocks of the old file.
- NodeFiles.FileLoader.LoadCacheBlock: offsets past the end of the file, for which the code reports an error, are excluded.
- NodeFiles.FileLoader.GetCacheBlock: the same offsets are excluded.
- NodeFiles.FileLoader.SafeSeek: the same offsets are excluded.
- NodeFiles.FileLoader.ReadBytes: ranges that go past the end of the file, which no caller asks for, are excluded.
- NodeFiles.FileLoader.ReadBytesCached: the same ranges are excluded.
- NodeFiles.FileLoader.ReadChunk: the same ranges are excluded.
- NodeFiles.FileLoader.ParseNode: says which nodes are linked, not that two of them never share memory.

Of containers and moves:
- `deepness`, `Container::clone`, the bare `addItem`, depots, players, tiles and the map as cylinders, exchanging items (`RET_NEEDEXCHANGE`), notifications, and callers with `FLAG_CHILDISOWNER`.
- Weights are whole numbers without a width.
- Containers.Item.UpdateItemWeight: 32-bit wrap-around and floating point are not modelled.
- Containers.Item.QueryAdd: the limit on the depth of containers and the question to the topmost holder; the number of nested items that is allowed is a parameter.
- Containers.Item.UpdateThing: the sub type is the count; fluids and charges are not in this part of the model.
- Moves.InternalMoveItem: how many nested items are allowed, and whether stacks are merged of themselves, are parameters.
- Moves.Put: the index at which the list takes the item is always the front, as in the code.

Of money:
- Money.Purse.AddStack: whether the stack fits is a parameter.
- Money.Purse.AddMoney: the same for every stack that is given out.
- Money.Purse.TakeOut: a purse is the list of the stacks in reach, not the containers they lie in.
- Which of the containers a coin lies in, coins that cannot be removed, and flags; where a new stack goes is a parameter.

Of the map store:
- Database statements, the choice of tiles and of the items that are saved, houses, depots moved on load, and unknown attributes; and doors, beds and teleports, which store attributes of their own.
- What becomes of an item that decays while it is loaded: it stays in the result, marked as spent.
- Items that are found on the tile and only get the attributes, and the order in which loaded items come to the tile; every item is created.
- MapBinary.LoadItem: reads items that come into a container; those for a tile are read by `LoadItemOnTile`.
- MapBinary.LoadItemOnTile: an item that cannot be moved is taken to be created, where the code looks for it on the tile.
- MapRelational.LoadRow: the same of rows.
- MapRelational.SaveItems: takes the list of the items of the tile that are to be saved.
- MapRelational.LoadItems: rows that lie in later ones, or whose attributes cannot be read to their end, are excluded; the code reads the rest of such attributes into the item a second time.

Of timers and creatures:
- DecayWheels.Game.InternalDecayItem: the forms of an item are a finite list; an item that is replaced by a new object in its next form counts as the same one; what happens to it on its tile is left out.
- DecayWheels.DecayItem.SetID: forms that stop the time and keep the duration are left out.
- DecayWheels.Game.StartDecay: an item that is filed and has lost its mark is excluded; the code lists it a second time, as `Enlist` and `ListedTwice` say.
- Thinkers.Game.CheckCreatures: what scripts and events do in a creature's turn is a list of actions on any creatures, drawn slots included.
- WalkCaches.Walker.OnMove: a move of more than a step on the same floor that is not a teleport is not modelled, and coordinates are unbounded.
- WalkCaches.Walker.Follow: tiles become walkable or stop being so with these events only; for a monster, conditions of its own can change that too.
- WalkCaches.Walker.OnTileItem: that an item which blocks nothing leaves its tile as walkable as it was is assumed.
- WalkCaches.Walker.GetWalkCache: the ground is any set of walkable tiles; how a tile decides is left out.
- Conditions.Creature.StartCondition: what a speed formula or a percentage comes to is a parameter, as it is computed in floating point.
- Conditions.Creature.UpdateAttributes: the same of percentages.
- Conditions.Creature.RemoveByAttacker: which conditions an item spares is a parameter.
- Conditions.Creature.AddCondition: damage over time, regeneration, soul, light and outfits only exist as entries without an amount; callbacks and icons are left out, and the suppressed types are a parameter.
- DamageLists.ConditionDamage.Init: the random amount is a parameter, and the dealing of the hits is left out.

Of the protocols:
- Connections.Connection.CloseSocket: errors of the socket library, the stopping of the I/O service and the queue of output messages are left out.
- Connections.Connection.StartRead: the setting that decides whether errors are logged is a parameter.
- Trades.Game.PlayerRequestTrade: positions and which item holds which are parameters; calls back into the trade from scripts happen between events only.
- Trades.Game.FinishAccept: the moving of the two items is one step that succeeds or fails as a whole.

Of areas:
- Areas.RotateCells: rotations are by whole quarter turns over the integers, where the code rounds sines and cosines.
- Areas.CreateArea: lists that do not fill their rows are excluded; `WritesInside` says for which of them the code writes outside its matrix.
- Areas.Turns: the same lists are excluded.
- Areas.Corners: the same lists are excluded.
- Areas.AreaCombat.SetupArea: the same lists are excluded.
- Areas.AreaCombat.SetupExtArea: the same lists are excluded.
- The lists that are built from a length and spread or from a radius.
