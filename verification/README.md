# Verified models of a game server's core

Dafny models of six parts of an OpenTibia server, with proofs about every input, every run or every reachable state.
Each part comes twice: functions on plain values that say what the code does, with the theorems about them, and the
operations themselves on mutable objects, each proved to do to its objects what the function says.

- **Node files** (`Bytes`, `NodeFormat`, `NodeBuffer`, `PropsSize`, `BlockCache`, `CachedFile`, `NodeParser`,
  `FileLoader`, `FileWriter`, `FileRoundTrip`, `Requests`). The writer prints a forest of typed nodes with escaped
  properties; the parser builds a linked tree from bytes that come directly from the file or through a cache of three
  blocks; properties are unescaped in place in a buffer that grows.
- **Items in containers and depots** (`ItemForest`, `ItemMoves`, `ItemStock`, `Cylinders`, `MoveSafety`, `MoveTargets`,
  `MoveLaws`, `MoveAnswers`, `MoveResults`, `MoveArrival`, `SlotLimit`, `DepotContents`, `DepotGrowth`, `DepotLimit`,
  `ItemRuns`, `RunTotals`, `InnerDepot`, `Worklist`, `ContainerOps`, `CylinderQueries`, `CylinderChanges`, `Coins`,
  `Paying`, `CoinOrder`, `MoneyRemoval`, `Weighing`). Moving, adding and removing items and whole containers, stacks
  that split and merge, slot limits, the recursive depot limit, and paying with coins. `MoveTargets` and `MoveAnswers`
  say where a thing goes and when it may, apart from the queries, and the queries are proved to answer just that.
- **Items as rows** (`ItemRows`, `AscendingIds`, `RowLoading`, `StrayRows`, `RowRoundTrip`, `SavedForest`, `SavedPlayer`).
  A forest of items is numbered breadth first into (pid, sid) rows and rebuilt from them.
- **Connections** (`ConnectionSteps`, `ConnectionReads`, `ConnectionObject`). The handlers of one connection, each an
  atomic step, with the reads and writes under way and the tasks posted.
- **Conditions** (`DamageList`, `DamageShape`, `PropBytes`, `PropStreams`, `ConditionBlob`, `ConditionValues`,
  `ConditionRoundTrip`, `SavedConditions`, `ConditionStore`). Damage split into hits, and the tagged bytes that
  conditions are stored as.
- **Spell areas, item attributes, trade** (`AreaMatrix`, `AreaDirections`, `AreaShapes`; `AttributeBits`,
  `AttributeStore`; `TradeSteps`, `TradeDeals`, `TradeGame`).

`Arithmetic` holds two facts about numbers. `dafny verify dfyconfig.toml` checks everything.

## How the models are built

An item object's fields are its type, parent, list and count; a *world* is the value of those fields for a set of
objects, and `Snap` reads it off the heap. The methods in `ContainerOps`, `CylinderQueries`, `CylinderChanges`,
`Paying` and `MoneyRemoval` work on the objects, and their contracts equate the world after the call with a function of
the world before it. `Connection`, the conditions, `ItemAttributes`, the trade and the node loader follow the same plan.

Where the code does not do what it seems to promise, the model keeps the code and a theorem says exactly when it does:

- a node type of 0xFD and above is escaped when it is written and read raw: `NodeFormat.RoundTrip` holds exactly for
  `Writable` forests, and `NodeFormat.TypeMarkerLost` is a node that is lost;
- the writer takes the size of props as a 16-bit number and cuts longer ones, and the reader's buffer grows by 1024
  bytes at most once for each node: `FileRoundTrip.WriteAndLoad` gives a forest back exactly if it is `Writable`, all
  its props are shorter than 65536 bytes, and they fit the buffer one after the other;
- with a cache of 24576 bytes the blocks overlap (`BlockCache.BlocksOverlap`), which does no harm;
- only the destination and the outermost container around it are asked about the depot limit. `DepotLimit.MoveInDepot`
  and `DepotLimit.AddInDepot` say exactly when any depot stays within its limit, wherever it stands: when what goes into
  it, if anything does, is no more than it has room for. One that is asked always does (`DepotLimit.MoveKeepsDepot`);
  `InnerDepot.InnerDepotExceeded` is one that is not, in a house built by granted additions;
- a depot whose town number is 100 or more is not found again: `SavedPlayer.SaveAndLoadDepots` says that just those of
  the towns 0 to 99 come back, and `SavedForest.DepotInItself` is a depot that is loaded into itself;
- damage is split without rounding error exactly when the amount covers one hit of each size
  (`DamageList.ExactDamage`), so for the default start exactly up to 760, and at 780 (`DamageList.DefaultIsExact`);
- a string in a property stream comes back exactly if it is shorter than 65536 bytes and has no zero byte
  (`PropBytes.StringBack`);
- conditions come back exactly up to the first of a type that `createCondition` does not know, the life drain among
  them (`ConditionRoundTrip.ConditionsRoundTrip`, `SavedConditions.UnknownStops`);
- the diagonal areas of a list that is not square are moved (`AreaDirections.AreaCombat.SetupExtArea`), because
  copyArea takes the centre from the rows where it needs the columns and the other way round;
- `hasAttribute` never reports a text attribute (`AttributeStore.ItemAttributes.HasAttribute`), and setting an empty
  text does nothing (`AttributeStore.ItemAttributes.SetStrAttr`);
- a player may accept a trade before offering anything (`TradeSteps.EmptyHandedStops` is such a run). He then waits
  until one of the two closes it or the other accepts too (`TradeSteps.EmptyHandedWaits`); that last acceptance frees
  both exactly if there is an item from each side, and otherwise a missing item is dereferenced, which ends the run
  (`TradeSteps.SettlingFrees`).

## Model

| member | source | states |
|---|---|---|
| NodeFormat.ScanFinds | fileloader.cpp:154-229 | skipping escape pairs, the scan stops at the first bare marker behind the start, and the bytes before it are cleanly escaped |
| NodeFormat.ParseSound | fileloader.cpp:142-235 | on any bytes: every accepted node has its props inside the file, without bare marker or dangling escape, and the tree printed back is exactly the bytes consumed |
| NodeFormat.UnescapeEscape | fileloader.cpp:246-267 | unescaping undoes the writer's escaping for arbitrary bytes, and escaped bytes hold no bare marker |
| NodeFormat.ScanEscape | fileloader.h:134-153 | the parser's scan passes over escaped props of any content to the marker behind them |
| NodeFormat.HeadRoundTrip | fileloader.cpp:150-152 | type and props of a printed node are found again exactly if the type byte needs no escape or the props absorb the stray escape |
| NodeFormat.StrayEscape | fileloader.cpp:154-229 | what the parser makes of props that begin with a stray escape character |
| NodeFormat.RoundTripAt | fileloader.cpp:142-235 | anywhere in a file: parsing a printed forest gives the same shape, types and props exactly when it is writable |
| NodeFormat.RoundTrip | fileloader.cpp:142-313 | loading a printed forest gives the forest back if and only if it is writable |
| NodeFormat.TypeMarkerLost | fileloader.cpp:302-307 | a node of type 0xFE written alone is read back as no node |
| BlockCache.BlockReaches | fileloader.cpp:508-515 | clearing the bits of any mask moves a position back by no more than the mask, so the block at the cleared position reaches it, power of two or not |
| BlockCache.CacheSizes | fileloader.cpp:98-101 | the cache sizes openFile can choose are 8192, 16384, 24576 and 32768 |
| BlockCache.BlocksOverlap | fileloader.cpp:508-515 | with the size 24576 there are two block bases less than a block apart |
| BlockCache.BlockAnswers | fileloader.cpp:508-525 | the block that is looked up by base has the byte of any position in the file, and a position is at its end exactly at the end of the file |
| CachedReading.CachedFile.LoadCacheBlock | fileloader.cpp:527-572 | the slot given up is the first empty one, or else the first more than two blocks away, or else the first; it then holds a window on the file for the position, and the other slots are as before |
| CachedReading.CachedFile.ChooseSlot | fileloader.cpp:531-548 | which slot is given up: the first empty one, or else the first more than two blocks away, or else the first |
| CachedReading.CachedFile.GetCacheBlock | fileloader.cpp:508-525 | finds or loads a slot whose window covers the position |
| CachedReading.CachedFile.SafeSeek | fileloader.cpp:463-482 | the next byte read is the one at the position, cached or not |
| CachedReading.CachedFile.SafeTell | fileloader.cpp:484-506 | the position of the byte that was read last |
| CachedReading.CachedFile.ReadByte | fileloader.cpp:345-377 | the next byte of the file, or failure exactly at its end, through any evictions |
| CachedReading.CachedFile.ReadFromBlock | fileloader.cpp:393-416 | copies at least one byte, and exactly file bytes |
| CachedReading.CachedFile.ReadBytes | fileloader.cpp:379-421 | copies the requested range of the file, across blocks, and ends |
| CachedReading.CachedFile.ReadUnit | fileloader.cpp:157-225 | one byte, with the byte behind it if it is the escape character |
| NodeParsing.ParseChild | fileloader.cpp:159-176 | closes the parent's props in front of the child and parses the child with its siblings |
| NodeParsing.ParseBody | fileloader.cpp:148-186 | reads type, props and children of a node up to its end, or fails exactly as the parse function does |
| NodeParsing.ParseOne | fileloader.cpp:187-220 | the byte behind a node: sibling, end of the parent (given back by seeking) or end of file |
| NodeParsing.ParseNode | fileloader.cpp:142-235 | ends on every file despite the seek back, and the linked nodes it builds hold exactly the parsed forest |
| NodeParsing.Advance | fileloader.cpp:188-196 | a finished node extends the chain of siblings that the loop has built |
| FileLoading.UnescapeInPlace | fileloader.cpp:246-267 | the in-place loop leaves the unescaped bytes at the front of the buffer and never reads past the props |
| FileLoading.FileLoader.Open | fileloader.cpp:54-140 | succeeds exactly when version, first marker and parse do |
| FileLoading.FileLoader.GetProps | fileloader.cpp:237-277 | the buffer grows by 1024 bytes if the props do not leave room in it; if they fit then, its front is the unescaped props of the node, read through the cache |
| FileLoading.FileLoader.Collect | fileloader.cpp:315-343 | walking child and next links and fetching props gives the decoded forest exactly if all props fit the buffer as it grows from node to node |
| FileLoading.LoadForest | fileloader.cpp:54-277 | with or without the cache, any file is refused, or loaded to the same forest, or has props that overrun the buffer, and exactly when |
| NodeBuffer.SizesBack | fileloader.cpp:142-235 | a writable forest is parsed with props ranges of exactly the sizes that were written |
| NodeBuffer.NodeFit | fileloader.cpp:237-245 | the props of a node, its children and its siblings fit if the node's own do, then the children's in the buffer they leave, and then the siblings' |
| NodeBuffer.SmallFit | fileloader.cpp:237-245 | props of at most 2048 bytes always fit |
| FileWriting.FileWriter.WriteData | fileloader.h:134-153 | appends the bytes, escaped when asked to |
| FileWriting.FileWriter.StartNode | fileloader.cpp:302-307 | appends a start marker and the escaped type |
| FileWriting.FileWriter.SetProps | fileloader.cpp:293-300 | appends the escaped props, cut to a size of 16 bits |
| FileWriting.FileWriter.EndNode | fileloader.cpp:309-313 | appends an end marker |
| FileWriting.FileWriter.WriteForest | fileloader.cpp:293-313 | props before children: the calls write exactly the printed forest, each node's props cut to a size of 16 bits |
| PropsSize.NoShorter | fileloader.h:134-153 | bytes that are cleanly escaped are no shorter than what the writer makes of their meaning |
| PropsSize.StaysAhead | fileloader.cpp:142-235 | a parser that has got ahead of the writer stays ahead, on any bytes, if it is to give the same forest back |
| PropsSize.LevelOrAhead | fileloader.cpp:142-300 | started where the writer did, the parser gives a forest back only if nothing was cut, or ends up ahead of the writer |
| PropsSize.CutIsLost | fileloader.cpp:293-300 | a forest of which setProps has cut any props is never given back, whatever is made of the rest |
| FileRoundTrip.LoadsBack | fileloader.cpp:54-343 | loading a printed forest gives it back if and only if it is writable and its props fit the growing buffer one after the other |
| FileRoundTrip.CutLoadsBack | fileloader.cpp:54-343 | of what is written for a forest the loader makes the forest if and only if it is writable, its props have a size of 16 bits, and they fit the growing buffer |
| FileRoundTrip.WriteAndLoad | fileloader.cpp:54-343 | the same for the writer and the loader objects, with or without the cache |
| Requests.AnswerOne | fileloader.cpp:345-506 | one seek, tell or read answers as an array of bytes would |
| Requests.Answer | fileloader.cpp:345-572 | any sequence of seeks and reads inside the file is answered as by an array of bytes, with or without the cache |
| ItemForest.NoSelfNesting | container.cpp:328-338 | in a forest no container is its own ancestor |
| ItemForest.UnderStep | container.cpp:332-338 | an ancestor is the parent or an ancestor of the parent |
| ItemMoves.DetachForest | container.cpp:586-633 | taking an item out of its list keeps the forest |
| ItemMoves.DetachBelow | container.cpp:586-633 | it takes everything below the item out of every container around it, and nothing else |
| ItemMoves.AttachForest | container.cpp:480-516 | putting a loose item at the front of a container that it does not hold keeps the forest |
| ItemMoves.AttachBelow | container.cpp:480-516 | everything below the item is then below the container and its ancestors, and nowhere else |
| ContainerOps.IndexOf | container.cpp:635-646 | the first index of an item in a container, or -1 exactly if it is not there |
| ContainerOps.TopParent | container.cpp:347-350 | the outermost container on the parent chain |
| ContainerOps.IsInside | container.cpp:328-338 | the climb of queryAdd finds exactly whether the target is the item or inside it |
| ContainerOps.ItemHoldingCount | container.cpp:185-207 | the worklist counts everything anywhere below a container, once, and ends |
| ContainerOps.IsHoldingItem | container.cpp:209-235 | true exactly of proper descendants |
| Weighing.GetWeight | container.cpp:147-170 | the container's own weight and the weights of everything anywhere below it |
| Weighing.PiecesWeigh | item.cpp:754-761 | splitting or merging stacks changes no weight, and one piece weighs what the item table says |
| CylinderQueries.DestinationOf | container.cpp:426-473 | the destination container, index and item for any index, as the query function says |
| CylinderQueries.DepotIsOver | depot.cpp:65-91 | the recursive item limit is exceeded by the addition or not |
| CylinderQueries.AddQuery | container.cpp:309-353 | the answer of queryAdd: no nesting into itself, a free slot, and the consent of the outermost depot |
| CylinderQueries.MaxCountQuery | container.cpp:355-400 | how many pieces fit |
| CylinderQueries.RemoveQuery | container.cpp:402-424 | whether so many pieces may be taken |
| CylinderChanges.PutIn | container.cpp:480-516 | the item at the front, its parent set, nothing else changed |
| CylinderChanges.TakeOut | container.cpp:586-633 | part of a stack is counted down, anything else leaves the list |
| CylinderChanges.PutStack | game.cpp:1049-1072 | pieces go onto the stack found there and the rest becomes a new stack |
| CylinderChanges.InternalMoveItem | game.cpp:970-1095 | on the item objects: return value and the fields of all objects are those of the move function |
| CylinderChanges.InternalAddItem | game.cpp:1097-1166 | likewise for adding |
| CylinderChanges.InternalRemoveItem | game.cpp:1168-1200 | likewise for removing |
| MoveSafety.MoveIsSane | game.cpp:970-1095 | whatever a move returns, containers stay a forest and stacks stay within 1 to 100 |
| MoveSafety.AddIsSane | game.cpp:1097-1166 | the same for additions, also of whole containers |
| MoveSafety.RemoveIsSane | game.cpp:1168-1200 | the same for removals |
| MoveLaws.MoveConserves | game.cpp:970-1095 | per container and type: exactly the pieces that leave the source arrive in the receiving container (the parent for 254, a container that lies under the number, and else the container named), and no other container changes |
| MoveLaws.MoveKeepsTotal | game.cpp:970-1095 | source and receiving container together hold as many pieces of every type as before, across splits and merges |
| MoveLaws.AddConserves | game.cpp:1097-1166 | an addition brings the whole item into the receiving container, or nothing |
| MoveLaws.RemoveConserves | game.cpp:1168-1200 | a removal takes exactly so many pieces out of the item's own container and out of no other |
| MoveTargets.DestinationIs | container.cpp:426-473 | the query finds the receiving container and the plain thing aimed at, said with the numbers 254 and 255 and the capacity |
| MoveAnswers.MoveIsGranted | game.cpp:970-1095 | a move is granted exactly if the thing may be picked up and moved, lies in the source, is not the container or around it, every depot asked takes it, and there is room; of a stack as much goes as there is room for |
| MoveAnswers.AddIsGranted | game.cpp:1097-1166 | an addition is granted exactly if the thing may be picked up, is not the container or around it, every depot asked takes it, and there is room for all of it |
| MoveAnswers.EntryQuery | container.cpp:309-353 | the query of the container and of the outermost one around it lets in exactly what the rules let in |
| MoveAnswers.RoomQuery | container.cpp:355-400 | a slot holds one thing or a stack of 100, and the stack aimed at takes what it lacks of 100 |
| MoveResults.MoveCarries | game.cpp:970-1095 | for every number: what may move is carried from the source into the receiving container, as much as there is room for, and otherwise nothing changes; no error means that all that was asked for has moved, or the thing was dropped on itself |
| MoveResults.AddCarries | game.cpp:1097-1166 | for every number: what may be added is carried whole into the receiving container, which is when there is no error, and otherwise nothing changes |
| MoveResults.MovedIntoBag | container.cpp:459-470 | moved onto a container in the list: into that container |
| MoveResults.MovedUp | container.cpp:429-438 | moved to 254: into the parent if that is a container, and otherwise into the container itself |
| MoveResults.MovedBeside | container.cpp:440-473 | moved to 255, to a number from the capacity up, to an empty slot or onto a plain thing: into the container itself |
| MoveResults.AddedIntoBag | container.cpp:459-470 | added onto a container in the list: into that container |
| MoveResults.AddedUp | container.cpp:429-438 | added to 254: into the parent if that is a container, and otherwise into the container itself |
| MoveResults.AddedBeside | container.cpp:440-473 | added to 255, to a number from the capacity up, to an empty slot or onto a plain thing: into the container itself |
| MoveResults.MoveRefused | game.cpp:970-1015 | a refused move changes nothing, and the reason it gives is the case |
| MoveResults.RemoveIsGranted | game.cpp:1168-1200 | a removal succeeds exactly for something in a container that is no depot, moveable or not, if there are so many pieces; it is refused with one reason and changes nothing |
| MoveArrival.ThingArrives | game.cpp:1016-1095 | a moved thing leaves its list, and stands first in the receiving one with that as its parent; nothing else changes |
| MoveArrival.StackArrives | game.cpp:1016-1095 | moved pieces go onto the stack that they are dropped on, up to 100, and the others become one new stack at the front; what is left stays where it was, and nothing else changes |
| MoveArrival.AddedArrives | game.cpp:1126-1166 | an added thing stands first in the receiving container, unless part of it goes onto the stack that it is dropped on; then the rest is a new stack at the front |
| SlotLimit.MoveFits | container.cpp:340-345 | without FLAG_NOLIMIT no container grows beyond its capacity |
| SlotLimit.AddFits | container.cpp:340-345 | without FLAG_NOLIMIT no addition fills a container beyond its capacity |
| DepotGrowth.TransferGrown | game.cpp:1044-1074 | by exactly how much a move changes what lies below a container that the item goes into: the item and all it holds, or a new stack, less what leaves the same container |
| DepotGrowth.InsertGrown | game.cpp:1126-1160 | the same for an addition |
| DepotLimit.MoveInDepot | depot.cpp:65-91 | with or without FLAG_NOLIMIT any depot stays within its recursive limit if and only if nothing is granted, or it does not go inside the depot, or there is room for it |
| DepotLimit.AddInDepot | depot.cpp:65-91 | the same equivalence for an addition |
| DepotLimit.MoveKeepsDepot | depot.cpp:65-91 | so without FLAG_NOLIMIT a depot that is asked stays within its limit, and every one that the item does not go into |
| DepotLimit.MoveKeepsDepots | depot.cpp:65-91 | so every outermost depot stays within its limit, also when the item goes into a nested container or a stack is split |
| DepotLimit.AddKeepsDepot | depot.cpp:65-91 | the same for an addition, also of a whole container from outside |
| DepotLimit.AddKeepsDepots | depot.cpp:65-91 | so an addition keeps every outermost depot within its limit |
| DepotLimit.RemoveKeepsDepots | game.cpp:1168-1200 | a removal too |
| InnerDepot.HouseIsBuilt | game.cpp:1097-1166 | a depot in a hall, with a bag in it, comes about by granted additions without FLAG_NOLIMIT |
| InnerDepot.InnerDepotExceeded | container.cpp:346-353 | there the depot is not asked about what goes into its bag, and then holds two items where its limit is one |
| ItemRuns.RunIsSafe | game.cpp:970-1200 | every run of moves, additions and removals leaves a forest with proper stacks where nothing contains itself; without FLAG_NOLIMIT no container is ever filled beyond its capacity and no outermost depot beyond its limit |
| RunTotals.RunConserves | game.cpp:970-1200 | over any run the pieces of a type that all containers hold change by what is brought in and taken out, and a run of moves, with all its splits and merges, keeps them all |
| Coins.RemoveCoin | game.cpp:1458-1460 | removing a coin anywhere below a container lowers its money by the coin's worth and nothing else |
| Coins.AddCoin | game.cpp:1471-1493 | a stack of change that goes in raises the money by its value; with FLAG_NOLIMIT it always goes in |
| Paying.GetMoney | game.cpp:1354-1396 | the worth of all coins anywhere below a container |
| Paying.SortedIn | game.cpp:1428-1445 | inserting into the multimap adds exactly that coin |
| Paying.SortedRises | game.cpp:1408-1410 | the multimap stays in order of worth |
| Paying.CollectCoins | game.cpp:1414-1448 | the map holds every coin once, in order of worth, and its total is the money |
| MoneyRemoval.TakeCoin | game.cpp:1455-1460 | one turn of the paying loop: the next coin leaves, and the rest still covers what is owed |
| MoneyRemoval.GiveBack | game.cpp:1470-1476 | a stack of change is worth its value, inside or on the ground |
| MoneyRemoval.GiveChange | game.cpp:1463-1493 | change of any amount goes back as at most three new stacks of 1 to 99 coins, worth exactly the rest, and nothing else comes in |
| MoneyRemoval.RemoveMoney | game.cpp:1398-1499 | succeeds exactly if there is enough; then the money falls by exactly the amount (change on the ground aside, of which there is none with FLAG_NOLIMIT), only coins are taken, none worth more than one that stays and no more than are needed, and at most three stacks come back; otherwise nothing changes |
| CoinOrder.FirstPay | game.cpp:1454-1463 | if the first k coins of the purse pay and the first k - 1 do not, they are the smallest ones and the last of them is needed |
| CoinOrder.InPurse | game.cpp:1414-1448 | every coin anywhere below the container is in the purse |
| ItemRows.Holder | iologindata.cpp:579-604 | an item found in a list was numbered after the item that holds it, which is its parent |
| ItemRows.NumberedOnce | iologindata.cpp:546-608 | no item is numbered twice |
| ItemRows.AllNumbered | iologindata.cpp:546-608 | everything anywhere below the list is numbered, and nothing else |
| ItemRows.RowIds | iologindata.cpp:546-608 | ids are distinct and above 100, and a row inside a container names its holder's smaller id |
| ItemRows.SaveTops | iologindata.cpp:553-577 | the list itself gets consecutive rows with the ids of its slots, and its containers are queued |
| ItemRows.SaveContents | iologindata.cpp:581-604 | one container's items get consecutive rows under its id |
| ItemRows.SaveItems | iologindata.cpp:546-608 | the rows are the breadth-first numbering of the forest below the list, ids in order and every nested pid smaller than its sid, and the loop ends |
| RowLoading.LoadItems | iologindata.cpp:968-992 | for any rows: each id stands for an item made from the last usable row with that id |
| RowRoundTrip.DecidingAnyOrder | iologindata.cpp:968-1010 | when every id has one usable row, the order in which the rows are read makes no difference |
| StrayRows.LastRowDecides | iologindata.cpp:968-992 | of any rows: an id stands for an item exactly if a row of a known type has it, and the last such row decides |
| StrayRows.GreatestGetsSlot | iologindata.cpp:440-503 | of any entries: a slot is filled exactly if one wants it, and the one with the greatest id gets it |
| RowLoading.PlaceOne | container.cpp:741-766 | one row is put into its slot, in front of its container's list, or nowhere |
| RowLoading.Rebuild | iologindata.cpp:440-467 | for any map: the walk from the greatest id down does to items and slots what the rebuild function says |
| RowRoundTrip.RebuildPlaces | iologindata.cpp:440-467 | walking the ids of a saved forest downwards, each list holds the placed part of its items in order |
| SavedForest.SlotsPlaced | iologindata.cpp:475-503 | the slots filled are those of the top rows that fit |
| SavedForest.RowsRestore | iologindata.cpp:440-608 | from the rows of a saved forest: all slots come back exactly if every top row fits its section, and then every parent, list order, type, count and attribute bytes do too; the slots filled are those of pids 1 to 10, or of depots under towns 0 to 99, and no others |
| SavedForest.SaveAndLoad | iologindata.cpp:436-608 | the same for saving the items and loading their rows in falling order of their ids, on the item objects: everything comes back exactly if all slots are 1 to 10, or all are depots of the towns 0 to 99 |
| SavedPlayer.InventoryTops | iologindata.cpp:736-742 | the list handed over names exactly the slots 1 to 10 that are filled |
| SavedPlayer.SaveAndLoadInventory | iologindata.cpp:736-746 | whatever a player wears or carries: every slot from 1 to 10 comes back with everything in it, and empty ones are empty |
| SavedPlayer.SaveAndLoadDepots | iologindata.cpp:475-503 | of any depots exactly those of the towns 0 to 99 are found again, and if all are, they come back with everything in them |
| SavedForest.DepotInItself | iologindata.cpp:489-503 | an empty depot under town 101 is loaded into itself and its town stays empty |
| AscendingIds.ConsecutiveIds | iologindata.cpp:446-448 | walking a map of consecutive ids in order meets each exactly once |
| ConnectionObject.Connection.CloseConnection | connection.cpp:79-93 | requests closing once and posts one delayed task |
| ConnectionObject.Connection.CloseConnectionTask | connection.cpp:95-122 | what the delayed closing does to the connection and its protocol, and what it posts |
| ConnectionObject.Connection.AcceptConnection | connection.cpp:124-131 | starts the first read |
| ConnectionObject.Connection.ParseHeader | connection.cpp:133-157 | a finished header read, in every state, with every size and error |
| ConnectionObject.Connection.ParsePacket | connection.cpp:159-216 | a finished body read: protocol selection, whatever the protocol does, and the next read |
| ConnectionObject.Connection.HandlePacket | connection.cpp:169-216 | a packet that has been read: protocol selection by the first one, whatever the protocol does, and the next read |
| ConnectionObject.Connection.HandleReadError | connection.cpp:218-245 | closes on every error but an aborted operation |
| ConnectionObject.Connection.SendMessage | connection.cpp:247-278 | refuses when closing or after a write error, writes at once when idle, queues otherwise |
| ConnectionObject.Connection.OnWriteOperation | connection.cpp:303-346 | a finished write: the next message, an error, or closing |
| ConnectionObject.Connection.HandleWriteError | connection.cpp:348-375 | closes on every error but an aborted operation, and stops writing |
| ConnectionObject.Connection.ClosingConnection | connection.cpp:377-422 | closes the socket when no write is pending and posts the deletion when no read is |
| ConnectionObject.Connection.Happen | connection.cpp:79-422 | any event runs its handler and leaves the state the step function gives |
| ConnectionSteps.StepKeeps | connection.cpp:79-422 | every event keeps the counters true, the posted tasks right and the messages in order |
| ConnectionSteps.PacketKeeps | connection.cpp:159-216 | also a packet whose protocol sends and closes any number of times |
| ConnectionSteps.ReachableIsSound | connection.cpp:79-422 | in every reachable state pendingRead is the reads under way, pendingWrite the writes unless one failed, deletion has been posted at most once and exactly when closing with nothing under way; messages leave in order one at a time, and all of them before a deletion without write error |
| ConnectionReads.OpenIsReading | connection.cpp:120-216 | in every reachable state, as long as no one has asked to close and no read has failed, there is one read under way for each time the connection was accepted |
| ConnectionReads.ReadErrorComes | connection.cpp:133-245 | a read error comes only from a failed read or a header with a size outside 1 to 15343, and only before the connection is closing |
| ConnectionReads.CloseComes | connection.cpp:79-372 | a connection is asked to close by a call, by a failure other than an abort, by a wrong size, or by a first byte that names no protocol, and by nothing else |
| ConnectionReads.WriteErrorComes | connection.cpp:303-372 | a write error comes only from a failed write |
| ConnectionReads.HeaderLeadsToBody | connection.cpp:133-157 | a good header is followed by the read of its body |
| ConnectionReads.PacketLeadsToHeader | connection.cpp:159-216 | a good packet of a known protocol is followed by the read of the next header |
| ConnectionReads.UnknownPacketCloses | connection.cpp:165-203 | a first packet that names none of the four protocols asks to close and is followed by no read |
| ConnectionReads.MessageIsTaken | connection.cpp:247-290 | a message is dropped exactly when the connection is closing or could not write, and goes out at once if none is under way |
| ConnectionSteps.ClosingDrains | connection.cpp:377-422 | once closing, each completion leaves exactly one operation or queued message fewer, and nothing else has any effect |
| ConnectionSteps.ClosingEnds | connection.cpp:377-422 | a closing connection sees boundedly many completions and is deleted exactly when none can come any more |
| DamageList.GenerateDamageList | condition.cpp:1433-1454 | ends with a falling list of hits of 1 to start, each size at least once and each sum as near to its share as it can be; the total is the amount or one hit of each size, whichever is more |
| DamageList.TotalDamage | condition.cpp:1433-1454 | that description alone fixes the total |
| DamageShape.OneList | condition.cpp:1433-1454 | that description fits one list only |
| DamageList.ExactDamage | condition.cpp:1433-1454 | the total is the amount exactly if the amount is at least start*(start+1)/2 |
| DamageList.DefaultIsExact | condition.cpp:1227-1232 | with the default start the total is the amount exactly up to 760, and at 780 |
| DamageList.DamageCondition.AddDamage | condition.cpp:1203-1217 | appends equal rounds and adds their intervals to the ticks, unless those are -1 |
| DamageList.DamageCondition.Init | condition.cpp:1219-1242 | an empty condition gets the generated hits as rounds, with ticks for all of them; a filled one is left alone |
| DamageList.RoundsTicks | condition.cpp:1203-1217 | the ticks of generated rounds are their number times the interval |
| PropBytes.IntBack | fileloader.h:199-206 | a signed value comes back from its four bytes |
| PropBytes.LowestFirst | fileloader.h:199-206 | the lowest byte of a value comes first |
| PropBytes.StringBack | fileloader.h:225-243 | a string comes back exactly if its length fits 16 bits and it has no zero byte, and the stream is at its end either way |
| PropStreams.PropStream.GetValue | fileloader.h:199-206 | all the bytes of a value, or none and no step forward |
| PropStreams.PropStream.GetStringValue | fileloader.h:225-243 | reads what the string function says; on a failure the two bytes of the length have been taken if they were there |
| PropStreams.PropWriteStream.EnsureCapacity | fileloader.h:332-361 | there is room for so many bytes more, and the contents stay |
| PropStreams.PropWriteStream.AddValue | fileloader.h:299-304 | appends exactly the bytes of the value, growing or not |
| PropStreams.PropWriteStream.AddString | fileloader.h:318-325 | appends what the string function says |
| ConditionRoundTrip.ReadBack | condition.cpp:91-138 | every tagged value is read back, and exactly its bytes are taken |
| ConditionRoundTrip.ReadAll | condition.cpp:80-89 | a run of tagged values up to the end mark is taken in order, wherever it stands |
| ConditionRoundTrip.AttributesBack | condition.cpp:423-466 | skills and stats of an attribute condition |
| ConditionRoundTrip.RegenerationBack | condition.cpp:753-811 | the four fields of a regeneration condition |
| ConditionRoundTrip.DamageBack | condition.cpp:1150-1201 | delay, owner and all rounds, with the ticks counted anew |
| ConditionRoundTrip.SpeedBack | condition.cpp:1544-1614 | speed and formula bytes |
| ConditionRoundTrip.OutfitBack | condition.cpp:1780-1803 | all outfits in order |
| ConditionRoundTrip.LightBack | condition.cpp:1981-2041 | the four fields of a light condition |
| ConditionRoundTrip.SoulBack | condition.cpp:928-962 | the two fields of a soul condition |
| ConditionRoundTrip.ConditionsRoundTrip | iologindata.cpp:339-351 | loading the bytes of any list gives the persistent conditions in order with all stored fields, all of them exactly if every type is known |
| ConditionRoundTrip.TypesKnown | condition.cpp:164-243 | a condition is made exactly for the nineteen types, by their numbers, and of the class of its type |
| SavedConditions.RegenerationSaved | condition.cpp:202-206 | type 8192: a regeneration with all four fields is what is loaded |
| SavedConditions.SoulSaved | condition.cpp:208-212 | type 16384: a soul condition with both fields is what is loaded |
| SavedConditions.SpeedSaved | condition.cpp:177-182 | types 16 and 32: speed and formula come back |
| SavedConditions.OutfitSaved | condition.cpp:190-194 | type 64: all outfits come back |
| SavedConditions.LightSaved | condition.cpp:196-200 | type 256: the four fields of a light come back |
| SavedConditions.GenericSaved | condition.cpp:184-236 | types 128, 512, 1024, 2048, 4096, 65536, 131072 and 262144 come back as they are |
| SavedConditions.AttributesSaved | condition.cpp:220-224 | type 524288: seven skills and four stats come back |
| SavedConditions.DamageSaved | condition.cpp:168-175 | types 1, 2, 4 and 32768: all rounds come back, with the sum of their intervals as ticks |
| SavedConditions.NotStored | condition.cpp:274-280 | a condition without an end, or of something worn, leaves no byte |
| SavedConditions.UnknownStops | condition.cpp:237-242 | behind a stored condition of any other type nothing is loaded |
| SavedConditions.MadeFrom | condition.cpp:246-272 | from any bytes a condition is made exactly if a head of fifteen bytes is there and names one of the nineteen types |
| ConditionValues.ReadExactly | condition.cpp:80-130 | from any bytes a value is taken exactly if the class knows its code and all its bytes are there |
| ConditionValues.FieldOfCode | condition.h:71-97 | the field that each code stands for |
| ConditionValues.GivenUp | iologindata.cpp:345-351 | a condition with a code it does not know, or with a cut value, is dropped, and loading goes on right behind that code |
| ConditionValues.WellEnded | condition.cpp:80-94 | the end mark and the end of the bytes both end a condition well |
| ConditionRoundTrip.TicksAreSum | condition.cpp:1170-1180 | the ticks of a loaded damage condition are the sum of its intervals if and only if the running total does not reach -1 with a rest that adds up to something |
| ConditionRoundTrip.TicksOfPositive | condition.cpp:1168-1180 | so they are when no interval is negative |
| ConditionStore.StoredCondition.Serialize | condition.cpp:140-151 | writes exactly the tagged bytes of the condition |
| ConditionStore.StoredCondition.UnserializeProp | condition.cpp:91-138 | one value of any class from any bytes: what changes, what is taken, when it fails; the end mark is accepted and changes nothing |
| ConditionStore.StoredCondition.Unserialize | condition.cpp:80-89 | reads values to the end mark or the end of the stream, from any bytes |
| ConditionStore.CreateCondition | condition.cpp:246-272 | makes a condition of a known type or none, from any bytes |
| ConditionStore.SaveConditions | iologindata.cpp:633-646 | writes exactly the persistent conditions |
| ConditionStore.LoadConditions | iologindata.cpp:339-351 | ends on any bytes with the conditions the load function gives |
| ConditionStore.SaveAndLoad | iologindata.cpp:339-646 | the round trip on condition objects and a growing buffer |
| AreaMatrix.CreateArea | combat.cpp:1065-1091 | cell by cell the marks of the list, with the last centre given |
| AreaMatrix.CopyMirrored | combat.cpp:990-999 | the columns in reverse, and the centre that copyArea sets |
| AreaMatrix.CopyFlipped | combat.cpp:1000-1009 | the rows in reverse, and the centre that copyArea sets |
| AreaMatrix.CopyRotated | combat.cpp:1010-1062 | every write is inside the output and each output cell comes from exactly one input cell |
| AreaMatrix.AllLand | combat.cpp:1013-1059 | all three turned copies stay inside their matrices exactly if the centre lies no further down than half their height |
| AreaDirections.TurnedToArea | combat.cpp:1010-1062 | seen from the centre, the rotated copy is the area turned |
| AreaDirections.CreatedTurnable | combat.cpp:1065-1116 | the turned copies of the area of a list stay inside their matrices exactly if the place of its last centre is less than the columns times the longer side, or there are no columns |
| AreaMatrix.MirrorNotMoved | combat.cpp:990-999 | a mirror image that copyArea moves sideways is the mirror image only if it is not moved or there is nothing to hit |
| AreaDirections.MirroredHits | combat.cpp:990-999 | the mirrored copy is the mirror image moved by the columns the input has more than rows |
| AreaMatrix.FlipNotMoved | combat.cpp:1000-1009 | the same for the upside-down image |
| AreaDirections.FlippedHits | combat.cpp:1000-1009 | the flipped copy is the upside-down image moved by the rows the input has more than columns |
| AreaMatrix.HalfTurn | combat.cpp:1208-1211 | flipped and then mirrored is turned half round |
| AreaDirections.AreaCombat.SetupArea | combat.cpp:1093-1116 | east, south and west are north turned by a quarter, a half and three quarters |
| AreaDirections.AreaCombat.SetupExtArea | combat.cpp:1185-1212 | north-east, south-west and south-east are the north-west area mirrored, flipped and turned half round, each exactly if the list is square or hits nothing; otherwise the first two are moved by the difference, and south-east is south-west mirrored |
| AreaDirections.Diagonals | combat.cpp:1185-1212 | the same three equivalences for any areas copied like that |
| AreaDirections.AreaCombat.GetList | combat.cpp:926-967 | exactly the visible tiles under the area of the direction in which the target lies, row by row and none twice |
| AreaDirections.AreaCombat.Towards | combat.h:212-245 | the direction in which the target lies, by the signs of both distances and whether there are areas for the diagonals |
| AreaShapes.MarkedCells | combat.cpp:1073-1076 | a cell is part of the area exactly if its number is 1 or 3 |
| AreaShapes.CentreIsLast | combat.cpp:1078-1079 | the centre is at the last 2 or 3 |
| AreaShapes.AroundTheCompass | combat.cpp:1093-1116 | a cell is hit to the north exactly if the cell a quarter, a half and three quarters of a turn on is hit to the east, south and west |
| AreaShapes.AcrossTheDiagonals | combat.cpp:1185-1213 | a cell is hit to the north-west exactly if the cell across is hit in the other diagonal directions, about a centre moved by what the list has more columns than rows |
| AttributeBits.MaskSet | item.cpp:1150-1163 | setting a bit adds that type to the mask and no other |
| AttributeBits.MaskCleared | item.cpp:1059-1060 | clearing a bit takes that type out and no other |
| AttributeStore.ItemAttributes.AddAttr | item.cpp:1150-1163 | the node goes to the end of the list, and mask and map gain its type |
| AttributeStore.ItemAttributes.GetAttrConst | item.cpp:1165-1180 | the node of a type, or none exactly if the map has no such type |
| AttributeStore.ItemAttributes.GetAttr | item.cpp:1182-1203 | the node of a type, added without value if there was none |
| AttributeStore.ItemAttributes.RemoveAttribute | item.cpp:1043-1075 | exactly that type leaves list, mask and map |
| AttributeStore.ItemAttributes.SetIntAttr | item.cpp:1091-1100 | the map with the value set, all other types unchanged; text types are ignored |
| AttributeStore.ItemAttributes.GetIntAttr | item.cpp:1077-1089 | the value in the map as an unsigned 32-bit number, or 0 |
| AttributeStore.ItemAttributes.IncreaseIntAttr | item.cpp:1102-1111 | the map with the sum, all other types unchanged |
| AttributeStore.ItemAttributes.SetStrAttr | item.cpp:1013-1028 | the map with the text set, unless it is empty |
| AttributeStore.ItemAttributes.GetStrAttr | item.cpp:999-1011 | the text in the map, or the empty string |
| AttributeStore.ItemAttributes.HasAttribute | item.cpp:1030-1041 | true exactly of number types in the map |
| AttributeStore.ItemAttributes.SetActionId | item.h:146 | the action id is the number, but at least 100 |
| AttributeStore.ItemAttributes.GetActionId | item.h:147 | the low 16 bits of the action id, or 0 |
| AttributeStore.ItemAttributes.SetUniqueId | item.h:149 | the unique id is the number, but at least 1000 |
| AttributeStore.ItemAttributes.GetUniqueId | item.h:150 | the low 16 bits of the unique id, or 0 |
| AttributeStore.ItemAttributes.SetDate | item.h:130 | the written date is the number as int32 |
| AttributeStore.ItemAttributes.GetDate | item.h:132 | the written date, or 0 |
| AttributeStore.ItemAttributes.SetSleeper | item.h:134 | the sleeper is the number as int32 |
| AttributeStore.ItemAttributes.GetSleeper | item.h:140 | the sleeper, or 0 |
| AttributeStore.ItemAttributes.ResetSleeper | item.h:135-139 | sleeper and special description are gone, and nothing else |
| AttributeStore.ItemAttributes.SetOwner | item.h:152 | the owner is the number as int32 |
| AttributeStore.ItemAttributes.GetOwner | item.h:153 | the owner, or 0 |
| AttributeStore.ItemAttributes.SetDuration | item.h:155 | the duration is the number |
| AttributeStore.ItemAttributes.DecreaseDuration | item.h:156 | the duration falls by the number, from 0 if there was none |
| AttributeStore.ItemAttributes.GetDuration | item.h:157 | the duration as a signed number, or 0 |
| AttributeStore.ItemAttributes.SetDecaying | item.h:159 | the decay state is the number |
| AttributeStore.ItemAttributes.GetDecaying | item.h:160 | the decay state, or 0 |
| AttributeStore.ItemAttributes.SetSpecialDescription | item.h:122 | the description is the text, unless that is empty |
| AttributeStore.ItemAttributes.GetSpecialDescription | item.h:124 | the description, or the empty string |
| AttributeStore.ItemAttributes.SetText | item.h:126 | the text is set, unless it is empty |
| AttributeStore.ItemAttributes.GetText | item.h:128 | the text, or the empty string |
| AttributeStore.ItemAttributes.SetWriter | item.h:142 | the writer is set, unless the name is empty |
| AttributeStore.ItemAttributes.GetWriter | item.h:144 | the writer, or the empty string |
| TradeGame.Game.Overlaps | game.cpp:2212-2223 | whether an offered item is the same, inside or around the item |
| TradeGame.Game.RequestTrade | game.cpp:2168-2232 | when a request is granted, and what it does to players and register |
| TradeGame.Game.StartTrade | game.cpp:2234-2270 | likewise for the states that allow a trade to start |
| TradeGame.Game.AcceptTrade | game.cpp:2272-2354 | one acceptance, or the second one: it ends the trade for both with an item from each side, and otherwise leaves both in TRANSFER with their offers struck off and the server stopped |
| TradeGame.Game.CloseTrade | game.cpp:2457-2509 | both players are free and both offers struck off |
| TradeSteps.StepSound | game.cpp:2168-2509 | every request, acceptance and closing keeps the invariant, but for a second acceptance without an item from each side, which stops the server |
| TradeSteps.ReachableIsSound | game.cpp:2168-2509 | over every run of any number of players: partners are mutual and never oneself, NONE is to have no partner, no one rests in TRANSFER, and the register is exactly the offered items with their owners; a run that has stopped has two partners in TRANSFER, one of them without an item, and all the others in that order |
| TradeSteps.BothHaveOffered | game.cpp:2272-2284 | the second acceptance has an item from each side exactly if no one accepted empty-handed |
| TradeSteps.SettlingFrees | game.cpp:2272-2350 | the second acceptance frees both players if and only if it comes from one in TRADE_INITIATED whose partner has an item; otherwise the server stops |
| TradeSteps.EmptyHandedWaits | game.cpp:2272-2339 | who has accepted empty-handed is freed by a closing of one of the two, is in TRANSFER when the other accepts and the server stops, and is not touched by anything else |
| TradeSteps.EmptyHandedStops | game.cpp:2234-2339 | from the empty state two players get there: one asks, the other accepts without an offer, and the first one's acceptance stops the server |
| TradeDeals.RequestAnswered | game.cpp:2234-2270 | a request is refused exactly if the player trades with someone else or has offered or accepted already, or the other one trades with someone else; otherwise the offer stands and is registered |
| TradeDeals.FirstOffer | game.cpp:2247-2262 | between two players who do not trade: one has offered, the other has been asked |
| TradeDeals.CounterOffer | game.cpp:2236-2269 | who has been asked may answer with an item; then both have offered, and both items are registered |
| TradeDeals.AcceptanceNoted | game.cpp:2272-2283 | an acceptance before the other one's is noted and changes nothing else |
| TradeDeals.AcceptanceEnds | game.cpp:2283-2339 | the second acceptance frees both and takes both items off the register, or stops the server if there are not two |
| TradeDeals.ClosingFrees | game.cpp:2446-2509 | whoever closes frees both, and exactly their offers leave the register |
| TradeDeals.TradeGoesThrough | game.cpp:2234-2339 | from the empty state: two players come, one asks, the other answers, both accept; both are idle and nothing is on offer |
| AreaDirections.Rotated | combat.cpp:1103-1116 | a turned copy in a matrix of twice the longer side |
| AreaDirections.Mirrored | combat.cpp:1198-1201 | a mirrored copy and where it is moved |
| AreaDirections.Flipped | combat.cpp:1203-1206 | a flipped copy and where it is moved |
| AreaMatrix.CopyPlain | combat.cpp:981-989 | the same cells and centre |
| AreaMatrix.CopyCell | combat.cpp:1046-1059 | one cell is written inside the output, to a place no other cell is turned to |
| AttributeStore.ItemAttributes.SetValue | item.cpp:1020-1027 | one value changes, in its node and in the map |
| AttributeStore.ItemAttributes.Bypass | item.cpp:1050-1057 | the pointers lead past one node, and the rest of the list stays linked in order |
| AttributeStore.ItemAttributes.Unlink | item.cpp:1050-1068 | the node leaves list, mask and map together |
| ConditionStore.AddWord | condition.cpp:142-149 | a code and four bytes are appended |
| ConditionStore.AddImage | condition.cpp:1189-1198 | a code and the bytes of a value are appended |
| ConditionStore.AddRounds | condition.cpp:1193-1198 | every round of a damage condition is appended in order |
| ConditionStore.StoredCondition.SerializeHead | condition.cpp:140-151 | type, id and ticks |
| ConditionStore.StoredCondition.SerializeAttributes | condition.cpp:449-466 | all skills and then all stats |
| ConditionStore.StoredCondition.SerializeRegeneration | condition.cpp:794-811 | the four fields in their order |
| ConditionStore.StoredCondition.SerializeSoul | condition.cpp:951-963 | the two fields in their order |
| ConditionStore.StoredCondition.SerializeDamage | condition.cpp:1184-1201 | delay, owner and every round |
| ConditionStore.StoredCondition.SerializeSpeed | condition.cpp:1594-1614 | speed and formula in their order |
| ConditionStore.StoredCondition.SerializeOutfit | condition.cpp:1794-1805 | every outfit |
| ConditionStore.StoredCondition.SerializeLight | condition.cpp:2023-2041 | the four fields in their order |
| ConditionStore.StoredCondition.UnserializeBase | condition.cpp:91-138 | type, id or ticks, the end mark without reading anything, or refusal of an unknown code |
| ConditionStore.StoredCondition.UnserializeAttributes | condition.cpp:423-447 | the next skill or the next stat |
| ConditionStore.StoredCondition.UnserializeRegeneration | condition.cpp:753-792 | the field of the code and no other |
| ConditionStore.StoredCondition.UnserializeSoul | condition.cpp:928-949 | the field of the code and no other |
| ConditionStore.StoredCondition.UnserializeDamage | condition.cpp:1150-1182 | delay, owner, or one more round with its ticks |
| ConditionStore.StoredCondition.UnserializeSpeed | condition.cpp:1544-1592 | the field of the code and no other |
| ConditionStore.StoredCondition.UnserializeOutfit | condition.cpp:1780-1792 | one more outfit |
| ConditionStore.StoredCondition.UnserializeLight | condition.cpp:1981-2021 | the field of the code and no other |
| ConnectionObject.Connection.InternalSend | connection.cpp:280-287 | one message is handed to async_write and counted |
| ConnectionObject.Connection.SelectProtocol | connection.cpp:171-197 | one of four protocols by the first byte, or none |
| ConnectionObject.Connection.Receive | connection.cpp:198-204 | whatever sends and closings the protocol makes, in order |
| ConnectionObject.Connection.SendNext | connection.cpp:315-331 | a finished write is counted off and the first queued message goes out |
| CylinderChanges.AskToMove | game.cpp:976-1042 | the answers of all queries together: ignored, refused with which reason, or granted for how many pieces |
| CylinderChanges.AskToAdd | game.cpp:1103-1124 | the same for an addition: refused with which reason, or granted for how many pieces |
| CylinderChanges.CarryOut | game.cpp:1044-1074 | the item or some pieces of it leave the source and arrive |
| CylinderChanges.PutOnto | game.cpp:1131-1153 | a new stack merges as far as there is room |
| CylinderChanges.PutDown | game.cpp:1126-1164 | an item is brought in whole or merged |
| MoneyRemoval.GiveCoins | game.cpp:1470-1493 | change of one kind, if there is any, as at most one new stack |
| NodeParsing.ReadBehind | fileloader.cpp:187-219 | a sibling starts, the parent's end is given back, the file ends, or the format is wrong |
| PropStreams.CString | fileloader.h:233-239 | a C string ends at its first zero byte |
| TradeGame.Game.Exchange | game.cpp:2286-2350 | both offers leave the register; both players are free if there is an item from each side, and otherwise in TRANSFER with the server stopped |
| TradeGame.Game.CloseBoth | game.cpp:2457-2509 | the closing player and the partner are freed |
| TradeGame.Game.Leave | game.cpp:2469-2484 | one player's offer is struck off |

## Left out

- Tiles, players and the virtual cylinder as ends of a move, and RET_NEEDEXCHANGE: their code decides by equipment rules and map state; containers never ask for an exchange.
- `test` calls of internalAddItem and internalRemoveItem, and FLAG_CHILDISOWNER and FLAG_IGNORENOTMOVEABLE given from outside: no caller in the modelled parts uses them on containers.
- Client messages, spectators, decay, notifications, reference counts, Lua callbacks and XML forms.
- TradeGame.Game.AcceptTrade: does not model where the two items go, because that is a move between player inventories; whether it worked is an argument. What the process does after it has dereferenced a missing item is not modelled.
- TradeGame.Game.RequestTrade: does not model distance, floor, pickup and client id checks one by one; they are one argument.
- NodeFormat.RoundTrip: does not model setProps after a child has started, because the format has no place for props there.
- FileLoading.FileLoader.GetProps: does not model what is read over the end of the buffer when props do not fit it after one growth; the model reports an overrun there.
- CachedReading.CachedFile.ReadBytes: does not model reads and seeks behind the end of the file or failing disk calls, because the original leaves its buffers undefined then. The three cache slots are one field, and the error code m_lastError is left out.
- MoneyRemoval.RemoveMoney: does not model 32-bit overflow of money totals; it takes as given that coin types are stackable and pickupable rows of the item table. Change that does not fit is counted as lying on the ground, without the tile it lies on.
- ContainerOps.TopParent: does not model the cylinder at the end of the chain, a tile or a player, which is there for every container that is not loose; the original returns the last container below it.
- Weighing.GetWeight: does not model rounding, because weights are exact numbers here.
- RowLoading.LoadItems: does not model the renumbering of some item ids in CreateItem, nor what readAttr makes of the attribute bytes; count and bytes are carried over as they are.
- RowLoading.Rebuild: does not model the player as parent of the items in the slots; they have no parent here.
- SavedForest.SaveAndLoad: does not model the SQL text; the database is a faithful list of rows that comes back greatest sid first.
- ConnectionObject.Connection.ParsePacket: does not model what a protocol does beyond sending and closing, nor that acceptConnection takes no lock; it happens before closing begins.
- ConnectionManager, sockets and asio: completions are events that succeed or fail in any order.
- DamageList.GenerateDamageList: does not model 32-bit overflow and float rounding; the float comparison is replaced by what it means for exact numbers.
- DamageList.DamageCondition.Init: does not model the random roll, which is an argument.
- ConditionStore.StoredCondition.UnserializeProp: does not model a stream with more than seven skills or four stats, where the original writes behind its arrays; the model refuses the value. Overflow of ticks, the fields that are never stored, and the layout of padding bytes are left out.
- ConditionStore.StoredCondition.UnserializeAttributes: does not model an eighth skill or a fifth stat, for the same reason.
- PropStreams.PropStream.GetValue: does not model the reading of a bool from a byte other than 0 and 1, which is any truth value in the original.
- AreaMatrix.CopyRotated: does not model sines and cosines; turns are exact quarter turns. setupArea from a length or a radius only makes lists for the modelled one.
- AreaMatrix.CreateArea: does not model marks behind the last full row, where the original writes outside the matrix. Centres are signed numbers; the original's wrap around to the same places.
- AreaMatrix.CopyCell: does not model a cell that is turned to a place outside the output, where the original writes outside the matrix. The same holds for AreaMatrix.CopyRotated, AreaDirections.TurnedToArea and AreaDirections.Rotated; AreaDirections.CreatedTurnable says for which lists there is none.
- AreaDirections.AreaCombat.SetupArea: does not model lists for which AreaMatrix.CreateArea or a turned copy writes outside its matrix.
- AreaDirections.AreaCombat.SetupExtArea: does not model lists for which AreaMatrix.CreateArea writes outside its matrix.
- AttributeStore.ItemAttributes.IncreaseIntAttr: does not model overflow of the 64-bit sum.
- Item::serializeAttr and readAttr, pathfinding, spells beyond their areas, houses, guilds, the map and the administration protocol.
