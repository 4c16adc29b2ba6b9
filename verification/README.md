# VAULT-TEC Logistics Service: inventory, orders and clients

A Dafny model of the order engine of the logistics server. One UDP loop and any number of TCP
client threads push orders through the same pipeline against two shared tables:

`storeOrder`, `validateOrderLimits`, `checkProductStock` (read), `realTimeUpdate` (debit, then
credit), `checkLowStockAlert` (read), `reStock` (read, then write).

No lock and no transaction spans two database statements. The project proves what this pipeline
keeps in every interleaving, with any statement failing, any TCP reply lost and the process ending
at any uncaught exception; what one pass amounts to when it runs alone; that the running totals of
the product report agree with the order log; and how the registry of clients behaves over all its
histories.

## How the files fit together

| file | contents |
|---|---|
| `Orders.dfy`, `OrderValidation.dfy` | order documents; the decision, against the limits of the header, product by product and code by code |
| `StockTables.dfy`, `InventoryDb.dfy` | the stored procedures as scans over rows, the class of the database access layer, and their refinement to a map from keys to quantities |
| `OrderStorage.dfy` | order log and report totals |
| `OrderEngine.dfy` | the machine: handlers with a phase each, one statement per step, every interleaving a sequence of inputs |
| `EngineTotals.dfy`, `EngineAccounts.dfy` | totals over log, handlers and rows; safety and the books of every run |
| `RestockRace.dfy`, `StockFloor.dfy` | how far racing restocks overfill a row; the floor they keep |
| `LossFreedom.dfy` | the only ways goods can be lost between debit and credit |
| `OrderPass.dfy` | one handler alone: a run of the machine, the code of a pass, and one abstract transfer |
| `StockChecks.dfy`, `OrderServer.dfy` | the checks and the message loops in place, refining the pass; the UDP loop alone; a TCP client from first message to last |
| `OrderFields.dfy` | transfer, checks and storing spelled out by the fields of the order |
| `ServerRefinement.dfy` | the loops and sessions as runs of the machine, their log, and their clients as a history of the registry |
| `ClientRegistry.dfy` | registration, lookup, timeout cleanup, disconnection |

The classes fix order and effect of the code when nobody else acts. `ServerRefinement.LoopIsRun` and
`ServerRefinement.SessionIsRun` place that behaviour, message by message, among the runs of the machine, where the
interleavings are; `OrderPass.MachineDoesPass` does it for a single order.

## What does not hold, and when it does

- A warehouse row is documented to hold 1000 units at most. With n handlers it can hold 1000 * n; the
  documented capacity holds in every run exactly when n is 1 (`RestockRace.CapacityHoldsForOneHandlerOnly`).
- `realTimeUpdate` is not atomic: a failed credit does not undo the debit. Whatever statement fails, it keeps the
  product's total exactly when the debit does not take place, or the credit statement succeeds and the destination row
  exists and has room (`OrderPass.TransferIsAtomicIff`; goods lost in `OrderPass.TransferLosesGoods`).
- `reStock` is documented to return true when it restocked and false otherwise; it also returns true when the
  row was above the threshold, and the server then sends whatever alert was left over
  (`StockChecks.ReStockReportsTruthIff`).
- A TCP client's entry does not live as long as its connection: a second connection with the same process id is
  turned down but erases the entry when it closes (`ClientRegistry.RejectedConnectionEvictsOwner`). While its own
  connection is open the entry lives exactly as long as no other connection that announced its process id closes
  (`ClientRegistry.EntryLivesUntilCloseIff`).
- Cleanup is documented to remove the UDP clients that sent nothing within the timeout. `last_seen` is set on
  registration and never refreshed (`ClientRegistry.LastSeenIsRegistration`), so a client that registers at 0 and sends
  at 59 is removed at 61 with the timeout of 60 (`ClientRegistry.ActiveClientIsRemoved`). Exactly the silent clients are
  removed if and only if no client registered longer ago than the timeout was heard from within it
  (`ClientRegistry.CleanupRemovesSilentIff`).
- `include/database/inventoryDb.hpp` promises 0 on failure. A failed update returns -1, and `realTimeUpdate` returns 0
  exactly when the source names no row (`InventoryDb.FailureIsMinusOne`).
- `test/common/testOrderValidation.cpp` expects 1002 and 1004 in lines 73 and 84, one above the codes that
  `include/common/orderValidation.hpp` gives to these cases (`OrderValidation.CodesOfRejectedRequests`).

## Assumptions

- A statement is atomic, and a failed statement changes nothing; a value outside the `INT` column fails the
  statement (the server's default strict mode). An UPDATE that leaves a row as it was counts no affected row.
- `storeOrder` and the handler agree on which texts parse; locations and quantities that are present are integers.
- Product names are canonical: the case-insensitive collation plays no part.
- A closed TCP connection leaves its handler idle, and a new connection takes an idle handler, so n counts the
  handlers that can be active at once.
- Each registry operation is one atomic step, although the code takes no lock.

## Model

| member | source | states |
|---|---|---|
| OrderValidation.ValidationMeetsLimits | src/common/orderValidation.cpp:6-95 | an order is accepted exactly when the limits of the header allow it, and the lookup of an unknown product ends the process exactly for otherwise complete requests; `LimitsByProduct` gives both product by product |
| OrderValidation.LimitsByProduct | src/common/orderValidation.cpp:50-92 | for every order: the products that are critical, those that are not, the quantities of each that a hub and an external client may order, and the names that end the process |
| OrderValidation.CodesByRule | include/common/orderValidation.hpp:14-29 | for every order with all its parts: each of the codes 1003 to 1009 is given exactly for its own violation |
| OrderValidation.CodesOfMissingParts | src/common/orderValidation.cpp:6-48 | 1001 exactly without `general_info`, 1002 exactly without a destination, an action or a product |
| OrderValidation.CodesOfRejectedRequests | test/common/testOrderValidation.cpp:69-96 | the codes the code gives to the three requests whose codes the tests look at |
| StockTables.UpdateRows | database/database.sql:55-64 | the UPDATE scan: each row that matches and stays non-negative moves by the amount, others stay, the count is that of changed rows, and a range error rolls everything back |
| StockTables.ChangedIsHit | database/database.sql:71-80 | with unique keys an UPDATE changes at most one row |
| StockTables.ScanIsKeyUpdate | database/inventoryDb.cpp:52-75 | the scan refines the update of one map key: uniqueness is kept and the wrapper's 1 means that exactly that key moved by exactly the amount |
| StockTables.RangeFailureIsKeyUpdate | database/inventoryDb.cpp:97-120 | a range error reaches the caller as -1 with the tables unchanged |
| StockTables.SelectQuantity | database/database.sql:84-93 | the SELECT finds a row of the key if there is one |
| InventoryDb.Database.GetHubInventory | database/inventoryDb.cpp:77-95 | the getter returns the quantity of the key, -1 when it is missing or the statement fails |
| InventoryDb.Database.GetWarehouseInventory | database/inventoryDb.cpp:31-50 | as above for warehouses |
| InventoryDb.Database.UpdateHubInventory | database/inventoryDb.cpp:97-120 | in place, the row scan is the update of one key of the whole stock, uniqueness kept |
| InventoryDb.Database.UpdateWarehouseInventory | database/inventoryDb.cpp:52-75 | as above for warehouses |
| InventoryDb.Database.RealTimeUpdate | database/inventoryDb.cpp:122-161 | in place, a debit and then, if it succeeded and the destination has a row, a credit whose result is returned; the debit is never undone; `OrderFields.TransferByField` names the two rows |
| OrderFields.TransferByField | database/inventoryDb.cpp:122-161 | for every stock, order and fault: the row of the source, in its own table and at its own location, loses the quantity, the row of the destination gains it, both on the same row cancel out, and every other row stays |
| InventoryDb.FailureIsMinusOne | include/database/inventoryDb.hpp:46-76 | an update returns 1 exactly when the tables changed and -1 otherwise; the transfer returns 0 exactly when the source names no row |
| InventoryDb.SeedsAreSound | docker/database.sql:20-37 | the seeded tables have unique keys and one quantity throughout, so they meet the hypotheses of the theorems |
| OrderStorage.RecordKeepsAgreement | src/common/orderStorage.cpp:7-34 | storing keeps the report equal to the sums over the log and adds exactly the order's amount |
| OrderStorage.ReportAgreesAlways | src/common/orderStorage.cpp:7-75 | after any history of storing and clearing the report lists exactly the products asked for, each with its sum |
| OrderStorage.LogSinceClear | src/common/orderStorage.cpp:70-75 | the log is what was stored since the last clear, in order |
| OrderStorage.OverflowShowsInTotal | src/common/orderStorage.cpp:30-33 | no running total exceeds `int` exactly when the last one does not |
| OrderStorage.Storage.StoreOrder | src/common/orderStorage.cpp:7-34 | in place, records the message and keeps log and totals in agreement |
| OrderStorage.Storage.ClearStoredOrders | src/common/orderStorage.cpp:70-75 | in place, empties both |
| OrderFields.RecordByField | src/common/orderStorage.cpp:24-33 | storing an order raises the total of the product it names by its quantity, if both are usable, and no other total |
| EngineAccounts.RowsStayInRange | database/database.sql:59-63 | no row is ever negative or out of its column in any interleaving, with any faults, and no row appears or disappears |
| EngineAccounts.CheckedOrderLosesRaceIff | src/server/server.cpp:342-371 | from the stock check through any steps of others to the debit: the debit takes exactly the quantity if what the check saw, less what others took on balance since, covers it; if not, or on a fault, no row changes and the order is dropped |
| EngineAccounts.RowLedger | database/inventoryDb.cpp:122-161 | in every run each row is its start plus restocks and credits minus debits |
| EngineAccounts.WarehouseLedger | src/common/orderValidation.cpp:52-92 | in every run only `reStock` raises a warehouse row, since no admitted order credits one |
| EngineAccounts.StockLedger | database/inventoryDb.cpp:122-161 | in every run the holdings of a product move by restocks, credits and debits alone |
| EngineAccounts.DebitLedger | database/inventoryDb.cpp:135-160 | in every run each debited unit is credited, shipped, lost or still owed, and the orders reported successful are exactly the credited and shipped ones |
| EngineAccounts.Conservation | database/inventoryDb.cpp:122-161 | in every run rows, goods in flight, shipments and losses add up to the start plus restocks |
| EngineAccounts.OrdersAreAccounted | src/server/server.cpp:311-371 | in every run the stored amount of a product is what was debited, dropped or is still on its way |
| EngineAccounts.ReportCoversDebits | src/server/server.cpp:486-544 | in every run the report exceeds what left the sources by exactly the dropped and pending orders, and is never below it |
| EngineAccounts.ShipmentsAreBounded | src/common/orderValidation.cpp:69-85 | in every run 5 times the number of shipments is at most the initial holdings plus restocks |
| EngineAccounts.OnlyAdmissibleOrdersMoveGoods | src/server/server.cpp:330-371 | in every run each debit, credit, loss and success belongs to an order the limits allow |
| RestockRace.CapacityBound | src/common/lowStockChecker.cpp:45-57 | with n handlers, a row plus all restocks decided but not written stays within 1000 * n |
| RestockRace.RestocksArePaidFor | src/common/lowStockChecker.cpp:53-57 | in every run 900 times the restocks of a row is at most what was debited from it plus 1000 * n minus its start |
| RestockRace.CapacityBoundIsReached | src/common/lowStockChecker.cpp:33-73 | for every number of racing handlers a run fills a row to exactly 1000 times that number |
| RestockRace.CapacityHoldsForOneHandlerOnly | include/common/lowStockChecker.hpp:11-12 | the documented capacity is respected in every run exactly when there is one handler |
| StockFloor.RowsAreCovered | src/common/lowStockChecker.cpp:33-73 | with nothing failing, in every interleaving a warehouse row that started above 100 or was named by a stored order is above 100 or is being worked on |
| StockFloor.WarehousesAreStockedAtRest | src/server/server.cpp:546-570 | with nothing failing, whenever all n handlers are idle each such row lies in 101..1000 * n |
| LossFreedom.CreditsFit | database/database.sql:59-63 | in every run, while the start and all restocks of a product fit a column, every credit on its way fits every row of the product |
| LossFreedom.NothingIsLost | database/inventoryDb.cpp:144-153 | in every interleaving without statement failures and with known destination rows, while all there ever was of a product fits a column, nothing of it is lost |
| OrderPass.DriveIsRun | src/server/server.cpp:311-395 | a pass alone, from any state, is a run of the machine |
| OrderPass.MachineDoesPass | src/server/server.cpp:484-571 | the machine driven alone does what the code of a pass does on both protocols, whatever statement fails and whatever reply is lost |
| OrderPass.PassIsTransfer | src/server/server.cpp:330-395 | alone and without faults a pass is one transfer and one top-up; it succeeds exactly when the order is admissible, the source holds enough and the destination can take it, and it crashes exactly on an unknown product or an unreadable number of a warehouse order |
| OrderPass.SoloRunIsTransfer | src/server/server.cpp:311-395 | the same of the machine from any state: receiving an order and carrying it through while the others stand still is one transfer and one top-up, and moves nothing else |
| OrderPass.RejectedOrderOnlyTopsUp | src/server/server.cpp:373-395 | the machine alone confirms nothing for a rejected order and changes nothing but a top-up of its own warehouse row |
| OrderPass.TransferIsAtomicIff | database/inventoryDb.cpp:122-161 | for every fault, `realTimeUpdate` between rows keeps the product's total exactly when there is no debit, or the credit statement succeeds and the destination can take the goods; it reports success exactly when both take place |
| OrderPass.TransferLosesGoods | database/inventoryDb.cpp:144-153 | admissible, available orders whose goods leave the source and arrive nowhere: to a hub without a row, and on a failed credit statement |
| OrderPass.UdpIgnoresLostReplies | src/server/server.cpp:330-395 | on UDP a lost reply changes nothing: a pass reaches its end exactly when it does not crash |
| OrderPass.PassCompletesUnlessLost | src/server/server.cpp:330-395 | on both protocols, whatever statement fails, while no reply is lost a pass reaches its end exactly when it does not crash |
| OrderPass.TcpPassCompletesIff | src/server/server.cpp:503-575 | for all faults and losses, a TCP pass reaches `processMessage` exactly when it does not crash and each of the five replies, where it is written, gets through |
| OrderPass.TcpPassStopsAtLostReply | src/server/server.cpp:503-557 | what is done when a reply is lost: nothing after a lost rejection, the transfer without the top-up after a lost success or alert, and no crash the pass does not come to |
| StockChecks.ProductInStock | src/common/anomalieHandler.cpp:3-97 | the check decides as the pipeline's predicate does, on one read of the source row |
| OrderFields.CheckByField | src/common/anomalieHandler.cpp:14-96 | the stock check passes exactly when the row of the source, in its own table and at its own location, holds the quantity, for a named product and a positive quantity |
| OrderFields.CheckOfIncomplete | src/common/anomalieHandler.cpp:14-60 | an order without a source location or a product is never found in stock |
| OrderFields.LevelsByField | src/common/lowStockChecker.cpp:3-73 | both stock-level checks by the order's fields: only the warehouse row of the source, alert at 200 or less, filled to 1000 at 100 or less, the result of each, for every fault |
| OrderFields.ConversionFailsIff | src/common/lowStockChecker.cpp:3-20 | the conversion ends the process exactly for warehouse orders without a location or a readable product id |
| StockChecks.CheckLowStockAlert | src/common/lowStockChecker.cpp:3-31 | raises the alert exactly for a readable warehouse row at 200 or less and crashes exactly on an unreadable number |
| StockChecks.ReStock | src/common/lowStockChecker.cpp:33-73 | in place, tops up or leaves the row, returns as the code does, and rewrites the alert exactly when the row changed |
| StockChecks.ReStockReportsTruthIff | include/common/lowStockChecker.hpp:32-45 | the documented meaning of the result holds exactly when the row read is not above the threshold |
| OrderServer.Connection.HandleMessage | src/server/server.cpp:285-401 | one turn of either loop moves tables, log, clients and flags as the session does, the UDP announcement of a client included, and says exactly which messages reach `processMessage`; `ServerRefinement.LoopIsRun` and `LoopStoresOrders` tie the session to the machine and to the log |
| OrderServer.Connection.HandleOrder | src/server/server.cpp:311-395 | the pipeline in place refines the pass, with the flags the loop carries over, and completes exactly as `OrderPass.TcpPassCompletesIff` and `OrderPass.UdpIgnoresLostReplies` say |
| OrderServer.Connection.Serve | src/server/server.cpp:285-401 | the loop over all messages, announcements included, up to a crash |
| OrderServer.HandleTcpClient | src/server/server.cpp:426-577 | a TCP client from its announcement through its loop to the erasure of its entry; a run of the machine by `ServerRefinement.SessionIsRun` |
| OrderServer.SessionKeepsClientsIff | src/server/server.cpp:449-472 | a TCP client that comes and goes leaves the registered clients as they were exactly when its process id was free |
| OrderServer.WarehousesStayStocked | src/server/server.cpp:354-386 | with the UDP loop alone and no failed statement, every warehouse row named by a parsed order lies in 101..1000 between messages and the others are untouched |
| OrderServer.LastOrderDecidesCommands | src/server/server.cpp:397-400 | on the UDP loop a command is processed exactly when the last parsed order, of whichever client, was accepted and in stock |
| ServerRefinement.LoopIsRun | src/server/server.cpp:285-401 | from any state, on both protocols, for every fault, lost reply and crash: the loop over any messages ends with the tables, log, report and process of the machine's run on the same messages, and moves no other handler |
| ServerRefinement.LoopStoresOrders | src/server/server.cpp:311-313 | on both protocols the log after the loop is the log before it and then every order text, valid or not, in order of arrival, on TCP those whose acknowledgement was written; report and log keep agreeing |
| ServerRefinement.SessionIsRun | src/server/server.cpp:426-577 | a TCP client from first message to last is a run of the machine, and it stores every acknowledged order text it sent |
| ServerRefinement.SessionIsHistory | src/server/server.cpp:449-472 | to the registry a TCP client is one registration and, unless the process ends first, one disconnection |
| ServerRefinement.OrderSetsFlags | src/server/server.cpp:503-525 | the flags after a parsed order are the verdicts of validation and of the stock check, except that a lost rejection on TCP keeps the old stock flag |
| ServerRefinement.UdpLoopRegisters | src/server/server.cpp:296-302 | the clients of the UDP loop are those of the history of its announcements |
| ServerRefinement.AnnouncedClientIsFound | src/server/server.cpp:296-302 | a new process id announced on UDP, while ids last, is found under the next id with its process id, address and time, then and after any further messages |
| ClientRegistry.RegistrationIsFound | src/server/server.cpp:113-161 | a registration succeeds exactly for a new process id while ids last; it then adds that one client, found under its id; the counter moves even when the ids are used up, and the other protocol is not involved |
| ClientRegistry.RunsStayHealthy | src/server/server.cpp:113-178 | over all histories process ids and ids are unique per protocol, and ids lie in 1..10000 below the counter |
| ClientRegistry.IdsIncrease | src/server/server.cpp:131-138 | ids are issued in strictly increasing order, none twice |
| ClientRegistry.RegistrationsAreBounded | src/server/server.cpp:131-138 | at most 10000 registrations per protocol ever succeed |
| ClientRegistry.LookupFollowsRegistration | src/server/server.cpp:43-69 | the scan finds a registered entry until an operation erases it, and nothing under its id ever after |
| ClientRegistry.EntryLivesUntilCloseIff | src/server/server.cpp:461-472 | while its own connection is open a TCP client is found exactly as long as no other connection that announced its process id has closed |
| ClientRegistry.LastSeenIsRegistration | src/server/server.cpp:147-156 | in every history `last_seen` is the time of the registration |
| ClientRegistry.CleanupRemovesSilentIff | include/server/server.hpp:211-215 | over all histories in time order, a cleanup removes exactly the clients silent for longer than the timeout if and only if no client registered longer ago than that was heard from within it |
| ClientRegistry.ActiveClientIsRemoved | src/server/main.cpp:22-28 | a client heard 2 seconds ago is removed by the periodic cleanup |
| ClientRegistry.RejectedConnectionEvictsOwner | src/server/server.cpp:461-472 | a turned-down duplicate connection erases the first one's entry when it closes |
| ClientRegistry.ClientMaps.RegisterClient | src/server/server.cpp:113-161 | in place, the registration and the id it returns |
| ClientRegistry.ClientMaps.FindClientById | src/server/server.cpp:43-69 | the linear scan finds the first entry with the id |
| ClientRegistry.ClientMaps.CleanupInactiveUdpClients | src/server/server.cpp:163-178 | the erase-while-iterating loop ends and leaves exactly the unexpired entries, unchanged and in order |
| ClientRegistry.ClientMaps.EraseTcpClient | src/server/server.cpp:466-470 | in place, the erasure on disconnection |

## Left out

- Sockets, threads, accept, read and write, logging: a message is an input, a lost reply a flag.
- JSON text: `errorHandler` and `alertHandler` only build strings; wrongly typed fields, which throw, are not modelled.
- The MySQL driver beyond atomic statements: a statement that commits and is then reported as failed is not modelled.
- Forwarding of messages between clients and the text of lists and reports: no state behind them.
- The client program, the menu, the user database and authentication: no shared state with the order engine.
- Memory-level data races on the registry maps and counters, and overflow of the id counters after 2^31 attempts.
- OrderStorage.Record: totals are unbounded integers, because signed overflow has no defined result; `OrderStorage.OverflowShowsInTotal` says when it stays away.
- ClientRegistry.ClientMaps.FindClientById: the upper-casing of the protocol name is not modelled, because protocols are an enumeration.
