# A model of the resourcerver message bus

The server of this repository passes commands between client programs, and forwarder clients pass them on to other
servers. This project models the parts of it that decide something, and proves what they promise. It is written in
Dafny 4.11; `dafny verify dfyconfig.toml` checks all of it.

| files | what they model |
|---|---|
| `Text`, `Conversion`, `ServerScope` | route addresses: the string functions as they are, and the hop lists they mean |
| `LabelCheck` | the one-pass check of addresses, and the grammar it accepts |
| `RouteProtocol` | the addressing fields of a command, and whole journeys over a network of forwarders |
| `ExecuteQueue` | the 8-ary heap that orders commands by an ageing priority |
| `Entities`, `Pipeline`, `Accounting`, `Versions`, `Service`, `Fairness`, `BoundedWait`, `Conduct` | the life of commands as atomic steps, and what every run keeps |
| `LoadControl` | the feedback law that sizes a batch |
| `Server` | the server as it runs, every change of which is a step of `Pipeline` |
| `Permissions`, `Registration`, `Registry` | clients, services, monitors, their names, masks and notices |
| `ConfigParser`, `Reader`, `LineCuts`, `ParserRoundTrip`, `CutFailures`, `WrittenLines`, `WordLines`, `LineBreaks` | the configuration line parser over several calls |
| `DelimSplit` | splitting an argument at the delimiter it starts with |
| `Timing` | timing tables: calculating a change in place, and what it compiles to |

**How it is built.** Code that changes things step by step is a method, and where the state is an object's or a file's
static data, a method of a class with those fields. Each method is proved against a specification function or says
outright what it does; the lemmas are about those functions. `Server.CommandServer` carries the run so far as ghost
state and proves that each of its changes extends a run of `Pipeline`, so that everything proved about runs holds of it.
The outside world (what a receiver's pipe answers, what a permission rule says, when a clock is read, whether a
process can be connected to) is a parameter, or an arbitrary value of the right kind.

**Where the code and its documentation differ, the model follows the code.**

- A failed execution makes `internal_execute` drop one more command than the one that failed, because `execute_single`
  has taken the failed one off already (`libs/server/execute-thread.cpp:531`). `Service.LivingLostExactly` says exactly
  when an innocent command is lost. For the same reason a client's account is an upper bound on its commands.
- `insert_existing_scope` stops at a segment that names no client; `LabelCheck.AcceptedIsComplete` shows that no label
  that passes both checks has one.
- `check_address_label` does not see a `?` at the start as a separator, because its address starts at 0 and 0 also means
  that there is none; `LabelCheck.ScanIsShape` states what is accepted in consequence.
- `set_to_server_scope` leaves the last connection bare where its comment shows a `/` in front, and loses the whole last
  hop when that connection has no name (`ServerScope.ToServerExact`); `ServerScope.ToServerIdempotent` says for
  which addresses a second call changes nothing.
- `libs/server/local-include/priority-adjust.hpp:53` expects commands of equal value to be served in order. The heap
  replaces its first element by its last, so that four of them come out as the first, third, second and fourth
  (`ExecuteQueue.FourEqualsOutOfOrder`, `ExecuteQueue.RisingOutOfOrder`); `ExecuteQueue.EqualsInOrderIff` says that the
  order is kept for three at most.
- With a load of exactly 8192 on two calls in a row the quotient of the controller is infinite and is multiplied by zero,
  and the fraction of the load stays a NaN from then on (`LoadControl.Controller.CalculateExecution`).
- The configuration parser looks for a leading `!` in a continued quotation as well. If failures are checked and no
  argument is complete, it takes the mark away and forgets the quotation (`LineCuts.ExclamationMarkLosesQuotation`,
  `CutFailures.ExclamationCutIsNeverLoaded`).
- With substitution off, a back-quoted text that is continued on the next line is held as that of a command, and lost to
  the argument (`CutFailures.BackQuoteCutLosesText`).
- A command that fails where a continued quotation closes leaves the note that a line continues, which it does not when
  the quotation is on one line. `LineCuts.FailureNote` says exactly when the note is left; then the arguments before the
  command are taken into the next line (`CutFailures.FailedCommandLeaks`, `CutFailures.FailedCommandLeaksArgument`).
- An exclamation mark within the first argument is taken away as well, if failures are checked and it stands behind an
  escape or at the start of the next line (`LineBreaks.MarkIsTakenBehindEscape`, `LineBreaks.MarkIsTakenFromNextLine`).
- A blank line after one that continues outside quotations is loaded, but leaves the note that a line continues and clears
  nothing: the old arguments come back with the next line, the last one twice (`LineBreaks.BlankLineLeaks`,
  `LineBreaks.ArgumentComesBack`).
- The change to the terminal wait goes to the terminate wait (`libs/protocol/api-timing.cpp:165`);
  `Timing.TerminalWaitIsMisplaced` says what becomes of both.
- The server's two times for registering everything are calculated under the scale of its table
  (`libs/protocol/api-timing.cpp:189-193`) and compiled under that of its input group (364-374);
  `Timing.RegisterAllMet` says exactly when a requested value is met all the same.
- `add_exit_monitor` refuses a client when any other client already watches the same client and name.

## Model

| member | source | states |
|---|---|---|
| `Text.SplitJoin` | libs/protocol/conversion.cpp:222-249 | joining separator-free pieces and cutting the text again gives the pieces |
| `Text.JoinSplit` | libs/protocol/conversion.cpp:222-249 | cutting any text and joining the pieces gives the text |
| `Conversion.NextClientScope` | libs/protocol/conversion.cpp:80-107 | cuts the next client off an address; without a separator the client is empty and the address stays |
| `Conversion.NextAddressScope` | libs/protocol/conversion.cpp:110-125 | what is left of an address behind its first hop |
| `Conversion.CopyNextScope` | libs/protocol/conversion.cpp:128-139 | the first hop of an address, which is not changed |
| `Conversion.InsertRemoteAddress` | libs/protocol/conversion.cpp:187-194 | a connection goes in front of an address, with a separator only if there is one already |
| `Conversion.InsertRemoteClient` | libs/protocol/conversion.cpp:197-203 | the address goes behind the client's name so that whoever peels the result next gets back both the name and the address |
| `Conversion.InsertSeparateScope` | libs/protocol/conversion.cpp:206-215 | a client and a connection become the next hop, and the old recipient moves into the address |
| `Conversion.PrependExistingScope` | libs/protocol/conversion.cpp:218-219 | a service location goes in front of an address |
| `Conversion.PushSegments` | libs/protocol/conversion.cpp:225-230 | the draining loop leaves the pieces of the scope from the last to the first |
| `Conversion.InsertExistingScope` | libs/protocol/conversion.cpp:222-249 | the loops insert the segments from last to first, up to one that names no client |
| `Conversion.SetToServerScope` | libs/protocol/conversion.cpp:252-287 | the loop rebuilds the address with the recipient cut off its last segment, and skips empty segments |
| `Conversion.RoutePeels` | libs/protocol/conversion.cpp:80-139 | forwarding over the first hop of a route reads its connection and leaves exactly the route of the other hops |
| `Conversion.RouteInjective` | libs/protocol/conversion.cpp:206-215 | different hop lists or recipients have different addresses |
| `Conversion.InsertBuildsRoute` | libs/protocol/conversion.cpp:222-249 | inserting a written scope puts exactly its hops, in the order written, before those already there |
| `Conversion.InsertComposes` | libs/protocol/conversion.cpp:206-249 | for all strings: inserting the joined scope once is inserting the inner and then the outer one if every segment of the inner one names a client, and otherwise stops where the inner one stops |
| `Conversion.InsertTwice` | libs/protocol/conversion.cpp:222-249 | for well-formed scopes and any starting target, two insertions are one insertion of both |
| `ServerScope.ToServerExact` | libs/protocol/conversion.cpp:252-287 | with a named last connection the hops stay and the command goes to the server behind them; otherwise exactly the last hop is lost |
| `ServerScope.ServerRoutePeels` | libs/protocol/conversion.cpp:80-139 | a command for a server keeps to the hops, and each leaves it addressed to the rest of them |
| `ServerScope.ToServerIdempotent` | libs/protocol/conversion.cpp:252-287 | retargeting to the server twice is retargeting once, if and only if there is no hop, the last connection has a name, or the only hop names neither forwarder nor connection |
| `ServerScope.CompareOriginalServers` | libs/client/api-remote-service.cpp:94-106 | true exactly if both clients have the same server address after retargeting, which makes it an equivalence |
| `ServerScope.SameServerIffSameHops` | libs/client/api-remote-service.cpp:94-106 | for all routes, named or not: two clients compare as behind the same server exactly if the same hops lead to both, or each has no hop or only one without any names |
| `ServerScope.NowhereExact` | libs/protocol/conversion.cpp:252-287 | the only addresses that become those of the server at hand are no hop at all, and one that names neither forwarder nor connection |
| `LabelCheck.EntityLabelIsClean` | libs/protocol/api-label-check.cpp:52-98 | a name that passes the check holds neither separator |
| `LabelCheck.CheckEntityLabel` | libs/protocol/api-label-check.cpp:92-98 | accepts exactly the names of limited length without forbidden characters |
| `LabelCheck.CheckAddressLabel` | libs/protocol/api-label-check.cpp:101-136 | the character loop accepts exactly what the automaton over positions accepts |
| `LabelCheck.CheckNextToClient` | libs/protocol/api-label-check.cpp:156-171 | true exactly if the address is empty or its first separator is a client separator |
| `LabelCheck.ScanIsShape` | libs/protocol/api-label-check.cpp:101-136 | the automaton accepts exactly the texts of a grammar: a bare name, or client-and-connection segments with connections of limited length, and the texts with a leading separator it overlooks |
| `LabelCheck.AcceptedIsComplete` | libs/protocol/conversion.cpp:229-246 | a scope that passes both checks is inserted in full: the early end of the insertion loop is never taken |
| `LabelCheck.AcceptedIsRoute` | libs/protocol/api-label-check.cpp:101-171 | a non-empty scope that passes both checks is the text of a hop list with clean names, all of which are inserted; all but scopes whose first segment has an overlooked separator and another one |
| `LabelCheck.AcceptedIsRouteIff` | libs/protocol/api-label-check.cpp:101-171 | that exception is exact: such a scope is the text of no hop list |
| `RouteProtocol.CommandTransmit.constructor` | libs/client/api-command-queue.cpp:682-724 | a new command comes from its sender with no return address and goes to a local client |
| `RouteProtocol.CommandTransmit.InsertRemoteCommand` | libs/client/api-command-queue.cpp:448-482 | on receipt the used hop leaves the target and a hop back to the sending side joins the origin; a bad connection name is refused |
| `RouteProtocol.CommandTransmit.InsertRemoteScope` | libs/client/command-queue.cpp:173-199 | the scope is inserted unless the command is a copy, local or a response, which stay as they are |
| `RouteProtocol.CommandTransmit.InsertRemoteAddress` | libs/client/api-command-queue.cpp:639-644 | an empty target changes nothing and succeeds; otherwise exactly a checked scope is inserted |
| `RouteProtocol.CommandTransmit.InsertRemoteTarget` | libs/client/api-command-queue.cpp:647-655 | one checked client and connection become the next hop, nothing else of the address changes |
| `RouteProtocol.CommandTransmit.SetTargetToServerOf` | libs/client/api-command-queue.cpp:668-674 | the command goes to the server of a checked client address |
| `RouteProtocol.CommandTransmit.RegisterRemote` | libs/client/api-message-queue.cpp:601-647 | there is a copy exactly if the message may be forwarded, forwarding is not blocked and the copy can be queued; it is addressed to the next client and may not be addressed again |
| `RouteProtocol.CommandTransmit.NextRemoteAddress` | libs/client/command-queue.cpp:248-268 | the connection to send out on, for copies only |
| `RouteProtocol.CommandTransmit.CopyMessageResponse` | libs/client/api-message-queue.cpp:456-479 | a reply goes to the origin of the message and comes from its target |
| `RouteProtocol.TravelIsPath` | libs/client/api-message-queue.cpp:606-640 | a journey that arrives is a walk over existing links from the first server to the last |
| `RouteProtocol.OriginAccumulates` | libs/client/api-command-queue.cpp:466-474 | over any journey the origin becomes exactly the route of the reversed walk followed by what it was before |
| `RouteProtocol.RouteConsumed` | libs/protocol/conversion.cpp:222-249 | a route of any number of hops is used up in order over exactly the listed links, and the command ends at the final client with an empty address |
| `RouteProtocol.ServerRouteConsumed` | libs/protocol/conversion.cpp:252-287 | a command for a server follows the links and arrives addressed to that server exactly if the last connection has a name; otherwise it stops before the last link |
| `RouteProtocol.WayBackIsPath` | libs/client/api-message-queue.cpp:456-479 | the links from the far side, in reverse, lead back to the server of the sender |
| `RouteProtocol.ReplyRetracesRoute` | libs/client/api-message-queue.cpp:456-479 | whatever a command was addressed to, the reply to it goes back over the same links in reverse, ends at the sender with an empty address, and carries the route of the command as its origin |
| `RouteProtocol.RoundTrip` | libs/client/api-command-queue.cpp:639-644 | from the text of a scope to the reply: out over exactly the listed hops and back over them |
| `ExecuteQueue.ValueIsRank` | libs/server/api-server.cpp:483-488 | the dynamic priority of a command is a rank of its own less a term that all commands share |
| `ExecuteQueue.OrderIgnoresCounter` | libs/server/local-include/priority-adjust.hpp:50-57 | two commands compare the same way for every value of the ageing counter: priority and penalty count alike, against the factor for each command queued in between |
| `ExecuteQueue.RootIsMinimal` | libs/server/local-include/execute-queue.hpp:57-60 | in a heap the root comes before every command, by the priority at any time |
| `ExecuteQueue.LiftedIsHeap` | libs/server/local-include/execute-queue.hpp:191-209 | rising restores a heap in which one element may be better than its parent |
| `ExecuteQueue.SunkIsHeap` | libs/server/local-include/execute-queue.hpp:154-189 | sinking restores a heap in which one element may be worse than its children |
| `ExecuteQueue.BestChildIsBest` | libs/server/local-include/execute-queue.hpp:161-177 | no child of an element has a lower rank than the one the scan ends on |
| `ExecuteQueue.AddedKeeps` | libs/server/local-include/execute-queue.hpp:122-130 | adding an element adds that one and loses none |
| `ExecuteQueue.RestKeeps` | libs/server/local-include/execute-queue.hpp:111-119 | taking the first element loses that one and no other |
| `ExecuteQueue.Queue.Precedes` | libs/server/local-include/priority-adjust.hpp:50-57 | the comparison given to the queue is that of ranks, whatever the counter |
| `ExecuteQueue.Queue.SwitchElements` | libs/server/local-include/execute-queue.hpp:99-108 | two elements change places, the others stay |
| `ExecuteQueue.Queue.SiftUp` | libs/server/local-include/execute-queue.hpp:191-209 | the last element rises past exactly the parents that are worse; a heap but for that element becomes a heap, of the same elements |
| `ExecuteQueue.Queue.SiftDown` | libs/server/local-include/execute-queue.hpp:154-189 | the first element sinks below the best child while one is as good; a heap but for that element becomes a heap, of the same elements |
| `ExecuteQueue.Queue.BestChild` | libs/server/local-include/execute-queue.hpp:161-177 | the scan finds the last of the best children that are as good as the parent, or that there is none |
| `ExecuteQueue.Queue.InsertCommand` | libs/server/local-include/execute-queue.hpp:122-130 | adds one element and keeps the heap |
| `ExecuteQueue.Queue.TransferTopCommand` | libs/server/local-include/execute-queue.hpp:111-119 | takes off the first element, which no other comes before at the present counter, and leaves exactly what the heap leaves of the others; nothing if it is empty |
| `ExecuteQueue.Queue.RemoveCommands` | libs/server/local-include/execute-queue.hpp:133-147 | afterwards no queued command has the client's key; those that had it are otherwise as before, all others entirely, and nothing moves |
| `ExecuteQueue.DrainedByRank` | libs/server/local-include/execute-queue.hpp:111-119 | commands come out by rank, so that distinct ranks determine the order |
| `ExecuteQueue.QueuedIsHeap` | libs/server/local-include/execute-queue.hpp:122-130 | queueing commands one after the other makes a heap of exactly these commands |
| `ExecuteQueue.EqualsInOrderIff` | libs/server/local-include/priority-adjust.hpp:53-56 | distinct commands of equal rank come out in the order in which they were queued if and only if they are three at most |
| `ExecuteQueue.FourEqualsOutOfOrder` | libs/server/local-include/priority-adjust.hpp:53-56 | of four such commands the third comes out second |
| `ExecuteQueue.RisingOutOfOrder` | param.h:157-158 | four commands queued one after the other, each more urgent than the one before by one, are of equal rank under the factor the server starts with, and come out as the first, third, second and fourth |
| `LoadControl.SwingBounds` | libs/server/server-load.c:174-194 | the swing of the load is 0 exactly if it has not moved, and always below 1 |
| `LoadControl.SwingGrows` | libs/server/server-load.c:174-194 | the further the load has moved, the wider the swing, strictly |
| `LoadControl.SwingNeedsHeadroom` | libs/server/server-load.c:180-182 | the less headroom, the wider the swing, strictly |
| `LoadControl.SwingIsDamped` | libs/server/server-load.c:177-180 | the more was taken the last time, the narrower the swing, strictly |
| `LoadControl.SwingFades` | libs/server/server-load.c:177-180 | the more time has passed, the narrower the swing, strictly, if more than one command was taken |
| `LoadControl.EtaBounds` | libs/server/server-load.c:174-194 | the swing has the sign of the change, is none exactly without one, goes all the way exactly without headroom, and is no number exactly if the load stays there |
| `LoadControl.BlendedDistance` | libs/server/server-load.c:197-204 | the distance of the fraction to the wanted one shrinks by an exponential factor: strictly between old and wanted, and unmoved exactly if no time has passed, the load fell all the way, or nothing is to be moved |
| `LoadControl.BlendedCloser` | libs/server/server-load.c:200-204 | the more time has passed, the closer to the wanted fraction, strictly |
| `LoadControl.BlendedFacts` | libs/server/server-load.c:197-204 | a steady fraction stays between 0 and twice the center, and rises and falls with the load |
| `LoadControl.Controller.constructor` | libs/server/server-load.c:91-107 | starts with the center fraction and empty totals |
| `LoadControl.Controller.EtaLoad` | libs/server/server-load.c:174-194 | computes the swing that the lemmas above are about, without a number where the quotient is infinite times zero |
| `LoadControl.Controller.Blend` | libs/server/server-load.c:197-204 | computes the fraction that the lemmas above are about |
| `LoadControl.Controller.Portion` | libs/server/server-load.c:206-212 | the batch is the fraction of the load, less than one below it, wherever that is the floor at least; below, it is the floor, or all there is |
| `LoadControl.Controller.Measure` | libs/server/server-load.c:144-153 | what was added since the last call is the change of load plus what was taken |
| `LoadControl.Controller.Settle` | libs/server/server-load.c:206-243 | the batch is that portion, and is added to what was taken so far |
| `LoadControl.Controller.CalculateExecution` | libs/server/server-load.c:110-244 | over any sequence of calls the new fraction is the old one moved towards the wanted one by the law above, strictly up and down with the load, and the batch is that fraction of the load to within one; the totals always balance, and a NaN stays exactly once it came up |
| `Accounting.ExecuteShape` | libs/server/execute-thread.cpp:465-535 | an execution takes the front off the cache and puts at most one version of it back into the queue, for any way of counting commands |
| `Accounting.ExecutePending` | libs/server/execute-thread.cpp:473-495 | what an execution does to the number of commands each client has waiting |
| `Accounting.StepKeepsInv` | libs/server/execute-thread.cpp:465-553 | every step keeps the accounts, the identity of commands and the bounds of their fields |
| `Accounting.AccountsAlwaysOk` | libs/server/local-client.cpp:263-282 | in every state of every run, the commands of each attached client in queue and cache are at most its account, which is at most the limit; and no command is held twice |
| `Versions.VersionsKept` | libs/server/client-list.cpp:1309-1342 | from its submission on, whatever is held under a command's start count has its priority, and its client or none |
| `Service.RemovedNeverServed` | libs/server/execute-thread.cpp:473-480 | of all the commands a client ever submitted, none is sent on or evaluated after the client was removed, whether it was queued or cached then; executing it changes no account and no queue |
| `Service.ServedAtMostOnce` | libs/server/execute-thread.cpp:465-519 | no command is handed over twice, however often it was put back |
| `Service.LivingLostExactly` | libs/server/execute-thread.cpp:522-535 | a command of an attached client is lost untried exactly if the execution before it fails and it is next in the cache |
| `Fairness.OvertakerIsClose` | libs/server/api-server.cpp:483-491 | a command passes over a waiting one only if it was submitted within the reach of that one's priority |
| `Fairness.Reach` | libs/server/api-server.cpp:483-491 | the greatest distance in submissions that ageing does not put out of reach |
| `Fairness.NoStarvation` | libs/server/client-list.cpp:1311-1328 | over any run, with penalties and batches, the distinct later commands that are transferred before a given one number at most (its priority + the greatest penalty) / the ageing factor |
| `Fairness.PassedOverAfter` | libs/server/api-server.cpp:1026-1047 | a command is passed over only after its submission, and only by commands within reach |
| `BoundedWait.TransfersBounded` | libs/server/client-list.cpp:1309-1342 | no command is transferred more than ten times in any run |
| `BoundedWait.WaitIsBounded` | libs/server/execute-thread.cpp:540-553 | from its submission on, in any run, a command is passed over at most ten times for each command held then and each later one within reach |
| `Server.ExecuteLightens` | libs/server/execute-thread.cpp:522-535 | every execution strictly lowers the total weight of the commands held, through busy requeue and reparse |
| `Server.TransferKeepsWeight` | libs/server/execute-thread.cpp:550 | moving a command to the cache keeps the total weight |
| `Server.CommandServer.constructor` | libs/server/execute-thread.cpp:460-462 | the server starts in the initial state of a run |
| `Server.CommandServer.AddClient` | libs/server/client-list.cpp:755-767 | a client is attached under a handle that was never used, as a step of the run |
| `Server.CommandServer.MonitorResponse` | libs/server/local-client.cpp:217-293 | the client is turned away exactly if its errors or invalid commands are at their limit; otherwise a command is accepted exactly if client and queue have room, and costs an error and a retry if not |
| `Server.CommandServer.QueueClientCommand` | libs/server/api-server.cpp:1026-1047 | a command joins a queue that is not full, and the counter goes up by one; a full queue and the counter stay |
| `Server.CommandServer.RemoveLocalClient` | libs/server/api-server.cpp:1155-1175 | exactly that client is detached and no queued command is known as its own any more, as a step of the run |
| `Server.CommandServer.DecrementClientWaiting` | libs/server/client-list.cpp:983-994 | lowers the account of an attached client, not below zero, and reports a client that is gone |
| `Server.CommandServer.SendCommand` | libs/server/client-list.cpp:1044-1351 | accounts, penalty and requeueing for every outcome of sending a command on |
| `Server.CommandServer.EvaluateCommand` | libs/server/api-server.cpp:1091-1147 | accounts, created and terminated clients for every outcome of a command for the server |
| `Server.CommandServer.ExecuteSingle` | libs/server/execute-thread.cpp:465-519 | one execution is the specified one, up to the order of the queue |
| `Server.CommandServer.ExecuteAndDrop` | libs/server/execute-thread.cpp:529-533 | one turn with the further drop after a failure |
| `Server.CommandServer.ExecuteTurn` | libs/server/execute-thread.cpp:524-534 | one turn is one execution step of the run, of the front of the cache, and lowers the weight; the exit flag goes on exactly if that command takes the server down |
| `Server.CommandServer.AnyVerdict` | libs/server/client-list.cpp:1044-1351 | an outcome that the command at the front can have |
| `Server.CommandServer.InternalExecute` | libs/server/execute-thread.cpp:522-535 | the loop adds only executions to the run and ends; the cache is empty unless the exit flag is on, which it is exactly if it was before or one of these executions takes the server down, after which none follows |
| `Server.CommandServer.ServerExecuteNext` | libs/server/execute-thread.cpp:540-553 | exactly as many commands as the controller says, at least one, move from a non-empty queue to the cache, best first, each as a step of the run, and nothing else happens |
| `Server.CommandServer.TransferNext` | libs/server/execute-thread.cpp:545-552 | one turn of that loop is one transfer of the run, to the end of the cache |
| `Server.CommandServer.ExecuteWaiting` | libs/server/execute-thread.cpp:629-633 | with no new arrivals the nested loops end, adding only transfers and executions to the run; queue and cache are empty unless the exit flag is on, which it is exactly if it was before (then nothing happens) or an execution took the server down (then none follows) |
| `Conduct.StepRecorded` | libs/server/client-list.cpp:1068-1348 | what every step does to the errors, invalid commands and waiting commands of a client that stays: which verdicts charge, credit or count, by one each, and that nothing else does |
| `Conduct.StepAttaches` | libs/server/api-server.cpp:1091-1147 | who is attached after a step, exactly, and that newcomers have a clean record |
| `Conduct.InvalidIsTally` | libs/server/client-list.cpp:1179-1293 | over any run, a client's invalid commands are those it had plus the refused ones that count |
| `Conduct.CreditsLower` | libs/server/client-list.cpp:1346-1348 | over any run without charges, n commands delivered or evaluated lower the errors by n, down to none |
| `Conduct.ErrorsBounded` | libs/server/client-list.cpp:1068-1348 | over any run, the errors are at most those before plus the charges, and at least that less the credits |
| `Conduct.GoodConductIsHeard` | libs/server/local-client.cpp:217-219 | a client with fewer charges and invalid commands since it came than the limits is not turned away |
| `Registration.Attempted` | libs/server/client-list.cpp:796-949 | when a registration succeeds, what the record becomes, when a notice is sent and when the right to send it is kept; never both |
| `Registration.ControlNeedsPermission` | libs/server/client-list.cpp:888-917 | no registration gives a client control of the server that its permissions do not hold |
| `Registration.GrantedExactly` | libs/server/client-list.cpp:886-917 | an admitted client is of exactly the type it asked for as far as its permissions go, and known as detached if it is; every kind of client asked for is granted, but monitoring where it is given up; control is kept exactly if it is permitted |
| `Registration.ResourceClientIsGranted` | libs/server/client-list.cpp:917 | whoever is admitted as a resource client is one |
| `Registration.AdmittedExactly` | libs/server/client-list.cpp:821-883 | admission flag by flag: permitted kinds, monitoring given up, names required and denied, no second registration |
| `Registration.NoticeExactly` | libs/server/client-list.cpp:821-940 | when success or failure is told, when a client stays new, and when the right to be told is kept for later |
| `Registry.Server.constructor` | libs/server/api-server.cpp:431-448 | the tables start empty and in order |
| `Registry.Server.AddElement` | libs/server/client-list.cpp:755-767 | a new record with no name and no type keeps the tables in order and is noted with its creator |
| `Registry.Server.StartNewClient` | libs/server/client-list.cpp:464-516 | a record is entered exactly if the process starts, with masks within those of whoever asked; otherwise nothing changes |
| `Registry.Server.CreateOwnClient` | libs/server/api-server.cpp:974-1020 | the server may start a client of its own beyond the limit, with the masks of the server; a failure changes nothing but takes the server down for a critical client |
| `Registry.Server.CreateClient` | libs/server/api-server.cpp:1401-1434 | exactly an administrator gets a new client, while there is room and if it starts, with masks cut down to what it may hand on, what the server allows and what it has |
| `Registry.Server.ConnectDetachedClient` | libs/server/api-server.cpp:1473-1502 | exactly a controlling administrator that may hand on detachment gets a detached client, which can hand on nothing |
| `Registry.Server.ScreenRequest` | libs/server/client-list.cpp:821-885 | a registration is refused exactly if it is not allowed, and reported unless it is a deregistration |
| `Registry.Server.GrantType` | libs/server/client-list.cpp:888-917 | the type granted, within the permissions of the client |
| `Registry.Server.SetRegisteredClientType` | libs/server/client-list.cpp:796-949 | the record, the notice and the answer are those of the attempt |
| `Registry.Server.RegisterClient` | libs/server/api-server.cpp:1319-1336 | a bad or taken name changes nothing; otherwise monitoring and services are dropped before the attempt, even if it fails, and names stay distinct across both tables; whoever is admitted as a resource client may then register services |
| `Registry.Server.DropOwn` | libs/server/api-server.cpp:1328-1333 | the client keeps no service, and nobody else loses one |
| `Registry.Server.Reregister` | libs/server/client-list.cpp:796-949 | the attempt keeps names, owners, masks and notices in order |
| `Registry.Server.IndicateReady` | libs/server/client-list.cpp:953-980 | the right to notify is used up and the client is no longer new |
| `Registry.Server.RegisterService` | libs/server/api-server.cpp:1343-1369 | exactly a resource client with good labels and a free name gets a service while there is room |
| `Registry.Server.DeregisterOwnService` | libs/server/api-server.cpp:1372-1377 | exactly the services of that owner and name go |
| `Registry.Server.DeregisterAllOwnServices` | libs/server/api-server.cpp:1380-1385 | exactly the services of that owner go |
| `Registry.Server.DeregisterRemoteServices` | libs/server/service-list.cpp:155-202 | exactly the services of that owner behind that location go |
| `Registry.LocatedBehindFirstHop` | libs/server/service-list.cpp:155-161 | a service is found under what its address says behind the first hop, and under nothing if that is all |
| `Registry.Server.SetMonitorTypes` | libs/server/monitor-list.cpp:110-130 | exactly a monitor client changes what it is told of, and no events takes it off the table |
| `Registry.Server.DeregisterMonitor` | libs/server/monitor-list.cpp:133-141 | a client watches nothing any more |
| `Registry.Server.FindWatchable` | libs/server/api-server.cpp:1606-1616 | finds the one resource client that answers to the name if nobody watches it under that name |
| `Registry.Server.MonitorDisconnect` | libs/server/api-server.cpp:1598-1617 | accepted if and only if the client has services, the name is neither empty nor its own, and a resource client answers to it that nobody watches under it; then exactly that monitor is added |
| `Registry.RemoveDetached` | libs/server/monitor-list.cpp:89-107 | the loop takes exactly the monitors of clients that are gone off the list, and keeps the order |
| `Registry.Server.CurrentExits` | libs/server/monitor-list.cpp:89-107 | the monitors concerned leave the list, and those of attached clients are told |
| `Registry.Server.SendExitUpdate` | libs/server/monitor-list.cpp:204-233 | exactly those that watch the client under that name, or any, are told and taken off the list; all of them are attached: the check for clients that are gone never finds one |
| `Registry.Server.RemoveClient` | libs/server/client-list.cpp:1354-1405 | record, services and monitoring go together, and the right to notify is used up; a critical client stays in the table and takes the server down |
| `Registry.Server.RemoveSingle` | libs/server/client-list.cpp:1402 | taking a record out of the table keeps names, owners, monitors, masks and notices in order |
| `Registry.Server.FindReceiver` | libs/server/client-list.cpp:1085-1108 | finds a receiver exactly if there is one; the second lookup of a service owner never fails |
| `Registry.Server.OneReceiver` | libs/server/client-list.cpp:1085-1108 | a name has one receiver at most across clients and services, and it is attached |
| `Registry.Server.PermissionsAttenuate` | libs/server/api-server.cpp:1428-1434 | no client has, may have, or can hand on what any of its ancestors could not hand on |
| `Registry.Server.ControlIsNotCreated` | libs/server/client-list.cpp:505-516 | no client that was created for another ever has control of the server |
| `Registry.AddKeepsNotices` | libs/server/client-list.cpp:505-516 | a new record has no notice sent and at most one to send |
| `Registry.ChangeKeepsNotices` | libs/server/client-list.cpp:807-949 | a change that sends a notice only for the right it uses up keeps notices at one at most |
| `Registry.RemoveKeepsRecords` | libs/server/client-list.cpp:1369-1402 | removing a record keeps notices at one at most and masks handed down |
| `Registry.Server.NotifiedAtMostOnce` | libs/server/client-list.cpp:807-949 | what the notices invariant, which every operation keeps by the lemmas above, means: at most one notice is sent about a client, and none is left to send after it |
| `ConfigParser.Turn` | libs/protocol/api-config-parser.cpp:302-523 | a turn that goes on never lengthens the line, and keeps its length only where the parser leaves a state it does not come back to, so that parsing ends |
| `ConfigParser.LineParser.constructor` | libs/protocol/api-config-parser.cpp:52-74 | the parser starts fresh |
| `ConfigParser.LineParser.LoadLine` | libs/protocol/api-config-parser.cpp:544-545 | a whole call, over the state that earlier calls left |
| `ConfigParser.LineParser.LoadLineFailCheck` | libs/protocol/api-config-parser.cpp:548-549 | a whole call that minds a leading exclamation mark |
| `ConfigParser.LineParser.LoadLineCommon` | libs/protocol/api-config-parser.cpp:269-537 | the main loop ends in the specified state with the specified status |
| `ConfigParser.LineParser.MainTurn` | libs/protocol/api-config-parser.cpp:302-523 | one turn of the loop |
| `ConfigParser.LineParser.SkipSpace` | libs/protocol/api-config-parser.cpp:302-308 | the erasing loop takes off exactly the leading whitespace, and notes it |
| `ConfigParser.LineParser.OpenQuote` | libs/protocol/api-config-parser.cpp:343-377 | a mark opens its quotation; a command begins a new argument |
| `ConfigParser.LineParser.ReadQuoted` | libs/protocol/api-config-parser.cpp:384-450 | the erase-in-place scan reads the text up to the closing mark, or stays open and asks for more |
| `ConfigParser.LineParser.EraseEscape` | libs/protocol/api-config-parser.cpp:388-405 | an escape at the end of the line, before a break or not, continues the line and is dropped |
| `ConfigParser.LineParser.CloseQuote` | libs/protocol/api-config-parser.cpp:413-437 | a closing mark before whitespace or the end completes the argument |
| `ConfigParser.LineParser.RunMeta` | libs/protocol/api-config-parser.cpp:453-458 | a completed command is run once; its failure ends the call |
| `ConfigParser.LineParser.ReadPlain` | libs/protocol/api-config-parser.cpp:463-521 | the scan of unquoted text stops at whitespace, marks, escapes, a comment or the end |
| `ConfigParser.LineParser.TakeEscape` | libs/protocol/api-config-parser.cpp:467-486 | an escaped character is text; an escaped line end continues the line |
| `ConfigParser.LineParser.TakeSpace` | libs/protocol/api-config-parser.cpp:487-494 | whitespace separates, and at the end of the line completes it |
| `Reader.QuotationExtends` | libs/protocol/api-config-parser.cpp:384-450 | a quotation that closes in a text closes there in every longer one, and one that is open is read on; a scan character by character finds it closed or open alike, and whether an argument has text |
| `Reader.PlainExtends` | libs/protocol/api-config-parser.cpp:463-510 | unquoted text before a cut in a quotation ends before the cut, and the scan goes on from there: a number sign opens a comment exactly where no text is held |
| `LineCuts.TurnExtends` | libs/protocol/api-config-parser.cpp:302-523 | a turn on a text and on a longer one go on alike, or fail alike, or the first stops in the quotation and the next call finishes the second |
| `LineCuts.RunExtends` | libs/protocol/api-config-parser.cpp:269-537 | the parser stops at a cut in a quotation and reads the rest as the whole line would be, or a command before the cut fails in both |
| `LineCuts.NeverBlank` | libs/protocol/api-config-parser.cpp:416 | the note that an argument is blank is never set by a call, so that no state has it |
| `LineCuts.FailureNote` | libs/protocol/api-config-parser.cpp:453-457 | a call fails and leaves the note that a line continues if and only if its line closes a continued back-quotation, with substitution on, and the command fails |
| `LineCuts.FeedIsLoad` | libs/protocol/api-config-parser.cpp:269-537 | any line fed in non-empty pieces that are cut in quotations, not after an escape, from any state that calls can leave, has the outcome of one call on the whole line, whatever its commands come to: every call but the last asks for more, and only a failed command ends the calls early. The final states are the same, but after a failed command for the note that a line continues, which is given exactly for both. Back-quotes may be cut while substitution is on, and a piece may start with an exclamation mark unless failures are checked and no argument is complete |
| `LineCuts.ExclamationMarkLosesQuotation` | libs/protocol/api-config-parser.cpp:334-341 | the parser goes on with a quotation exactly if failures are not checked, the line does not start with an exclamation mark or an argument is complete; otherwise the mark is taken and the quotation is forgotten |
| `LineCuts.BackQuoteTurn` | libs/protocol/api-config-parser.cpp:393-446 | without substitution a back-quotation is continued as if uncut exactly if there was nothing to hold or it is still not closed |
| `CutFailures.BackQuoteCutLosesText` | libs/protocol/api-config-parser.cpp:269-537 | without substitution, any line of arguments cut in a back-quoted one loses the text before the cut, which stays behind as that of a command; the whole line is read as written |
| `CutFailures.BackQuoteCutIff` | libs/protocol/api-config-parser.cpp:269-537 | such a cut is harmless if and only if there is no text before it |
| `CutFailures.ExclamationCutIsNeverLoaded` | libs/protocol/api-config-parser.cpp:334-377 | where failures are checked, a one-argument line cut before a final exclamation mark is never loaded: both calls ask for more, while the whole line is read as written |
| `CutFailures.FailedCommandLeaks` | libs/protocol/api-config-parser.cpp:271-283 | any line cut in the quotation of a command that fails: the calls on the pieces end in an error with the arguments before it held, and the next line is loaded together with them; after the same line in one call the next one is loaded alone |
| `CutFailures.FailedCommandLeaksArgument` | libs/protocol/api-config-parser.cpp:271-283 | an input where this happens: the next line's argument b is loaded as x and b |
| `ParserRoundTrip.QuotationCloses` | libs/protocol/api-config-parser.cpp:390-450 | a text with its marks and backslashes escaped is read back up to the closing mark |
| `ParserRoundTrip.ArgumentTurn` | libs/protocol/api-config-parser.cpp:305-467 | one turn reads one quoted argument |
| `ParserRoundTrip.RunArguments` | libs/protocol/api-config-parser.cpp:269-537 | quoted arguments are read one turn each, up to the rest of the line |
| `ParserRoundTrip.LoadPrinted` | libs/protocol/api-config-parser.cpp:269-537 | any list of arguments in any quotations is loaded from one line as exactly that list, whatever was parsed before |
| `ParserRoundTrip.FeedPrinted` | libs/protocol/api-config-parser.cpp:269-537 | the same when the line comes in pieces, every call but the last asking for more, whatever running a command would come to |
| `WrittenLines.TokensRead` | libs/protocol/api-config-parser.cpp:300-523 | plain and escaped characters, quotations, commands, whitespace and escaped breaks, in any order, bring the parser to what they say by a definition on the parts alone, from any state between parts |
| `WrittenLines.LoadWritten` | libs/protocol/api-config-parser.cpp:269-537 | any line of such parts is loaded as exactly the arguments and the status that it says, in which a number sign opens no comment and no command fails |
| `WrittenLines.CommentIsLoaded` | libs/protocol/api-config-parser.cpp:501-507 | so it is with a number sign and anything behind it, where no argument is at hand |
| `WordLines.LoadWords` | libs/protocol/api-config-parser.cpp:269-537 | arguments of any plain, escaped and quoted parts, with any whitespace around them, are loaded as exactly their texts |
| `WordLines.LoadCommented` | libs/protocol/api-config-parser.cpp:501-507 | a comment after whitespace changes nothing |
| `WordLines.LoadMarked` | libs/protocol/api-config-parser.cpp:334-341 | where failures are checked, a mark in front gives the same arguments of a line that may fail |
| `WordLines.LoadArguments` | libs/protocol/api-config-parser.cpp:269-537 | any list of arguments, each in quotes or as plain text with escapes, comes back from its line, with any whitespace between them |
| `LineBreaks.TwoLines` | libs/protocol/api-config-parser.cpp:467-486 | a line that ends in an escaped break asks for more, and with the next one is loaded as what both say together |
| `LineBreaks.TwoLinesInQuotes` | libs/protocol/api-config-parser.cpp:384-450 | so it is for a line that stops in a quotation, with an escaped break or without, of which nothing is text |
| `LineBreaks.NoteIsTakenBack` | libs/protocol/api-config-parser.cpp:343-377 | the note that a line continues makes no difference to a line with any text |
| `LineBreaks.MarkIsTakenBehindEscape` | libs/protocol/api-config-parser.cpp:334-341 | an input in which a mark within an argument is taken away, next to one in which it is kept |
| `LineBreaks.MarkIsTakenFromNextLine` | libs/protocol/api-config-parser.cpp:334-341 | an input in which it is taken from the continuing line |
| `LineBreaks.BlankLineLeaks` | libs/protocol/api-config-parser.cpp:310-316 | after a line that continues, a blank one is loaded without clearing anything: what the next line is loaded with, for every next line |
| `LineBreaks.ArgumentComesBack` | libs/protocol/api-config-parser.cpp:310-316 | an input where this happens: a, blank, c is loaded as a, a, c |
| `LineBreaks.NothingIsHeld` | libs/protocol/api-config-parser.cpp:271-283 | a call without a line is an error and clears the parser: whatever it held, the next line says what it says |
| `LineBreaks.FeedWritten` | libs/protocol/api-config-parser.cpp:269-537 | a line of any parts that comes in pieces, cut in its quotations, is loaded as what it says |
| `DelimSplit.EscapeCheck` | libs/protocol/api-config-parser.cpp:88-94 | true exactly if an odd run of backslashes ends at the position |
| `DelimSplit.AtDelimiter` | libs/protocol/api-config-parser.cpp:669-679 | at a delimiter a field ends, or a backslash is erased and the field goes on; with the fields to come, the complete ones remain all the fields |
| `DelimSplit.ArgumentDelimSplit` | libs/protocol/api-config-parser.cpp:660-692 | the loop that erases in place ends, and finds the specified fields; nothing for an empty argument |
| `DelimSplit.JoinOfFields` | libs/protocol/api-config-parser.cpp:660-692 | nothing is lost: the escaping join of the fields is the argument, for every argument |
| `DelimSplit.FieldsAreClean` | libs/protocol/api-config-parser.cpp:660-692 | in the fields, inner delimiters and ends that are not the last follow even runs of backslashes |
| `DelimSplit.FieldsComeBackIffClean` | libs/protocol/api-config-parser.cpp:660-692 | splitting the escaping join gives the fields back, if and only if inner delimiters and non-final ends follow even runs of backslashes |
| `DelimSplit.BackslashSplits` | libs/protocol/api-config-parser.cpp:660-692 | a backslash as delimiter is never escaped |
| `DelimSplit.FieldCount` | libs/protocol/api-config-parser.cpp:671-684 | one field more than there are unescaped delimiters |
| `Timing.RequestIsCompiled` | libs/protocol/api-timing.cpp:52-86 | a calculated request is accepted exactly if it is positive, and means the requested value exactly if the scale applies to it or is 1 |
| `Timing.ChangedExactly` | libs/protocol/api-timing.cpp:52-86 | which changes are accepted, and what value and mode each kind of them leaves |
| `Timing.ShortTimeIsFloor` | libs/protocol/api-timing.cpp:214-225 | a time that is not negative becomes seconds and nanoseconds below a second that together are its floor in nanoseconds |
| `Timing.ChangedTable` | libs/protocol/api-timing.cpp:144-178 | a change keeps the scales positive, even when it is refused half way |
| `Timing.ClientTimingTable.CalculateSpecs` | libs/protocol/api-timing.cpp:151-175 | the changes are made in order up to the first that is refused |
| `Timing.ClientTimingTable.CalculateGroup` | libs/protocol/api-timing.cpp:105-139 | a group takes its scale first and its specifications under the new scale |
| `Timing.ClientTimingTable.Calculate` | libs/protocol/api-timing.cpp:144-178 | a whole table, changed in place up to the first refusal |
| `Timing.ClientTimingTable.CompiledScale` | libs/protocol/api-timing.cpp:262-263 | the scale used for compiling a group is the one its changes were calculated under |
| `Timing.ChangedAt` | libs/protocol/api-timing.cpp:144-178 | if nothing is refused each change was made to the specification in its own place |
| `Timing.StopsAtRefusal` | libs/protocol/api-timing.cpp:144-178 | a refused change stops the others: those before it are made, and what is behind it stays as it was |
| `Timing.AcceptedIff` | libs/protocol/api-timing.cpp:105-139 | a group's changes are all made if and only if each is accepted for what it changes |
| `Timing.TableStops` | libs/protocol/api-timing.cpp:144-178 | a table keeps every part behind the one in which a change is refused |
| `Timing.RequestsMet` | libs/protocol/api-timing.cpp:144-178 | if nothing is refused every requested value is met exactly, for all positive nested scales, with or without recursion, all but the two waits |
| `Timing.LeavesAloneExact` | libs/protocol/api-timing.cpp:52-86 | for every kind of change, when an accepted one leaves a specification as it is |
| `Timing.SurvivesExact` | libs/protocol/api-timing.cpp:163-166 | for every kind of change, when a requested value survives another change to the same specification |
| `Timing.TerminalWaitIsMisplaced` | libs/protocol/api-timing.cpp:163-166 | the terminal wait never changes, so its change is made there exactly if it would leave it alone; the terminate wait stays as its own change made it exactly if the other leaves it alone, and a value requested for it survives exactly under a stated condition on the other change |
| `Timing.RegisterAllMet` | libs/protocol/api-timing.cpp:189-193 | a value requested for a time of registering everything is met exactly, if scaled, when the table's scale and the compiled one are equal (under a recursive table scale, when the input group's scale is 1), and if unscaled, when the table's scale is 1 |

## Left out

- Threads, locks, condition variables and cancellation: every operation is one atomic step, and the unsynchronised updates of counters are not modelled as races.
- Processes, pipes, sockets, signals, terminals, user and group checks, logging, monitor messages and environment variables: foreign calls whose outcome is a parameter or arbitrary.
- The wire format of commands, the list library, and allocation failures.
- Identity of records is a handle that is never used again, where the source uses addresses that can come back.
- The table of permissions in `send_client_command`: its outcome is one of the values of `Pipeline.Verdict`, and all of them are allowed for.
- Services with a location: a busy command has the location put in front of its address again (`libs/server/client-list.cpp:1163` and `1318`), so journeys are claimed for client names and services without a location.
- `is_next_server` and `only_last_address`, which no modelled code calls.
- Changing the limits on clients, services, waiting commands, errors and the queue while the server runs (`libs/server/api-server.cpp:847`): they have any values, which stay the same.
- The order in which commands of equal value come out of a heap that other commands go through as well.
- Wrap-around of the 64-bit ageing counter and of the 32-bit totals of the load controller.
- LoadControl.Controller.Portion: converting a NaN or a negative number to an unsigned integer is undefined in C, and is any number here.
- The fields of a profile point that are only printed, such as the rates per time.
- The registration state of the whole server (`register_notify_state`) and the primary service; `remove_exit_monitor` and removal by expression or process, which go through the modelled removal.
- Shutdown (`abort_all_clients`, `disconnect_all_clients`), which clears clients without services.
- Lines that command substitution adds to the configuration: a command succeeds or fails, and leaves no lines behind, so `merge_and_add` never has any.
- `convert_config_concat` and the cursor over the parsed arguments: easy members.
- Timing.RequestsMet: floating-point rounding is not modelled; the rest of the server's table, which uses the same functions in the same order, is left out.
- Strings that are NULL, or hold a NUL character.
- Plug-in command classes, filters, Python bindings and the label tables of timing queries.
