# A verified model of radlib's cores

This Dafny project models the parts of radlib and of its message router that carry the most state and arithmetic,
and proves what their design promises. Each part is stated as the code has it: in-place updates are methods over
memory, and every method is proved against a specification function whose own properties are proved as lemmas.

* **Text index** (`SearchText`, `RedBlack*`, `SearchNodes`, `InsertWalk`, `RemoveWalk`, `TextSearch`). A red-black
  tree without parent pointers, changed in one pass from the root down. A position in the tree is a zipper: the
  nodes above and the subtree at hand. `RedBlackInsert` explains the trailing pointers of the insert loop: after a
  rotation they are stale for one visit (single) or two (double), the subtree at hand is then known to have black
  children and black grandchildren, so that no violation can be met before they are right again. `RedBlackRemove`
  keeps a red node at or next to the walk. The heap modules prove that the pointer code computes exactly these
  steps; `TextSearch` states the result as operations on a finite map.
* **Message router** (`RouterTables`, `MsgRouter`, `RouterNet`, `RouterTree`, `RouterDelivery`, `RouterRuns`,
  `RouterQuiet`, `RouterLaws`, `RouterClients`). The tables and handlers of one router, what every request means
  for who consumes what and is sent what, then any number of routers joined by first-in first-out links that step
  in any order. Over every run a process is registered, consumes and is sent exactly what its own requests say.
  Each step from a covered state keeps interest covered unless a router that handles a DISABLE of message ID 0,
  from a process or from a link, withdraws from a linked router an ID it still needs from there: the code reads ID
  0 as "all IDs". So interest is covered in every state of a run if and only if no step of the run does that. The
  client library refuses ID 0 (src/radmsgRouter.c:366-370 and 429-433), so in the runs of its clients interest is
  always covered; a run that fails needs a process that writes to the daemon's queue directly. Two failing
  examples are proved: one at the router that handles the request, one a hop further on. In a settled tree of
  routers forwarding terminates, and a published message reaches every subscriber exactly once.
* **Buffer pool** (`BufferLayout`, `BufferPool`, `BufferCounts`, `BufferSteps`, `BufferRequests`). The layout of
  the shared segment, the free lists as chains of offsets in shared memory, and get and release cut into single
  memory steps run by any number of processes, with the lock taken and released and the in-use flag written
  outside it; what a process gets is right for the size it asked for, and calls end. How far the array of counts
  is read is exact: the library's default array of nine is long enough, an array of the documented eight
  (h/radsysdefs.h:119-124) need not be. The search for the smallest class never ends for a negative size.
* **Hashes** (`Fips180`, `HashBits`, `Sha256Bits`, `Sha1Bits`, `HashStream`, `Sha256`, `Sha1`). `Fips180` is the
  standard (FIPS 180-4); its rounds are those written out on bit vectors, and it is proved to give the published
  digests of "abc". SHA-256's 16-word schedule in place and its registers that change roles, SHA-1's cheaper
  functions and two-word length, and both streaming contexts are proved to compute it, for every way of cutting
  the message. SHA-256's schedule is laid over the buffer that holds the block, as the code has it. SHA-256's
  padding differs from the standard's for lengths that are 55 modulo 64, and only for them.
* **Timers** (`TimerRules`, `Timers`, `TimerRuns`, `TimerLife`, `TimerNotices`). Many timers on one interval
  timer. `TimerRuns` accounts for every millisecond: the count left and the time gone always make up the time
  asked for plus the time that clock readings let slip; `TimerLife` says from the clock readings alone when a
  timer runs out.
* **List** (`RadList`). The doubly linked list between two dummies, at pointer level.
* **Checksums** (`CrcAlgebra`, `CrcTables`, `Crc`). The table-driven CRC-16 and CRC-32 against division bit by
  bit; what errors they detect; what happens when the checksum follows its message.
* **Configuration files** (`ConfigText`, `ConfigLines`, `ConfigEntries`, `ConfigFile`, `ConfigReader`). The line
  parser and the printer: what lines in the documented form read as, exactly which records come back from their
  printed line, and that a written file is read back as the same records. A field that fills its array has no
  terminator, so printing it runs on into the next field; an instance of 32 characters with a value is accepted,
  and lost when the file is written and read again. A closing bracket before the opening one makes a copy length
  negative; exactly when is proved.

`Options`, `Orders` and `Powers` are shared helpers.

## Model

| member | source | states |
|---|---|---|
| SearchText.CompareMeans | src/radtextsearch.c:182-188 | the bounded C comparison of a text with a node's key is negative, zero or positive as the text's first 128 characters come before, equal or come after it |
| SearchText.BelowTotal | src/radtextsearch.c:182-188 | any two keys are equal or one is below the other, and never both |
| SearchText.BelowTransitive | src/radtextsearch.c:182-188 | the key order is transitive |
| SearchText.SameKey | src/radtextsearch.c:57-70 | two texts have one key exactly if they agree in their first 128 characters, shorter ones only if they are equal |
| SearchText.BelowMeans | src/radtextsearch.c:182-188 | a key is below another if it ends first or has the smaller character at the first place where they differ |
| RedBlack.RotateSingleKeepsOrder | src/radtextsearch.c:72-82 | a single rotation keeps the in-order sequence of the tree |
| RedBlack.RotateDoubleKeepsOrder | src/radtextsearch.c:84-89 | so does a double rotation |
| RedBlack.PlugInOrder | src/radtextsearch.c:127-205 | a subtree put back below its context contributes its own sequence between the context's two |
| RedBlack.PlugRB | src/radtextsearch.c:127-205 | a subtree of the black height the context asks for, put back, gives a tree without red-red pairs and of one black height |
| RedBlack.HeightUnique | src/radtextsearch.c:343-390 | the black height of a red-black tree is the one read off its left spine |
| RedBlack.PathIsLogarithmic | src/radtextsearch.c:311-341 | on a tree of n nodes, two to the length of any search path is at most (n+1) squared |
| RedBlack.ToMapOneMore | src/radtextsearch.c:207-308 | an item more or less in a sorted sequence is exactly its binding more or less in the map |
| RedBlackInsert.ViolationIsFixable | src/radtextsearch.c:170-194 | whatever the trailing pointers' state, a red-red pair met by the walk has a black grandparent, the pointers are right at that moment, and a rotation there repairs it |
| RedBlackInsert.FixKeepsRules | src/radtextsearch.c:170-179 | the rotation chosen by the side of the violation restores the coloring rules and the black heights |
| RedBlackInsert.FixKeepsOrder | src/radtextsearch.c:170-179 | and keeps the in-order sequence |
| RedBlackInsert.FlippedChildrenAreCool | src/radtextsearch.c:162-179 | the nodes just below a color flip have black children, so no flip and no violation can follow while the pointers are stale |
| RedBlackInsert.SettleKeepsRules | src/radtextsearch.c:153-179 | one turn of the insert loop (attach or flip, then repair) keeps the rules |
| RedBlackInsert.WalkStep | src/radtextsearch.c:151-195 | one turn and the move down keep the walk's invariant, including which pointers are stale and for how long |
| RedBlackInsert.WalkEnds | src/radtextsearch.c:151-195 | every turn makes the remaining search path shorter, or uses up a turn with stale pointers, so the loop ends |
| RedBlackInsert.SettleKeepsOrder | src/radtextsearch.c:153-179 | a turn adds at most the new item to the in-order sequence |
| RedBlackRemove.PushKeepsRules | src/radtextsearch.c:253-288 | each of the push-down cases keeps the coloring rules and leaves the walk on or under a red node |
| RedBlackRemove.PushKeepsOrder | src/radtextsearch.c:253-288 | and keeps the in-order sequence |
| RedBlackRemove.SiblingIsBlack | src/radtextsearch.c:253-287 | a black node below the root has a sibling that is black, under a parent that is red or the root: the cases of the code are complete |
| RedBlackRemove.BottomIsRedLeaf | src/radtextsearch.c:292-298 | the node unlinked at the bottom has no children, and unlinking it keeps the coloring rules and all black heights |
| RedBlackRemove.PredecessorMoved | src/radtextsearch.c:292-298 | copying the in-order predecessor over the found node removes exactly the found key |
| RedBlackRemove.Missing | src/radtextsearch.c:291-307 | a walk that meets no equal key shows that the key is not in the map |
| SearchNodes.Zip | src/radtextsearch.c:127-205 | memory that holds a subtree below a context holds the subtree one level up below the shorter context |
| SearchNodes.Unzip | src/radtextsearch.c:190-194 | and the other way down |
| SearchNodes.AtPlug | src/radtextsearch.c:127-205 | memory that holds a position holds the whole tree |
| SearchNodes.RotateSingleAt | src/radtextsearch.c:72-82 | the pointer assignments of a rotation build the rotated tree in the same nodes |
| SearchNodes.RotateDoubleAt | src/radtextsearch.c:84-89 | likewise for the double rotation |
| InsertWalk.FixAt | src/radtextsearch.c:170-179 | repairing through the pointers great, gparent and parent performs the repair of the zipper |
| InsertWalk.PointersAdvance | src/radtextsearch.c:187-194 | the pointer updates keep each trailing pointer either right or stale as the walk's invariant says |
| InsertWalk.Walk | src/radtextsearch.c:145-195 | the whole loop keeps the rules, and yields the old map, with the new binding only if the key was absent |
| RemoveWalk.PushAt | src/radtextsearch.c:253-288 | the push-down code performs the push of the zipper, in the same nodes |
| RemoveWalk.Replace | src/radtextsearch.c:292-298 | moving the last node's data to the node found: the position stays where it is, keeps the rules without that node, and the items beside it are those of the tree less the found key |
| RemoveWalk.Unlink | src/radtextsearch.c:292-298 | with the last node then unlinked, memory holds the tree without the found key, rules kept |
| RemoveWalk.Walk | src/radtextsearch.c:219-289 | the loop ends at the bottom with the rules kept and the found node known |
| TextSearch.TextSearch.Insert | src/radtextsearch.c:127-205 | keeps a sorted red-black tree with a black root; the contents gain the binding, or stay as they are if the text was there, first ordinal kept |
| TextSearch.TextSearch.Remove | src/radtextsearch.c:207-308 | keeps it too; the contents lose exactly the key, or nothing if it is absent; a NULL text removes the least key |
| TextSearch.TextSearch.Find | src/radtextsearch.c:311-341 | agrees with looking the key up in the contents, in at most twice log2(n+1) steps |
| TextSearch.TextSearch.Exit | src/radtextsearch.c:114-124 | ends with an empty tree, having removed all keys in ascending order |
| TextSearch.VerdictJudged | src/radtextsearch.c:343-390 | a node's verdict is nonzero exactly when no rule is broken at or below it |
| TextSearch.Debug | src/radtextsearch.c:343-390 | the recursive check, read over memory, judges the tree held there |
| TextSearch.DebugAccepts | src/radtextsearch.c:343-390 | on every valid index the check yields the black height plus one, never zero |
| RouterTables.HandleKeepsWellFormed | msgRouter/msgRouter.c:586-909 | every modelled request keeps message IDs distinct, consumers distinct and listed, no ID without consumers, and registrants distinct |
| RouterTables.DropMeans | msgRouter/msgRouter.c:777-829 | dropping removes exactly that consumer |
| RouterTables.DropKeepsOrder | msgRouter/msgRouter.c:777-829 | and keeps the order of the others |
| RouterLaws.RegisterMeans | msgRouter/msgRouter.c:617-661 | after REGISTER a process is registered, once, nothing else changes, and no registration is passed on |
| RouterLaws.DeregisterMeans | msgRouter/msgRouter.c:663-696 | after DEREGISTER a client is not registered and consumes nothing; all others are as they were and in their order, IDs without consumers are gone, and nothing is sent |
| RouterLaws.LeftGetsNothing | msgRouter/msgRouter.c:663-696 | and no message published later is sent to it |
| RouterLaws.EnableMeans | msgRouter/msgRouter.c:698-738 | who consumes what after an ENABLE, and how often each packet goes to each client: one announcement of the ID, or of every ID for 0, to each other remote |
| RouterLaws.DisableMeans | msgRouter/msgRouter.c:777-829 | likewise for a DISABLE, which is passed on only if it takes the last consumer |
| RouterLaws.DataMeans | msgRouter/msgRouter.c:860-908 | a message is sent once to each consumer of its ID, not back over its link, and to nobody else; tables stay |
| RouterLaws.StrangerIgnored | msgRouter/msgRouter.c:613-909 | an unregistered process can do nothing but register |
| RouterClients.AsRequested | msgRouter/msgRouter.c:613-909 | in every state of every run a process is registered, or consumes an ID, if and only if its own requests so far say so: the last of them to register or ask was not followed by one to leave or withdraw |
| RouterClients.SentAsRequested | msgRouter/msgRouter.c:860-908 | in every run a process is sent a message exactly when its router handles one it has asked for in this sense, and then once |
| MsgRouter.Router.RegisterRemoteMsgID | msgRouter/msgRouter.c:377-408 | sends one ENABLE or DISABLE for each listed ID that matches, all of them for ID 0 |
| MsgRouter.Router.AnnounceToRemotes | msgRouter/msgRouter.c:411-454 | does so to every remote registrant but the source |
| MsgRouter.Router.RemoveClientFromAllMsgs | msgRouter/msgRouter.c:518-552 | takes the client out of every ID and drops emptied IDs, stepping back in the loop without skipping any |
| MsgRouter.Router.AddClient | msgRouter/msgRouter.c:555-583 | adds a consumer unless it is there |
| MsgRouter.Router.EnableMsgID | msgRouter/msgRouter.c:698-738 | adds the consumer, making the ID if needed, and on every ENABLE announces the ID to the other remotes |
| MsgRouter.Router.DisableMsgID | msgRouter/msgRouter.c:777-829 | drops the consumer, and an emptied ID with an announcement to the other remotes |
| MsgRouter.Router.RouteData | msgRouter/msgRouter.c:860-908 | sends a message to every consumer but the remote it came from |
| MsgRouter.Router.AnswerIsRegistered | msgRouter/msgRouter.c:740-775 | asking whether an ID is registered is answered as specified and changes nothing |
| MsgRouter.AnswerIsYes | msgRouter/msgRouter.c:740-775 | a registered client is told yes if the ID is listed, and is sent no answer at all if it is not; an unregistered process is sent none |
| MsgRouter.Router.QueueMsgHandler | msgRouter/msgRouter.c:586-909 | the tables and the messages sent are those of the specification, for registering, leaving, ENABLE, DISABLE and data, and a process that registers is acknowledged, known or not |
| RouterNet.RequestSpeaks | msgRouter/msgRouter.c:698-829 | after a request, what is sent last about an ID to another router says truthfully whether anyone but that router still wants it; it is false exactly if the last consumer of ID 0 withdraws while the ID is still wanted |
| RouterNet.RequestKeepsOthers | msgRouter/msgRouter.c:613-829 | a request takes no consumer away but its source |
| RouterNet.HandledCovers | msgRouter/msgRouter.c:613-829 | handling a request, from whatever source, uncovers a link for an ID if and only if it is such a withdrawal at that end of the link |
| RouterNet.AnnounceLinkKeepsInv | msgRouter/msgRouter.c:1045-1055 | announcing everything to a newly linked router covers the link |
| RouterNet.ReceiveCoverage | msgRouter/msgRouter.c:586-909 | so does taking a message from a link's queue and handling it: all links stay covered if and only if it is not such a withdrawal |
| RouterNet.NextCoverage | msgRouter/msgRouter.c:586-909 | every step of every router keeps tables well formed, and keeps interest covered if and only if it is not a DISABLE of ID 0 that withdraws from a linked router what is still needed from there |
| RouterNet.NextKeepsInv | msgRouter/msgRouter.c:586-909 | so every other step keeps both |
| RouterNet.ProperSpoilsNothing | src/radmsgRouter.c:424-451 | while no DISABLE of ID 0 is in flight, a step of a client that obeys the library does no such withdrawal |
| RouterNet.NextNoWildcard | src/radmsgRouter.c:424-451 | and puts no DISABLE of ID 0 in flight |
| RouterTree.AnyRoot | msgRouter/msgRouter.c:860-908 | a tree of routers is a tree from whichever router a message starts |
| RouterDelivery.MessageStepCounts | msgRouter/msgRouter.c:860-908 | what one routed message adds to and takes from every queue and every process |
| RouterDelivery.NextHop | msgRouter/msgRouter.c:860-908 | a router reached from its parent passes the message on exactly to the children that want it |
| RouterDelivery.FloodStep | msgRouter/msgRouter.c:860-908 | each hop reaches a router not reached before, and copies in flight are exactly those still due |
| RouterDelivery.Reached | msgRouter/msgRouter.c:860-908 | when no copy is in flight, every router with a subscriber was reached |
| RouterDelivery.DeliveredOnce | msgRouter/msgRouter.c:860-908 | in a settled tree every subscriber gets a published message exactly once, nobody else does, and there are fewer hops than routers |
| RouterRuns.CoverageAlwaysIff | msgRouter/msgRouter.c:970-1292 | interest is covered on every link in every state of a run if and only if no step of the run withdraws by ID 0 what is still needed |
| RouterRuns.CoverageAlways | src/radmsgRouter.c:359-451 | in every state of every run of clients that obey the library, which refuses ID 0, interest is covered on every link |
| RouterRuns.RunSettles | msgRouter/msgRouter.c:970-1292 | a state reached without such a withdrawal, with only messages in flight, is one from which delivery is exact |
| RouterRuns.WildcardBreaksCoverage | msgRouter/msgRouter.c:377-408 | a run of two routers in which a local DISABLE of ID 0 withdraws an ID still consumed |
| RouterRuns.WithdrawalSpreads | msgRouter/msgRouter.c:377-408 | three routers in a row, in a state that keeps the invariant: the first's DISABLE of ID 0 does no harm there, but is passed on, and the second then withdraws from the third an ID its own process consumes |
| RouterQuiet.HopLightens | msgRouter/msgRouter.c:860-908 | the routers that the copies sent on can still reach are fewer than those the copy received could |
| RouterQuiet.ForwardingEnds | msgRouter/msgRouter.c:860-908 | in a settled tree, however links take turns, messages are received at most as often as there are copies in flight times the other routers |
| RouterQuiet.ServedWhenQuiet | msgRouter/msgRouter.c:860-908 | when nothing is left to receive, every subscriber has had a published message exactly once and nobody else has |
| RouterQuiet.PublishedArrives | msgRouter/msgRouter.c:860-908 | and receiving alone always leads to such a state |
| BufferLayout.Disjoint | src/radbuffers.c:131-232 | any two buffers, headers included, lie apart |
| BufferLayout.WithinSegment | src/radbuffers.c:131-232 | every buffer lies behind the share header and inside the computed segment |
| BufferLayout.PackedTight | src/radbuffers.c:131-232 | there is no gap: each buffer begins where the one before it ends, 8 bytes of header and its class's size later, from behind the share header to the end of the segment |
| BufferLayout.ClassSizeStep | src/radbuffers.c:148-169 | class sizes double |
| BufferLayout.SearchEndsIff | src/radbuffers.c:135-143 | the search for the first class, whose doubled size wraps at 64 bits, ends if and only if the size asked for is not negative |
| BufferPool.StartSize | src/radbuffers.c:135-143 | for such a size the first class is the least of 16, 32, 64, ... that is at least it |
| BufferLayout.LongEnoughIff | src/radbuffers.c:145-171 | the array of counts is read within its bounds if and only if it has ten counts, one that is not positive, or one more than there are classes up to the maximum |
| BufferLayout.DefaultCountsReach | src/radsysdefs.c:56-67 | an array of nine ending in 0, like the default one, is always long enough |
| BufferLayout.EightCountsTooFew | h/radsysdefs.h:119-124 | eight positive counts for the sizes 64 to 8192 are not: a ninth is read |
| BufferPool.MakeClasses | src/radbuffers.c:145-171 | classes stop with the first size that reaches the maximum, at a count that is not positive, or after ten |
| BufferPool.LinkBuffers | src/radbuffers.c:199-232 | every buffer's header is written, linked to the next one of its class |
| BufferPool.InitialPool | src/radbuffers.c:199-232 | class i's free list is exactly its count of buffers, ending in offset 0 |
| BufferPool.PopKeepsLists | src/radbuffers.c:246-315 | taking a list's head keeps every list an acyclic chain of free buffers of its class |
| BufferPool.PushKeepsLists | src/radbuffers.c:321-351 | so does putting a buffer in front |
| BufferPool.Share.Init | src/radbuffers.c:81-241 | initialization yields a sound pool of the classes asked for; without a positive maximum it fails, whatever the other arguments |
| BufferPool.Share.FindClass | src/radbuffers.c:256-298 | the class chosen is the first that fits and has a free buffer |
| BufferPool.Share.Get | src/radbuffers.c:246-315 | a buffer comes off the first fitting class's list marked in use, and none only if no such class has one |
| BufferPool.Share.Rls | src/radbuffers.c:321-351 | a buffer in use goes back to the front of its class's list, and one not in use is refused |
| BufferPool.Share.GetSizeAvail | src/radbuffers.c:411-430 | counts a class's free list |
| BufferPool.Share.GetTotal | src/radbuffers.c:395-408 | sums the counts of all classes |
| BufferPool.Share.GetAvailable | src/radbuffers.c:433-448 | sums the lengths of all free lists |
| BufferCounts.TotalCounts | src/radbuffers.c:395-408 | the sum of the class counts is the number of buffers laid out |
| BufferCounts.AvailableIsUnused | src/radbuffers.c:433-448 | the sum of the list lengths is the number of buffers not in use |
| BufferSteps.NextKeepsInv | src/radbuffers.c:246-351 | every memory step of every process keeps the interleaving invariant |
| BufferSteps.PopStep | src/radbuffers.c:300-303 | moving the list head under the lock takes the first buffer off that list and hands it to the process, and keeps the invariant |
| BufferSteps.PushStep | src/radbuffers.c:343-348 | putting a buffer back under the lock puts it first on its class's list and takes it from the process, and keeps the invariant |
| BufferSteps.NextKeepsClasses | src/radbuffers.c:246-351 | no step makes or loses a buffer or changes its class |
| BufferSteps.PoolIsSafe | src/radbuffers.c:246-351 | in every state of every run the buffers are those laid out at the start, each of its class; each is free or owned by exactly one process, lists are sound, a held buffer is marked in use and a list head is not |
| BufferSteps.RefusalsUnreachable | src/radbuffers.c:246-351 | so the branches for a head that is in use and for releasing a buffer not in use are never taken |
| BufferRequests.ServedAsAsked | src/radbuffers.c:246-315 | in every run, for the size the process asked for when it called: the buffer taken is the head of the first class that holds the size and is not empty at that moment, the one handed out is of a class that holds it, and none is given only when no class can serve it |
| BufferRequests.ServesIs | src/radbuffers.c:256-298 | a single caller's get goes by the same classes |
| BufferRequests.AllocCounts | src/radbuffers.c:300-301 | the allocation count is the number of buffers taken in the run |
| BufferRequests.CallEnds | src/radbuffers.c:246-351 | every step of a call brings its end nearer, which is at most 30 steps away |
| BufferRequests.NeverStuck | src/radbuffers.c:246-351 | a process in a call can go on, or another one has the lock and can go on |
| Sha256Bits.RoundOnBits | src/radsha.c:522-551 | a round of SHA-256 written out on bit vectors: literal rotations, choice and majority bit by bit, the new first and fifth registers |
| Sha256Bits.ScheduleOnBits | src/radsha.c:542-551 | and a later schedule word |
| Sha256Bits.AbcDigest | src/radsha.c:135-163 | the digest of "abc" is the one published with the standard, through all 64 rounds: constants, initial state and order included |
| Sha256Bits.CodedAbcDigest | src/radsha.c:832-848 | and so is the one computed with Final's padding |
| Sha1Bits.RoundOnBits | src/radsha.c:214-245 | likewise a round of SHA-1 |
| Sha1Bits.ScheduleOnBits | src/radsha.c:331-429 | and a later word of its schedule |
| Sha1Bits.AbcDigest | src/radsha.c:331-478 | and SHA-1's published digest of "abc", through all 80 rounds |
| Fips180.PaddingIsLeast | src/radsha.c:278-329 | the standard's padding adds the least number of zeros that fills a block |
| Fips180.BlocksConcat | src/radsha.c:614-665 | hashing blocks in two portions is hashing them together |
| HashStream.PieceFills | src/radsha.c:630-639 | a piece that fills the buffer has exactly that block absorbed |
| HashStream.PieceHeld | src/radsha.c:640-664 | a shorter piece is only held back |
| HashStream.UsedSpace | src/radsha.c:624 | the bytes held back can be read off the 64-bit count of bits, wrapped around or not |
| Sha256.RoundInPlace | src/radsha.c:522-551 | a round that changes two registers in place is the standard's round up to the registers' roles |
| Sha256.NextWord | src/radsha.c:542-551 | the word made in place of the oldest of 16 is the next word of the 64-word schedule |
| Sha256.Slide | src/radsha.c:542-551 | and the 16 words kept are then the next ones |
| Sha256.FirstRound | src/radsha.c:522-540 | one of rounds 0 to 15, which stores its word in the buffer: the words still to be read stay, also if the block is read from that buffer |
| Sha256.LaterRound | src/radsha.c:542-551 | one later round with its schedule word made in the buffer |
| Sha256.Transform | src/radsha.c:553-612 | both loops of eight rounds with registers in rotating roles compute the standard's block computation, for every state and block, also when the schedule overwrites the block it is made from |
| Sha256.PaddingAgrees | src/radsha.c:667-725 | Final's padding is the standard's if and only if the length is not 55 modulo 64 |
| Sha256.PaddingDiffersBy | src/radsha.c:667-725 | for a length of 55 modulo 64 it is the standard's with 64 zero bytes put before the length |
| Sha256.Context.Update | src/radsha.c:614-665 | the context stands for the message so far: feeding a piece appends it, bit count modulo 2^64 included |
| Sha256.Context.Final | src/radsha.c:667-738 | the digest is that of the message with Final's padding |
| Sha256.HashAgrees | src/radsha.c:667-738 | for every other length the digest is SHA-256's |
| Sha256.ComputeBlock | src/radsha.c:832-848 | hashing a memory block |
| Sha256.ComputeFile | src/radsha.c:855-886 | hashing a file read in pieces: the pieces do not show |
| Sha1.CodedIsStandard | src/radsha.c:214-217 | the cheaper forms of the round functions equal the standard's |
| Sha1.Process | src/radsha.c:331-429 | 80 rounds by assignment compute the standard's block computation |
| Sha1.Carry | src/radsha.c:293-325 | the length kept in two words counts modulo 2^64 |
| Sha1.Context.Update0 | src/radsha.c:278-329 | a call that does not finish takes what fits into the block and keeps the context's meaning |
| Sha1.Context.Update | src/radsha.c:437-449 | feeding a piece appends it to the message the context stands for |
| Sha1.Context.Close | src/radsha.c:287-312 | a call that finishes marks the end once, fills the block, and asks for another exactly when the length does not fit |
| Sha1.Context.Final | src/radsha.c:457-478 | for every length the last blocks are the standard's padding |
| Sha1.ComputeBlock | src/radsha.c:772-788 | the digest of a memory block is SHA-1's |
| Sha1.ComputeFile | src/radsha.c:795-825 | the digest of a file is SHA-1's, however its reads are cut |
| TimerRules.SmallestMeans | src/radtimers.c:69-94 | the value returned is a lower bound of all pending counts and reached by one |
| TimerRules.ServiceSound | src/radtimers.c:138-163 | a service keeps lists and flags in agreement, and leaves no due timer if it processes |
| TimerRules.SignalRests | src/radtimers.c:165-171 | after the signal handler nothing is due and the interval timer stands at the smallest count |
| TimerRules.CreateRests | src/radtimers.c:240-264 | a new timer comes off the free list, none exactly if it is empty; no other timer and no list but the free one is touched, and the list stays at rest |
| TimerRules.DeleteRests | src/radtimers.c:267-282 | a deleted timer is stopped and goes to the end of the free list |
| TimerRules.ArmedForTheFirst | src/radtimers.c:138-171 | with counts below 2^31 and something pending, the interval timer stands at exactly the least count, never 0 |
| TimerRules.SignalArms | src/radtimers.c:165-171 | for any counts the interval timer is set to the least one read as a signed number, and to -1 if nothing is pending |
| TimerLife.CountsDown | src/radtimers.c:138-163 | a service takes the milliseconds since the last reading, modulo 2^32, off every pending count, down to 0, changes no other count, and if it processes takes those at 0 off the list |
| Timers.TimerList.UpdateTimers | src/radtimers.c:69-94 | ticks every pending timer once, stopping at 0, and returns the smallest count |
| Timers.TimerList.ProcessExpiredTimers | src/radtimers.c:97-135 | removes exactly the due timers in list order, clears their flags and sends their notices, stepping back after each removal |
| Timers.TimerList.ServiceTimers | src/radtimers.c:138-163 | one service, with its separate clock readings, does what the rules say |
| Timers.TimerList.Create | src/radtimers.c:240-264 | allocates or changes a timer as specified |
| Timers.TimerList.Start | src/radtimers.c:286-314 | arms a timer as specified and leaves the list at rest |
| Timers.TimerList.Stop | src/radtimers.c:317-337 | stops a timer as specified and leaves the list at rest |
| Timers.TimerList.Delete | src/radtimers.c:267-282 | deletes a timer as specified and leaves the list at rest |
| TimerRuns.DoIsCall | src/radtimers.c:240-337 | the steps of a run are the calls and the signal |
| TimerRuns.AccountKept | src/radtimers.c:138-163 | a service keeps the account: count left plus time gone equals time asked for plus time let slip, which TimerLife.TimerRunsOut pins down |
| TimerRuns.DoInv | src/radtimers.c:240-337 | every step keeps lists, accounts, and arming numbers unique |
| TimerRuns.TimersAreTimely | src/radtimers.c:69-163 | in every run: no notice before its time counted from the last clock reading before arming, at most one for each arming, none due longer than to the next service, and what is sent is what expired |
| TimerLife.TimerRunsOut | src/radtimers.c:138-337 | a timer started and then left alone is, after any further calls, pending if and only if the clock was last read before the start's reading plus the time asked for plus the time spent inside services since; its count is exactly what is missing, and when it is over its expiry is on record |
| TimerNotices.NoticesAsGiven | src/radtimers.c:97-264 | in every run each notice of a timer carries the routine and parameter last given to it; without a routine there is none |
| TimerNotices.PendingInOrder | src/radtimers.c:286-314 | timers stand in the order in which they began to run |
| TimerNotices.ServedInOrder | src/radtimers.c:97-135 | and those due in one service are notified in that order |
| TimerRuns.StopSilences | src/radtimers.c:267-337 | stopping, deleting or starting anew a running timer ends its arming: no service notifies it, then or later |
| RadList.List.InsertAfter | src/radlist.c:122-135 | the chain stands for the sequence with the node behind the given one |
| RadList.List.InsertBefore | src/radlist.c:138-152 | likewise before it |
| RadList.List.AddToFront | src/radlist.c:155-167 | puts the node first |
| RadList.List.AddToEnd | src/radlist.c:170-182 | puts the node last |
| RadList.List.Remove | src/radlist.c:185-195 | takes the node out and keeps the rest in order |
| RadList.List.RemoveFirst | src/radlist.c:198-214 | takes the first node out, if any |
| RadList.List.RemoveLast | src/radlist.c:217-233 | takes the last node out, if any |
| RadList.List.GetNext | src/radlist.c:268-281 | the next node, the first one after NULL, NULL after the last |
| RadList.List.GetPrevious | src/radlist.c:284-297 | the node before, the last one before NULL, NULL before the first |
| RadList.List.Reset | src/radlist.c:94-109 | an empty list, whatever it held |
| RadList.List.RemoveAll | src/radtimers.c:97-135 | the remove and step back loop at pointer level: looks at every node once and removes exactly the unwanted ones, the first included |
| RadList.KeptMeans | src/radtimers.c:97-135 | what is kept is every wanted node, in order |
| CrcAlgebra.EightOfXor | src/radcrc.c:149-176 | division over single bits is linear |
| CrcAlgebra.EightOfUp | src/radcrc.c:149-176 | eight steps only move a word whose low byte is zero |
| CrcAlgebra.ShiftInjective | src/radcrc.c:149-176 | a step loses nothing |
| CrcTables.TablesRight | src/radcrc.c:72-142 | both tables' 256 entries satisfy the relations from which every entry follows |
| CrcTables.EntryIs | src/radcrc.c:72-142 | so every entry is its index divided for eight steps |
| Crc.StepIs | src/radcrc.c:153-156 | one table step is adding the byte and eight division steps |
| Crc.Crc16Calculate | src/radcrc.c:149-159 | the loop computes reflected division by 0x8408 from an all-ones register |
| Crc.Crc32Calculate | src/radcrc.c:165-176 | the loop computes reflected division by 0xEDB88320 from an all-ones register |
| Crc.Crc16Check | src/radcrc.c:149-159 | the empty checksum is 0xFFFF and that of the digits 1 to 9 is 0x6F91 |
| Crc.Crc32Check | src/radcrc.c:165-176 | the empty checksum is 0xFFFFFFFF and that of the digits 1 to 9 is 0x340BC6D9 |
| Crc.Crc16DetectsWindow | src/radcrc.c:149-159 | messages that differ only within two bytes in a row have different checksums |
| Crc.Crc32DetectsWindow | src/radcrc.c:165-176 | messages that differ only within four bytes in a row have different checksums |
| Crc.Crc16Residue | src/radcrc.c:149-159 | two bytes behind a message bring the register to 0 if and only if they are its checksum, low byte first |
| Crc.Crc32Residue | src/radcrc.c:165-176 | likewise four bytes |
| ConfigLines.HandWritten | src/radconffile.c:383-466 | a line in the documented form reads as its fields: blanks, an identifier with or without an instance, a delimiter and any blanks, a value, and behind a blank an optional comment; 512 characters of the value and 128 of the comment are kept |
| ConfigLines.NoValue | src/radconffile.c:383-466 | without a value the entry has an empty one |
| ConfigLines.LeadingBlanks | src/radconffile.c:313-316 | blanks in front change nothing of what a line reads as |
| ConfigLines.LeadingDelimiters | src/radconffile.c:383-390 | nor do equals signs |
| ConfigLines.NoName | src/radconffile.c:383-390 | a line of delimiters alone is skipped |
| ConfigLines.RefusedName | src/radconffile.c:392-429 | a line is skipped for its name if and only if that is over 64 characters, has no closing bracket, or an instance over 32 |
| ConfigLines.BlankBeforeEquals | src/radconffile.c:383-444 | with a blank before it the equals sign is read as the value |
| ConfigLines.CommentForValue | src/radconffile.c:437-444 | where there is no value, the first word of the comment is read as one |
| ConfigEntries.GoodComesBack | src/radconffile.c:383-466 | a good entry, whatever lies behind it in memory, is read back from its printed line |
| ConfigEntries.OnlyGoodComesBack | src/radconffile.c:383-466 | an entry that is read back is good |
| ConfigEntries.ComesBackIff | src/radconffile.c:383-466 | an entry is read back from its printed line if and only if it is good: no delimiters where they end a field, a line that fits, and each full field followed by an empty one (or by a value that happens to close the bracket at the same place) |
| ConfigEntries.FullInstanceIsLost | src/radconffile.c:399-416 | an entry with an instance of 32 characters and a value is read, printed with the value run on behind the instance, and skipped when that line is read |
| ConfigText.NegativeLengthIff | src/radconffile.c:392-416 | the length of the copied instance is negative if and only if a closing bracket comes before the opening one, which is within the first 65 characters |
| ConfigText.BracketsReversed | src/radconffile.c:392-416 | a line on which it is |
| ConfigText.NamedMeans | src/radconffile.c:392-429 | an identifier and instance read from a token are free of delimiters and brackets and within their limits |
| ConfigFile.CommentComesBackIff | src/radconffile.c:313-357 | a line is read back as a comment unchanged if and only if it is blank or starts with a hash sign |
| ConfigFile.GoodIff | src/radconffile.c:304-473 | any record, comment or entry, is read back from its line, whatever lies behind it in memory, if and only if it is good |
| ConfigFile.LineTaken | src/radconffile.c:304-311 | a read takes a line with its end, but at most 511 characters |
| ConfigFile.SkippedLeavesNoTrace | src/radconffile.c:383-429 | a file reads as it would without a line that is skipped |
| ConfigFile.HeadedMeans | src/radconffile.c:89-131 | the header is the file name's line and then the header's lines in order, and is put only before records that do not begin with a comment |
| ConfigFile.PrintedEntry | src/radconffile.c:537-604 | what an entry looks like when it is written |
| ConfigFile.RoundTrip | src/radconffile.c:304-473 | parsing what printing good records gives yields the same records, without overrunning memory |
| ConfigFile.FlushedComesBack | src/radconffile.c:537-604 | so does writing with the header put before records that do not begin with a comment, and writing again gives the same text |
| ConfigReader.StrtokInPlace | src/radconffile.c:384-444 | cutting a token off in the line buffer finds the specified token and leaves the rest of the line |
| ConfigReader.ReadLine | src/radconffile.c:313-466 | reading a line in its buffer yields the specified record, skips the line, or overruns memory as specified |
| ConfigReader.File.constructor | src/radconffile.c:248-480 | opening reads the text line by line, in pieces of at most 511 characters, up to a line that overruns memory |
| ConfigReader.File.Flush | src/radconffile.c:511-610 | writes the header if it is missing, then every record, full fields running on |
| ConfigReader.File.InsertTextHdr | src/radconffile.c:89-131 | puts the file name and the header's lines in front, in order |
| ConfigReader.WriteAndReopen | src/radconffile.c:248-610 | a file of good records, written and opened again, has the records it had when it was written |

## Left out

- Everything about processes and the system: sockets, pipes, signals and their masks, semaphores, shared memory
  attachment, logging, running out of memory. A lock is an atomic step, a notice an entry in a sequence, a clock a
  reading given to the step, a file a sequence of characters.
- The database, queue table, thread, process, state machine, stack and sorted list modules: string building,
  plumbing or easy members.
- Text index: freeing memory. `Remove` does not report absence (it returns OK on any tree that is not empty), so
  only its effect on the map is stated.
- Router: failure of a link and reconnection while messages are in flight; pids, counters, time stamps and the
  DUMP_STATS request, all kept for debugging; message IDs beyond a signed 32-bit integer. A DEREGISTER from a
  link, which no router sends. A link's first message to the connecting router is the answer to its request, so
  that router announces its IDs before it handles anything else from the link. Remote interest may outlast its
  cause (losing a client sends no DISABLE); coverage is the one-sided fact.
- Router: the documentation does not mention that ID 0 stands for all IDs when it is announced; the code is
  followed.
- Buffer pool: 32-bit offsets that overflow when a segment reaches 4 GB; the size of the share header is that of a
  machine with 64-bit longs. What happens after the array of counts is read past its end, or when the search for
  the smallest class does not end, is not modelled: these inputs are excluded exactly. The loop that reads one
  size past the last class before its bound is checked has the bound checked first.
- Hashes: words are 32 bits wide, as the header's comment asks. Words are taken from bytes in big-endian order
  directly, where the code reverses them on little-endian machines. SHA-1's block bytes and its words share memory
  in the code and are two arrays here. A block of SHA-256 is the context's buffer or lies apart from it. The
  hexadecimal form of a digest, the clearing of contexts, and files that cannot be opened are not part of this
  model.
- Timers: timers are numbered by their place in the block they are made from, and the lists hold numbers; the
  pointer level of such lists is `RadList`. A signal between the two assignments of a create call is not modelled.
  Tick counts are taken modulo 2^32. Calls on a timer that was deleted are excluded, and times are below 2^32, as
  the type of the argument has it.
- List: inserting after NULL, which the header file describes as inserting in front, is not supported by the code
  and is excluded.
- Checksums: the 16-bit register is kept in a 32-bit word, whose upper half is proved to stay zero.
- Configuration files: zero characters in the text. The memory behind a record, which a comment of 128 characters
  is printed on into, is a parameter. What happens after a copy of negative length is not modelled: reading stops
  there. The header's wording is a parameter. Locks, lookups and edits of entries. The header text's limits (lines
  of 256 characters, identifiers of 32) differ from the code's (512 and 64), which are followed.
