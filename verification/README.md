# A verified model of the API gateway

The gateway accepts connections in one server thread, hands them to worker threads, keeps its data in
several Redis servers chosen by an MD5 hash of the key, copies its settings from a configuration file
and a MySQL table, counts what it does, and settles used-up orders once a day. This project models
that logic in Dafny and proves what it is meant to guarantee.

The modules follow the program's parts:

- `Dispatcher` breaks the server thread and the worker threads into steps; a run is any interleaving.
  `DispatcherLoops` has the server's own loops as methods, with the workers running freely between any
  two steps; all they do is recorded as a run of `Dispatcher`. `DispatcherProgress` bounds how long a
  queued task waits, and `DispatcherEvents` reads off the actions of a run what becomes of the events of
  a batch and of the results of the workers.
- `Bytes`, `Md5Steps`, `Md5Block`, `Md5`, `Md5Test`: the block function, as RFC 1321 rotates its registers
  and as the program overwrites its variables, the incremental hash, which runs the latter, against the
  one-shot definition, and the published digest of "abc".
- `Redis`, `Sharding`, `RankedSets`, `RedisEffects`, `DataAdapter`: servers as maps, a store split over
  several of them against one flat store, sorted sets, what the commands leave behind, and the adapter
  that routes every request by the hash.
- `Settlement`, `SettlementAny`, `SettlementOrder`, `SettlementPass`: the daily pass over the orders, on a
  flat store, with malformed members, seen by one order with its keys spelled out, and through the
  adapter.
- `CText`, `ConfText`, `Config`, `ConfigReader`, `GatewayConfig`, `GatewayFile`, `ConfigFile`, `UrlApis`: C
  string functions, trimming and splitting a line inside its buffer, the meaning of a configuration file,
  the nested reading loops, the gateway's own sections and parameters, what its file gives each of them,
  files written out as text, and the records of its URL list.
- `Base64`, `Base64Loops`, `Base64Table`, `Cipher`, `Url`, `UrlTable`: the codecs, as definitions, as loops
  over buffers, and character by character.
- `StrTok`, `Rows`, `Cache`: `strtok_r` in place, the printed record of a table row and its parser, and
  the cache refresh.
- `ServerList`, `Domain`, `Statistics`, `Options`: the list of Redis servers, the domain of a URL, the
  per-user counters, and an option type.

`dafny verify dfyconfig.toml` checks everything.

What is assumed of the surroundings: accepting a connection returns a descriptor that is not a key of
the map (a task's socket stays open until the task is deleted); the kernel reports a registered
descriptor at most once in a batch; queue operations are atomic; the server name is "query"; running a
task returns any code; the Redis servers are reliable; memory is little-endian; columns, lines and
URLs are C strings of 8-bit characters in the C locale.

Where the code does something undefined (reading past a buffer, a missing string) the model has an
outcome of its own (`Undefined`, `Bad`, `None`), and the theorems say exactly when it occurs. Eight
promises that a reader might expect do not hold of the code; each is stated with its exact condition:
inserting into a sorted set and moving between sets on several servers (`PutOrderIsRightIff`,
`MoveIsRightIff`, with `MisroutedExample`), reading any configuration file (`CompletesIff`, with
`GoodsSectionSticks` and `EarlyRemarkIsBad`), making one entry of each record of the URL list
(`FivesAreRecordsIff`, with `ShortRecordShifts`), settling every due order (`LeavesIff`,
`PassWithAnyMembers`), noticing changed request parameters (`UpToDateIff`, with `StaleParameters`),
building the server list from a count other than one (`WorkerListParses`), and keeping every merged
counter until the statistics file shows it (`WriteKeepsErrorsIff` for one report, `NoErrorIsLostIff` for
a run, with `OneErrorIsLost`).

## Model

| member | source | states |
|---|---|---|
| Dispatcher.TasksAreNeverLost | src/UserQueryServer/UserQueryServer.cpp:97-204 | in every reachable state of every interleaving each task of the map is in exactly one place, nothing else is in any place, and both "can not find" branches are unreachable |
| Dispatcher.TasksAreFreedOnce | src/UserQueryServer/UserQueryServer.cpp:118-204 | accepted = live + freed; no task is freed twice, or while queued or running |
| Dispatcher.StepInv | src/UserQueryServer/UserQueryServer.cpp:29-204 | every step of every thread keeps the invariant (one place, lock ownership, live queue entries, ledger) |
| Dispatcher.RunInv | src/UserQueryWorkThreads/UserQueryWorkThreads.cpp:50-87 | so does every run |
| Dispatcher.NothingIsEverMissing | src/UserQueryServer/UserQueryServer.cpp:118-126 | under the invariant a popped or readable descriptor is always in the map |
| Dispatcher.QueueChangesUnderItsLock | src/UserQueryWorkThreads/UserQueryWorkThreads.cpp:56-86 | a queue changes only in a step of the thread that holds its mutex, and never while its worker runs a task |
| Dispatcher.NoLostWakeUp | src/UserQueryWorkThreads/UserQueryWorkThreads.cpp:57-60 | a worker asleep and unsignalled has an empty queue, or the server holds its mutex and is about to signal |
| Dispatcher.QueuesAreFifo | src/UserQueryWorkThreads/UserQueryWorkThreads.cpp:61-62 | what was pushed is what was taken, in order, followed by the queue; both histories only grow |
| Dispatcher.NobodyIsStuck | src/UserQueryServer/UserQueryServer.cpp:29-70 | the server always has a step; a worker with work has one unless the server holds its mutex |
| DispatcherProgress.QueuedTaskIsTaken | src/UserQueryWorkThreads/UserQueryWorkThreads.cpp:56-86 | in any interleaving the task at position p of a queue is taken, in its turn, within 6 (p + 1) steps of its worker |
| DispatcherProgress.StepBringsNearer | src/UserQueryWorkThreads/UserQueryWorkThreads.cpp:56-86 | every step of every thread takes the task or keeps it queued, and lowers its distance exactly when it is the worker's own |
| DispatcherEvents.BatchIsHandled | src/UserQueryServer/UserQueryServer.cpp:38-68 | between the wait that reports a batch and the end of the batch, whatever the workers do, the server's event actions are as many as the events, and the k-th answers the k-th: a connection is accepted or refused, a readable descriptor is read, anything else is ignored |
| DispatcherEvents.ResultsAreAnswered | src/UserQueryServer/UserQueryServer.cpp:170-204 | in any run the server deals with a worker's results in the order in which its tasks ended, arming after a success (or freeing when that fails) and freeing after a failure, and every result is dealt with or on its way |
| Dispatcher.DrainStep | src/UserQueryServer/UserQueryServer.cpp:170-204 | each step during a drain keeps the outstanding tasks, or pops one of them, and lowers the measure if it is the server's |
| Dispatcher.DrainBalance | src/UserQueryServer/UserQueryServer.cpp:170-204 | pops plus outstanding tasks, and server steps plus measure, are constant during a drain |
| Dispatcher.DrainTerminates | src/UserQueryServer/UserQueryServer.cpp:170-204 | one drain pops at most the tasks outstanding at its start and takes a bounded number of steps, however the workers run meanwhile |
| DispatcherLoops.Machine.GetFreeTask | src/UserQueryServer/UserQueryServer.cpp:170-204 | the nested loops end while workers run freely between steps; the number popped is the loss of outstanding tasks; all is a run |
| DispatcherLoops.Machine.HandleStatus | src/UserQueryServer/UserQueryServer.cpp:178-201 | the popped task is in the map; after a success that the epoll set takes it is armed again with nothing else changed, in every other case it is erased and freed |
| DispatcherLoops.Machine.PutTask | src/UserQueryServer/UserQueryServer.cpp:96-116 | on success exactly one worker got exactly this task, after each worker before it was tried and busy; otherwise nobody got anything, and the result tells whether a mutex could not be tried or all were busy |
| DispatcherLoops.Machine.HandOver | src/UserQueryServer/UserQueryServer.cpp:104-109 | lock, push, signal, unlock: one push to that worker and nothing else |
| DispatcherLoops.Machine.ReadEvent | src/UserQueryServer/UserQueryServer.cpp:118-142 | the descriptor leaves the epoll set; the task stays in the map and is pushed once, or is freed and erased; the server's actions are one read, the offers in turn, and what the result asks for |
| DispatcherLoops.Machine.HandleEvent | src/UserQueryServer/UserQueryServer.cpp:38-68 | each event has its answer: an accepted connection is a new task, registered under its descriptor; a refused one and any other event change nothing |
| DispatcherLoops.Machine.Turn | src/UserQueryServer/UserQueryServer.cpp:29-70 | one turn of the event loop is a run that ends where it began; it polls for what the kernel reports, and takes up every event of the batch that the poll names, once and in order |
| Md5Steps.Compress | src/CommonTools/Md5/Md5.cpp:103-186 | for any operations: the program's lines, which overwrite a, d, c, b in turn, compute what the standard's rotating registers compute, added to the four words in place |
| Md5Steps.FourSteps | src/CommonTools/Md5/Md5.cpp:112-115 | four lines are four rotating steps, and put every variable back in its role |
| Md5Block.LinesAreRows | src/CommonTools/Md5/Md5.cpp:112-178 | the 64 written-out words, constants and shifts follow the rule of each round: words j, 5j + 1, 3j + 5 and 7j modulo 16, four shifts repeated |
| Md5Block.MacroIsMix | src/CommonTools/Md5/Md5.h:17-20 | the four macros are the functions F, G, H and I of section 3.4 of RFC 1321 |
| Md5Block.RotateLeftFolds | src/CommonTools/Md5/Md5.h:22 | a rotation shifts the word up in 64 bits, and what leaves the low half comes back at its bottom |
| Md5Block.Md5Transform | src/CommonTools/Md5/Md5.cpp:103-186 | on 32-bit words in place, as the hasher runs it: the standard's block function |
| Bytes.LittleEndianWords | src/CommonTools/Md5/Md5.cpp:188-198 | a 64-bit number is stored as its two 32-bit words, low word first |
| Bytes.LittleEndianOfValue | src/CommonTools/Md5/Md5.cpp:188-198 | storing the value of some bytes gives these bytes back |
| Md5.ByteReverse | src/CommonTools/Md5/Md5.cpp:188-198 | on a little-endian machine it leaves the buffer as it is |
| Md5.PaddedLength | src/CommonTools/Md5/Md5.cpp:29-61 | message and padding fill whole blocks |
| Md5.PaddingMeans | src/CommonTools/Md5/Md5.cpp:29-61 | the padding is a one bit, zeros, and in eight bytes the length in bits modulo 2^64; it fills up to a multiple of 64 bytes and is no longer than needed |
| Md5.AbsorbConcat | src/CommonTools/Md5/Md5.cpp:90-96 | hashing block-aligned data and then more is hashing the concatenation |
| Md5.CounterAdds | src/CommonTools/Md5/Md5.cpp:67-71 | the two 32-bit words hold 8 times the length modulo 2^64, with the carry |
| Md5.Hasher.Init | src/CommonTools/Md5/Md5.cpp:16-27 | the empty message, whatever the buffer held before |
| Md5.Hasher.CountBits | src/CommonTools/Md5/Md5.cpp:67-73 | the bit count grows by the length added, and the old tail length is returned |
| Md5.Hasher.CompressBlocks | src/CommonTools/Md5/Md5.cpp:90-96 | the block loop absorbs every full block of the data |
| Md5.Hasher.Update | src/CommonTools/Md5/Md5.cpp:63-101 | the message grows by the data: chain = fold over full blocks, buffer prefix = tail, count = length |
| Md5.Hasher.Pad | src/CommonTools/Md5/Md5.cpp:29-51 | 0x80 and zeros up to byte 56, in one more block when the tail is under 56 bytes and two otherwise |
| Md5.FinalBlocks | src/CommonTools/Md5/Md5.cpp:29-61 | tail, padding and count words are message plus the padding of sections 3.1 and 3.2 of RFC 1321 |
| Md5.Hasher.Final | src/CommonTools/Md5/Md5.cpp:29-61 | the digest of the message by the one-shot definition |
| Md5.HashChunks | src/CommonTools/Md5/Md5.cpp:16-101 | any split of a message into updates gives the same digest |
| Md5.HashMd5 | src/CommonTools/Md5/Md5.cpp:16-186 | the MD5 digest of the message, however it is split |
| Md5Test.DigestOfAbc | src/CommonTools/Md5/Md5.cpp:16-186 | the digest of "abc" is the one section A.5 of RFC 1321 gives, byte by byte |
| Sharding.StepRefines | src/redisCommon/data_adapter.cpp:55-237 | a request sent to the server of its keys gets the flat store's answer and keeps the stores in agreement |
| Sharding.ShardedRefinesFlat | src/redisCommon/data_adapter.cpp:55-237 | any sequence of well-routed requests over any number of servers gets the answers of one map and leaves its contents |
| Sharding.OneServerRefinesFlat | src/redisCommon/data_adapter.cpp:133-190 | with one server moves and sorted-set insertions are right too |
| Sharding.PutOrderIsRightIff | src/redisCommon/data_adapter.cpp:179-190 | an insertion gets the right answer and keeps agreement exactly when the score chooses the key's server, or is no number, or both entries are no sorted sets, or the member stands at that score and the other server has a sorted set or nothing |
| Sharding.MoveIsRightIff | src/redisCommon/data_adapter.cpp:133-147 | a move gets the right answer and keeps agreement exactly when both keys have one server, or the first is no set, or the second is refused in both places, or in neither and the member is not in the first set or already in the second |
| Sharding.StrayMove | src/redisCommon/data_adapter.cpp:133-147 | when a move on the wrong server still gives the right answer and contents |
| Sharding.MisroutedRequests | src/redisCommon/data_adapter.cpp:133-190 | for every hash and any keys it sends to different servers, a move and an insertion go wrong |
| Sharding.MisroutedExample | src/redisCommon/data_adapter.cpp:133-190 | two servers, one of them empty, where both go wrong, for every hash that tells the keys apart |
| Sharding.StandsIff | src/redisCommon/data_redis.cpp:339-346 | an insertion changes nothing exactly when the member stands at that score already |
| RankedSets.RunKeepsTidy | src/redisCommon/data_redis.cpp:339-346 | every run of requests keeps all sorted sets in order, each member once |
| RankedSets.StandsInOrdered | src/redisCommon/data_redis.cpp:339-346 | in an ordered set standing at a score is being in the set with it |
| RankedSets.PutOrderAfterAnyRun | src/redisCommon/data_adapter.cpp:179-190 | on any store that requests can make, when a misrouted insertion is right, in terms of membership |
| Sharding.ReadingChangesNothing | src/redisCommon/data_adapter.cpp:55-69 | reads answer from the key's own server and change nothing |
| RedisEffects.AddCountsUp | src/redisCommon/data_redis.cpp:658-706 | a number is counted up, nothing counts as zero, and anything else is refused and kept |
| RedisEffects.NumberIsDecimal | src/redisCommon/data_redis.cpp:658-706 | one more digit on the right is ten times the number and the digit |
| RedisEffects.NumberOfOneDigit | src/redisCommon/data_redis.cpp:658-706 | a digit, with or without a minus sign, is its own value |
| RedisEffects.AtoiIsNumber | src/UserQueryUpdate/UserQueryUpdate.cpp:597-632 | the program reads a stored 32-bit number as the server counts it |
| RedisEffects.InsertPlaces | src/redisCommon/data_redis.cpp:339-346 | an insertion gives one member its score, keeps all others, and keeps the order by score and then by member |
| RedisEffects.BeforeIff | src/redisCommon/data_redis.cpp:339-346 | members are compared at their first difference, a prefix first |
| RedisEffects.MoveMoves | src/redisCommon/data_redis.cpp:431-440 | a member leaves the first set for the second exactly when both are sets, differ, and it is in the first |
| DataAdapter.Adapter.ShardOf | src/redisCommon/data_adapter.cpp:55-63 | the server depends on the string alone, whatever the shared hasher was used for before |
| DataAdapter.ServerOf | src/redisCommon/data_adapter.cpp:29-63 | the server is the first eight bytes of the string's MD5 digest modulo the number of servers |
| DataAdapter.KeyOfAbc | src/redisCommon/data_adapter.cpp:55-63 | the key "abc" is hashed to the number its published digest starts with, lowest byte first |
| DataAdapter.Adapter.Serve | src/redisCommon/data_adapter.cpp:55-237 | any sequence of well-routed requests through the adapter gets the answers of one flat store and leaves the servers in agreement with it |
| DataAdapter.Adapter.UserGet | src/redisCommon/data_adapter.cpp:55-69 | the non-empty string under the key on its server, or failure |
| DataAdapter.Adapter.UserIncr | src/redisCommon/data_adapter.cpp:71-85 | on the server of the key, no other entry anywhere changing: a missing key becomes "1", a number one more with its expiry kept, anything else is refused; with an expiry argument all is refused and kept |
| DataAdapter.Adapter.UserIncrBy | src/redisCommon/data_adapter.cpp:87-101 | on the server of the key, no other entry anywhere changing: the same by the amount when it is positive and by one otherwise |
| DataAdapter.Adapter.UserPut | src/redisCommon/data_adapter.cpp:103-116 | on the server of the key, no other entry anywhere changing: the text without expiry, and success |
| DataAdapter.Adapter.UserSadd | src/redisCommon/data_adapter.cpp:117-131 | on the server of the key, no other entry anywhere changing: the set with the member added, a set of its own when there was none, refusal when something else is there |
| DataAdapter.Adapter.UserSmove | src/redisCommon/data_adapter.cpp:133-147 | on the source key's server, no other entry changing: the member leaves the first set for the second when both are sets and it is in the first, an empty set is gone, and a key with something else refuses |
| DataAdapter.Adapter.UserSmembers | src/redisCommon/data_adapter.cpp:148-163 | the members on the key's server, nothing changed |
| DataAdapter.Adapter.UserDel | src/redisCommon/data_adapter.cpp:165-178 | always fails and changes nothing, because its command is malformed |
| DataAdapter.Adapter.UserPutOrderSet | src/redisCommon/data_adapter.cpp:179-190 | on the server chosen by the score, no other entry changing: one member gets the score and all others keep theirs, in order; a score that is no number, or something else under the key, refuses |
| DataAdapter.Adapter.UserGetSortedSet | src/redisCommon/data_adapter.cpp:192-205 | the front member on the key's server; with no set, the caller's own text, and success if it has one |
| DataAdapter.Adapter.UserRemoveSortedSet | src/redisCommon/data_adapter.cpp:207-223 | on the server of the key, no other entry anywhere changing: the sorted set without its front entry, gone when it had no other, refusal when something else is there |
| DataAdapter.Adapter.UserPutExpire | src/redisCommon/data_adapter.cpp:225-237 | on the server of the key, no other entry anywhere changing: the text with the expiry when it is positive, and success |
| Settlement.RebuiltIff | src/UserQueryUpdate/UserQueryUpdate.cpp:601-621 | the member rebuilt from its parts is the original exactly when it has four parts |
| Settlement.DueAnyIff | src/UserQueryUpdate/UserQueryUpdate.cpp:592-636 | for a member of any form: its own status decides, and count, limit and expiry under the text rebuilt from its parts |
| Settlement.DueIff | src/UserQueryUpdate/UserQueryUpdate.cpp:592-636 | an order of four parts is due exactly when its status reads as 0, its count has reached its limit and it has no expiry, under its own four keys written out |
| Settlement.KeysApart | src/UserQueryUpdate/UserQueryUpdate.cpp:592-627 | no key that settling one order writes is a key that decides about another |
| Settlement.LeavesIff | src/UserQueryUpdate/UserQueryUpdate.cpp:635-640 | a due order leaves the first set exactly when its member has four parts |
| SettlementAny.PassWithAnyMembers | src/UserQueryUpdate/UserQueryUpdate.cpp:584-652 | with members of any form: a member leaves exactly when some due member is rebuilt to it, and is then in the second set; the union is kept and disjoint sets stay disjoint |
| SettlementAny.DueIsKept | src/UserQueryUpdate/UserQueryUpdate.cpp:595-640 | settling one member, of any form, changes nothing about whether another is due |
| SettlementAny.OnlyFourPartTextsMove | src/UserQueryUpdate/UserQueryUpdate.cpp:601-638 | whatever leaves the first set has four parts |
| Settlement.LookupAfterSettling | src/UserQueryUpdate/UserQueryUpdate.cpp:635-640 | what settling one due order makes of every key |
| Settlement.PassSettlesTheDue | src/UserQueryUpdate/UserQueryUpdate.cpp:584-652 | a pass ends in the store that settling exactly the orders finished at its start makes, key by key, in whatever order they are visited |
| SettlementOrder.OrderAfterPass | src/UserQueryUpdate/UserQueryUpdate.cpp:592-640 | one open order after a pass, its keys written out: a finished one has status 1 and has changed sets, any other is where it was with the status it had |
| SettlementOrder.UserAfterPass | src/UserQueryUpdate/UserQueryUpdate.cpp:622-640 | the sorted set "user#orderid" loses one front entry for each of the user's finished orders |
| SettlementOrder.PartsOfOrder | src/UserQueryUpdate/UserQueryUpdate.cpp:601-622 | the four parts of "user#repository#item#subscription" are what the program cuts it into |
| SettlementOrder.PartsOfMember | src/UserQueryUpdate/UserQueryUpdate.cpp:601-619 | a member of any number of parts: the searches go around, so too few parts are used again from the first one and what is over is left out |
| Settlement.PassConservesOrders | src/UserQueryUpdate/UserQueryUpdate.cpp:584-652 | the union of both sets is kept, disjoint sets stay disjoint, members move exactly when due, settled orders have status 1 |
| Settlement.PassPopsSortedSets | src/UserQueryUpdate/UserQueryUpdate.cpp:639-639 | a user's sorted set loses one front entry for each of the user's settled orders |
| Settlement.PassOrderIsIrrelevant | src/UserQueryUpdate/UserQueryUpdate.cpp:588-588 | the order of iteration makes no difference |
| Settlement.SecondPassDoesNothing | src/UserQueryUpdate/UserQueryUpdate.cpp:584-652 | a second pass right after the first changes nothing |
| Settlement.HistoryBalances | src/UserQueryUpdate/UserQueryUpdate.cpp:573-652 | over any history of passes, new orders and other traffic, settled = settled before + found due, open = all the others |
| SettlementPass.Settler.SettleMember | src/UserQueryUpdate/UserQueryUpdate.cpp:590-645 | through the adapter, the effect of settling one member on the flat store |
| SettlementPass.Settler.IsDue | src/UserQueryUpdate/UserQueryUpdate.cpp:595-635 | the nested tests in source order decide whether the member is finished by its status and the count, limit and expiry of the text rebuilt from its parts, which of four parts is the member itself |
| SettlementPass.Settler.SettlePass | src/UserQueryUpdate/UserQueryUpdate.cpp:584-652 | the loop visits every member once and ends in the store of a flat pass |
| SettlementPass.OneServerIsEnough | src/UserQueryWorkThreads/UserQueryWorkThreads.cpp:110-115 | with one server both order sets are on the same server |
| ConfText.TrimLeft | src/CommonTools/Conf/Conf.cpp:239-247 | in place, the string without its leading blanks, nothing else in the buffer changed |
| ConfText.TrimRight | src/CommonTools/Conf/Conf.cpp:249-260 | in place, the string without remark and trailing blanks; defined exactly when something is left or the string was empty |
| ConfText.KeyValue | src/CommonTools/Conf/Conf.cpp:185-205 | key and value on either side of the first '=', both in the buffer |
| ConfigReader.Trim | src/CommonTools/Conf/Conf.cpp:231-237 | both trims; defined exactly when the first visible character is no remark sign |
| ConfigReader.IsValid | src/CommonTools/Conf/Conf.cpp:207-220 | false exactly on blank lines and remarks in the first column |
| ConfigReader.Examine | src/UserQueryMain/UserQueryMain.cpp:175-186 | what a section reader makes of a line is its classification |
| ConfigReader.ExamineEarly | src/UserQueryMain/UserQueryMain.cpp:128-134 | the same before the first header, where any remark is bad |
| ConfigReader.Reader.GetLine | src/CommonTools/Conf/Conf.cpp:40-54 | one read takes the text through its first newline, or 1023 characters, or what is left; the buffer holds it up to its first NUL |
| ConfigReader.Reader.FindHeader | src/UserQueryMain/UserQueryMain.cpp:128-136 | skips to the first header |
| ConfigReader.Reader.ReadSection | src/UserQueryMain/UserQueryMain.cpp:289-322 | a section reader consumes lines up to the next header exactly as the single fold does, and terminates |
| ConfigReader.Reader.Load | src/UserQueryMain/UserQueryMain.cpp:114-167 | the nested loops compute the meaning of the file, a single left-to-right fold |
| Config.CompletesIff | src/UserQueryMain/UserQueryMain.cpp:128-164 | reading completes exactly when there is a header, all headers are recognised, no remark precedes the first and none after it is indented |
| Config.FoldCompletesIff | src/UserQueryMain/UserQueryMain.cpp:138-164 | the same for the lines after a header |
| Config.LastWriteWins | src/UserQueryMain/UserQueryMain.cpp:138-164 | every parameter has the value of the last line that sets it under the nearest header before that line, or its old value |
| Config.MeaningIsFold | src/UserQueryMain/UserQueryMain.cpp:128-138 | lines before the first header are skipped or undefined; the rest is the fold |
| Config.SettingRoundTrip | src/CommonTools/Conf/Conf.cpp:185-260 | key and value are read back whatever blanks and remark surround them |
| Config.HeaderRoundTrip | src/CommonTools/Conf/Conf.cpp:222-260 | so is a header |
| Config.UnknownHeaderSticks | src/UserQueryMain/UserQueryMain.cpp:138-164 | a file with one unrecognised header never finishes |
| Config.EarlyRemarkIsBad | src/UserQueryMain/UserQueryMain.cpp:128-134 | a file that starts with a remark is undefined |
| GatewayConfig.TargetIff | src/UserQueryMain/UserQueryMain.cpp:138-525 | a setting reaches a parameter exactly when its key and section are the parameter's, and with its converted value |
| GatewayFile.LastSettingWins | src/UserQueryMain/UserQueryMain.cpp:114-525 | after any file read to its end every parameter of the gateway has the value of the last line with its key under its section, or its old value |
| GatewayFile.LoadGateway | src/UserQueryMain/UserQueryMain.cpp:114-167 | from the text of the file: loading completes exactly when the file is readable, and then every parameter is so |
| ConfigFile.LinesOfPrinted | src/CommonTools/Conf/Conf.cpp:40-54 | a file printed from lines without newline or NUL and shorter than 1023 is read line by line |
| ConfigFile.PrintedSettingIsLoaded | src/UserQueryMain/UserQueryMain.cpp:114-525 | a file with the header and the key of a parameter gives it the converted value and changes nothing else, for every parameter |
| ConfigFile.SmallFile | src/UserQueryMain/UserQueryMain.cpp:114-214 | a file of two sections, from its characters: rank 3 and 8 threads |
| ConfigFile.LogPlace | src/UserQueryMain/UserQueryMain.cpp:169-214 | the keys of [LOG] and the parameters and values they stand for |
| ConfigFile.HivePlace | src/UserQueryMain/UserQueryMain.cpp:215-246 | the same for [TRAFFICHIVELOG] |
| ConfigFile.StatisticsPlace | src/UserQueryMain/UserQueryMain.cpp:247-287 | the same for [TRAFFICSTATISTICS] |
| ConfigFile.RedisPlace | src/UserQueryMain/UserQueryMain.cpp:289-322 | the same for [REDISSERVER] |
| ConfigFile.LocalPlace | src/UserQueryMain/UserQueryMain.cpp:289-322 | the same for [LOCALSERVER] |
| ConfigFile.MysqlPlace | src/UserQueryMain/UserQueryMain.cpp:376-417 | the same for the address in [MYSQLSERVER] |
| ConfigFile.MysqlUserPlace | src/UserQueryMain/UserQueryMain.cpp:376-417 | and for its user, password and database |
| ConfigFile.ThreadsPlace | src/UserQueryMain/UserQueryMain.cpp:500-525 | the same for [WORKTHREADS] |
| ConfigFile.MonitorPlace | src/UserQueryMain/UserQueryMain.cpp:325-373 | the same for the addresses in [MONITORAPIINFO] |
| ConfigFile.MailPlace | src/UserQueryMain/UserQueryMain.cpp:325-373 | for the user and password of its mail |
| ConfigFile.MailTextPlace | src/UserQueryMain/UserQueryMain.cpp:325-373 | for sender and receiver |
| ConfigFile.MailSubjectPlace | src/UserQueryMain/UserQueryMain.cpp:325-373 | and for subject and text |
| GatewayFile.GoodsSectionSticks | src/UserQueryMain/UserQueryMain.cpp:147-151 | the section whose branch is commented out makes the program hang |
| UrlApis.ReadUrls | src/UserQueryMain/UserQueryMain.cpp:448-490 | the nested splitting makes one entry of every five fields, counted on from record to record |
| UrlApis.FivesAreRecordsIff | src/UserQueryMain/UserQueryMain.cpp:463-484 | the entries are made of the records' fields exactly when every record has five non-empty ones |
| UrlApis.EntriesAreRecords | src/UserQueryMain/UserQueryMain.cpp:463-484 | then each record is one entry, later ones of a name replacing earlier ones |
| UrlApis.ShortRecordShifts | src/UserQueryMain/UserQueryMain.cpp:463-484 | a record one field short takes its last field from the next record |
| UrlApis.UrlsRoundTrip | src/UserQueryMain/UserQueryMain.cpp:448-490 | a printed list of entries is read back exactly |
| CText.AtolMeans | src/UserQueryMain/UserQueryMain.cpp:470-480 | numbers are read after blanks, with an optional sign and whatever follows, and held between the ends of 64 bits |
| CText.AtolOfNothing | src/UserQueryMain/UserQueryMain.cpp:470-480 | text that does not start with a number reads as 0 |
| Base64.DecodeEncode | src/CommonTools/Base64Encode/Base64.cpp:11-93 | decoding undoes encoding for every byte string and both alphabets |
| Base64.EncodeDecodeIff | src/CommonTools/Base64Encode/Base64.cpp:11-93 | encoding undoes decoding on exactly the canonical padded texts |
| Base64.EncodedIsCanonical | src/CommonTools/Base64Encode/Base64.cpp:34-48 | every encoding is canonical: padded, unused bits zero |
| Base64.EncodedLength | src/CommonTools/Base64Encode/Base64.cpp:11-52 | the output has 4 * ceil(n / 3) characters |
| Base64.SecondAlphabet | src/CommonTools/Base64Encode/Base64_2.cpp:4-52 | the second encoder writes '-' where the first writes '+' |
| Base64Table.EncodeThree | src/CommonTools/Base64Encode/Base64.cpp:4-32 | three bytes are four characters of the written-out alphabet, six bits each from the left, before the encoding of the rest |
| Base64Table.EncodeOne | src/CommonTools/Base64Encode/Base64.cpp:34-48 | one byte at the end is two characters and "==" |
| Base64Table.EncodeTwo | src/CommonTools/Base64Encode/Base64.cpp:34-48 | two bytes at the end are three characters and "=" |
| Base64Table.DecodeFour | src/CommonTools/Base64Encode/Base64.cpp:61-76 | four characters of the alphabet are three bytes, before the decoding of the rest |
| Base64Table.DecodeEnd | src/CommonTools/Base64Encode/Base64.cpp:61-92 | before the end or a foreign character, one character is nothing, two are one byte, three are two |
| Base64Loops.EncodeLoop | src/CommonTools/Base64Encode/Base64.cpp:11-52 | the loop over arrays of three and four bytes computes the encoding by 24-bit groups of section 4 of RFC 4648 |
| Base64Loops.DecodeLoop | src/CommonTools/Base64Encode/Base64.cpp:54-93 | the loop computes the decoding by groups and stops at the first foreign character |
| Base64Loops.DecodeTail | src/CommonTools/Base64Encode/Base64.cpp:78-90 | the filler that is looked up as 255 does not reach the bytes that are kept |
| Base64Loops.ToSextets | src/CommonTools/Base64Encode/Base64.cpp:21-24 | the masks and shifts are the base-64 digits of the group |
| Base64Loops.ToOctets | src/CommonTools/Base64Encode/Base64.cpp:68-70 | the masks and shifts are the bytes of the group, as far as its symbols are known |
| Cipher.DecryptEncrypt | src/CommonTools/Base64Encode/Base64.cpp:95-144 | decrypting undoes encrypting for every byte string and both alphabets |
| Cipher.EncryptDecryptIff | src/CommonTools/Base64Encode/Base64.cpp:95-144 | encrypting undoes decrypting on exactly the canonical texts whose last byte is the mask number |
| Cipher.SecondCipher | src/CommonTools/Base64Encode/Base64_2.cpp:95-133 | the second cipher's text is the first's with '-' for '+' |
| Cipher.EncryptLoop | src/CommonTools/Base64Encode/Base64.cpp:95-123 | the loop computes the encryption |
| Cipher.DecryptLoop | src/CommonTools/Base64Encode/Base64.cpp:124-144 | the loop computes the decryption, and nothing when nothing is decoded |
| Cipher.XorBitsTwice | src/CommonTools/Base64Encode/Base64.cpp:132-137 | masking twice is masking never |
| Base64Table.EncryptedIs | src/CommonTools/Base64Encode/Base64.cpp:95-123 | an encrypted text is the encoding of its bytes in reverse, each with the bits of 20 flipped, and of the byte 20 |
| Base64Table.DecryptedIs | src/CommonTools/Base64Encode/Base64.cpp:124-144 | decrypting flips the bits of the last byte's remainder by 32, as a signed number, in all others and reverses them; it fails exactly when nothing is decoded |
| StrTok.NextToken | src/UserQueryUpdate/UserQueryUpdate.cpp:149-168 | one call of strtok_r: the first token in place, the rest still to come |
| StrTok.Cut | src/UserQueryUpdate/UserQueryUpdate.cpp:149-168 | all tokens, each a C string in the buffer |
| Rows.PrintRow | src/CommonTools/Mysql/mysqlClient.cpp:240-264 | the loop prints every column followed by ';', NULL for a missing one |
| Rows.TokensOfRecord | src/CommonTools/Mysql/mysqlClient.cpp:240-264 | the tokens of a printed row are its non-empty columns in order |
| Rows.ParsesIff | src/UserQueryUpdate/UserQueryUpdate.cpp:170-182 | a row of eleven columns can be parsed exactly when none is empty, and which column then is which field |
| Rows.ParseRecord | src/UserQueryUpdate/UserQueryUpdate.cpp:133-203 | the in-place parser computes the settings of the tokens |
| Rows.RowRoundTrip | src/UserQueryUpdate/UserQueryUpdate.cpp:133-203 | settings come back from their printed row field by field, parameters included |
| Cache.IsEqual | src/UserQueryUpdate/UserQueryUpdate.cpp:396-433 | equal sizes and one-way lookup decide agreement of two maps in keys and entries |
| Cache.MapIsEqual | src/UserQueryUpdate/UserQueryUpdate.cpp:396-433 | true exactly when the two maps are equal |
| Cache.MapGateWayConfigIsEqual | src/UserQueryUpdate/UserQueryUpdate.cpp:456-493 | true exactly when the names agree and the entries are equal but for the request parameters |
| Cache.Users.Swap | src/UserQueryUpdate/UserQueryUpdate.cpp:435-454 | the cache becomes the source map |
| Cache.Gateway.Swap | src/UserQueryUpdate/UserQueryUpdate.cpp:495-520 | the cache becomes the source map, field by field |
| Cache.Gateway.Refresh | src/UserQueryUpdate/UserQueryUpdate.cpp:768-809 | print, parse, collect, compare, swap: the cache is kept when it agrees and replaced when not |
| Cache.FirstEntryWins | src/UserQueryUpdate/UserQueryUpdate.cpp:768-775 | a snapshot holds for each name its first row and nothing else |
| Cache.UpToDateIff | src/UserQueryUpdate/UserQueryUpdate.cpp:805-809 | a refresh leaves the snapshot exactly unless names and nine fields agree and some name's request parameters differ |
| Cache.StaleParameters | src/UserQueryUpdate/UserQueryUpdate.cpp:471-479 | a change of request parameters alone is not noticed |
| Cache.CacheFollowsTable | src/UserQueryUpdate/UserQueryUpdate.cpp:768-809 | over any run of refreshes the cache agrees with the last snapshot in names and nine fields, and is the first snapshot of the last stretch of alike ones |
| Cache.CacheIsCurrentIff | src/UserQueryUpdate/UserQueryUpdate.cpp:768-809 | given the start of the last stretch, the cache is the last snapshot exactly when no request parameter changed since |
| Cache.LastStretchExists | src/UserQueryUpdate/UserQueryUpdate.cpp:768-809 | every run has a last stretch of alike snapshots, or all are alike to the cache it started with |
| Cache.CacheAfterAnyRun | src/UserQueryUpdate/UserQueryUpdate.cpp:768-809 | over any run the cache is the first snapshot of the last stretch or what it was, and is the last snapshot exactly when the request parameters agree |
| Cache.TableReachesCache | src/UserQueryUpdate/UserQueryUpdate.cpp:768-809 | a table printed from storable entries with distinct names leaves exactly those entries in the cache, exactly unless only request parameters had changed |
| Cache.RowsParseIff | src/UserQueryUpdate/UserQueryUpdate.cpp:768-775 | a table can be read exactly when every row can, row by row |
| Cache.CacheStays | src/UserQueryUpdate/UserQueryUpdate.cpp:805-809 | snapshots that all agree with the cache never change it |
| ServerList.ListRoundTrip | src/redisCommon/data_redis.cpp:16-42 | a printed list is read back exactly, a missing index being 0 |
| ServerList.WorkerListParses | src/UserQueryWorkThreads/UserQueryWorkThreads.cpp:110-115 | the worker's string is read back as its server exactly when the count is 1 |
| ServerList.RedisServList | src/redisCommon/data_redis.cpp:16-42 | the loop over three lists computes the parse, with failure and undefined entries told apart |
| ServerList.EntryParts | src/redisCommon/data_redis.cpp:27-38 | host, port and index of an entry are cut at ':' and the first ',' after it |
| ServerList.EntryErrors | src/redisCommon/data_redis.cpp:22-31 | an entry without ':' fails, one of 256 characters or more or without ';' is undefined |
| Url.DecodeEncode | src/CommonTools/UrlEncode/UrlEncode.cpp:20-60 | decoding undoes encoding for every NUL-free text |
| Url.EncodeDecodeIff | src/CommonTools/UrlEncode/UrlEncode.cpp:20-60 | encoding undoes decoding on exactly the texts an encoder writes |
| Url.EncodedLength | src/CommonTools/UrlEncode/UrlEncode.cpp:20-35 | between n and 3n characters |
| Url.DecodedLength | src/CommonTools/UrlEncode/UrlEncode.cpp:39-60 | at most n characters |
| Url.UnhexHex | src/CommonTools/UrlEncode/UrlEncode.cpp:7-16 | reading two written digits gives the byte back |
| UrlTable.EncodedCharacter | src/CommonTools/UrlEncode/UrlEncode.cpp:13-35 | letters, digits and four marks stay, a space becomes '+', anything else '%' and two capital digits |
| UrlTable.DecodedEscape | src/CommonTools/UrlEncode/UrlEncode.cpp:39-50 | '%' and two hexadecimal digits of either case are one character |
| UrlTable.DecodedCharacter | src/CommonTools/UrlEncode/UrlEncode.cpp:51-57 | other characters stand for themselves, '+' for a space, and a '%' with less than two after it is dropped |
| UrlTable.UpToNulStops | src/CommonTools/UrlEncode/UrlEncode.cpp:55-60 | the decoded text ends before its first zero |
| Url.UrlEncode | src/CommonTools/UrlEncode/UrlEncode.cpp:20-35 | the loop writes the encoding inside a buffer of 3n + 1 bytes |
| Url.UrlDecode | src/CommonTools/UrlEncode/UrlEncode.cpp:39-60 | the loop writes the decoding inside a buffer of n + 1 bytes, cut at a decoded NUL |
| Domain.GetUrlDomain | src/UserQueryTask/UserQueryTask.cpp:54-99 | the loops append names, kept suffixes and the last label of the host, in that order |
| Domain.CutIsPartition | src/UserQueryTask/UserQueryTask.cpp:69-88 | the label loop is a stable partition by the suffix list, dropping "www" before the last label |
| Domain.DomainOfUrl | src/UserQueryTask/UserQueryTask.cpp:54-99 | the domain of a URL with or without a scheme and a path, from the labels of its host |
| Domain.ShopDomain | src/UserQueryTask/UserQueryTask.cpp:54-99 | "http://www.a.com.shop.cn/x" has the domain "a.shop.com.cn" |
| Domain.PartitionKeepsLabels | src/UserQueryStruct/UserQueryStruct.h:399-423 | no label but "www" is lost or repeated |
| Domain.KnownDomainTwice | src/UserQueryTask/UserQueryTask.cpp:54-99 | the domain of a domain is the same domain |
| Domain.DomainTwice | src/UserQueryTask/UserQueryTask.cpp:54-99 | the same for any list of suffixes without the empty one |
| Statistics.NothingIsLost | src/UserQueryCount/UserQueryCount.cpp:100-149 | over any run, for each user and each of the four counters a line shows: incremented = written in the file + collected + with the workers, modulo 2^64 |
| Statistics.ErrorsAreDiscarded | src/UserQueryCount/UserQueryCount.cpp:118-149 | errors are collected and thrown away when a report is reset: counted = thrown away + held, and leaving their increments out changes no column of any line |
| Statistics.WriteKeepsErrorsIff | src/UserQueryCount/UserQueryCount.cpp:118-149 | a report loses no errors of a user exactly when it holds none before it is written |
| Statistics.NoErrorIsLostIff | src/UserQueryCount/UserQueryCount.cpp:100-149 | over any run no error is lost exactly when no report held any when it was reset |
| Statistics.OneErrorIsLost | src/UserQueryCount/UserQueryCount.cpp:118-149 | one error, collected and reported, is counted once and then nowhere |
| Statistics.OneIsShown | src/UserQueryCount/UserQueryCount.cpp:118-149 | one count of any other kind, collected and reported, is a one in its own column of the user's line |
| Statistics.CountsBalance | src/UserQueryCount/UserQueryCount.cpp:100-149 | every merged counter: incremented = in reports when they were reset + held, modulo 2^64 |
| Statistics.WrittenIsFlushed | src/UserQueryCount/UserQueryCount.cpp:115-118 | for the four shown counters the file gains what the reports held when they were reset |
| Statistics.StepHeld | src/UserQueryStruct/UserQueryStruct.h:236-263 | merging and clearing keep what is held of a merged counter, a report takes its part away, an increment adds one |
| Statistics.AddIsModular | src/UserQueryStruct/UserQueryStruct.h:244-250 | the counters add modulo 2^64 |
| Statistics.TotalsAreNeverReported | src/UserQueryStruct/UserQueryStruct.h:239-255 | the three counters that merging leaves out are never in a report |
| Statistics.MergeOrderIsIrrelevant | src/UserQueryCount/UserQueryCount.cpp:215-223 | any order of merging the workers gives the same report |
| Statistics.MergeCommutes | src/UserQueryStruct/UserQueryStruct.h:239-255 | two merges commute |
| Statistics.Collector.AddReport | src/UserQueryStruct/UserQueryStruct.h:239-255 | the loop adds five counters of every user modulo 2^64, starting new users at zero, and keeps the three totals |
| Statistics.Collector.Count | src/UserQueryTask/TaskMain/TaskMain.cpp:333 | one counter of one user is one more modulo 2^64, and the user's others stay |
| Statistics.Collector.CollectOne | src/UserQueryCount/UserQueryCount.cpp:219-222 | one worker is merged and cleared |
| Statistics.Collector.CollectAll | src/UserQueryCount/UserQueryCount.cpp:215-223 | the report gains every worker's counts and all workers are cleared |
| Statistics.Collector.WriteReport | src/UserQueryCount/UserQueryCount.cpp:115-149 | the four counters of every user are written, each in its column, and a new report started |

## Left out

- Worker threads as loops: a worker's body is a set of steps of the state machine, not a method, because its outer loop has no end; taken as data, its queues are sequences, not shared memory.
- Failing lock, unlock and signal calls other than the try-lock, and status queues read without a lock: steps are atomic.
- Liveness under fairness: what is proved is that no thread with work is stuck, that a drain ends and that a queued task is taken after a bounded number of its worker's steps, not that the scheduler grants them.
- `BdxRunTask` and everything inside a task: any return code.
- `Md5Block`: that the constants are sines is not derived; they are those RFC 1321 lists.
- RedisEffects.AddCountsUp: numbers are unbounded and may start with zeros, where a server refuses both.
- Redis replies that fail on the wire, expiry by time, and scores that are not integers.
- Settlement.HistoryBalances: a new order must have four parts and must not be settled already, because the call that would add one is commented out in the program, so nothing there checks members.
- SettlementPass.Settler.SettlePass: both order sets must be on one server, as they are with a single server; moving between servers is what `MoveIsRightIff` describes.
- The report of a settled order to DataHub, and the date test that starts a pass.
- UrlApis.ReadUrls: the first `URLS` line of a section. When the fields of a line are not a multiple of five, a second one in the same section uses addresses in the overwritten line buffer, which is not part of this model.
- GatewayConfig.TargetIff: `URLS` is not among the parameters, because it adds to a map instead of setting a value; `UrlApis` has what one line does.
- GatewayFile.LastSettingWins: covers the same parameters.
- The eight section readers are one method with the section as a parameter, because they differ only in their key tests; those are the functions of `GatewayConfig`.
- Fixed-size copies that read past a short value, and buffers without a terminator: a value is cut to 128 characters.
- Parsing rows of the user table: its only use is compiled out; the comparison and the swap of the user map are modelled.
- Rows with more than 1024 fields overflow an array of the parser; the model has no such limit.
- ServerList.RedisServList: how numbers are read is a parameter; `ServerList.Parse` is the instance with `atoi`.
- Log and Hive files, dates, random file names, and SQL text, among it the row of three counters, cut to 32 bits, that goes to MySQL for each line.
- `CTime` and `BdxHtonll`: single-expression claims.
- `replace_all`, SHA-1 and the other `CConf` searches: nothing modelled here calls them.
