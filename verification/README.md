# COOLMUD, a verified model

COOLMUD is a server for a distributed, programmable multi-user world, written in C. This project models its five
hard parts in Dafny and proves what they promise.

- **Object storage.** A write-back cache of hashed buckets with an active and an inactive chain each
  (`CacheSpec`, `CacheChains`, `Cache`), over a chunk file with a block bitmap and an index (`Bitmap`,
  `ChunkStore`), with packing, sizes and unpacking (`PackSpec`, `PackIO`), hash tables (`Buckets`, `Values`) and
  symbol tables (`Symbols`). The stack refines one map from number to object (`CacheProof`, `CacheLost`,
  `CacheEviction`, `CacheOverFile`, `PackProof`, `PackAgain`, `PackKeeps`, `Maps`), down to the file itself (`Database`).
- **Tasks and servers.** The queues of messages and events (`Scheduler`, `Timers`), locks (`Locks`), and calls between
  servers over packets that are lost, doubled and overtaken (`Protocol`, `Agreement`, `Peers`).
- **The wire.** Composing and parsing messages (`Wire`, `WireIO`, `WireProof`, `WireFormat`).
- **The stack machine and the decompiler.** One instruction as a function (`Vm`), the structured language and its
  layout in words (`VmLang`), the machine with its stack array and a method for every opcode (`VmMachine`), that running the words
  does what the statements mean (`VmProof`, `VmStmts`, `VmRuns`, `VmMethod`), what operators and loops come to on values
  (`Operators`, `Loops`), the decompiler (`Decode`, `DecodeProof`, `DecodeStmts`, `Decompiler`), the grammar that reads
  its lines back (`LineReader`) and the brackets it prints (`Brackets`).
- **Method search** along several parents (`Hierarchy`, `MethodSearch`, `MethodFinder`, `Parents`).

Code that changes things step by step is a class or a method with loops, tied by its contract to a function on
values; the lemmas are about those functions. `Wrappers` and `Slides` are helpers.

`dafny verify dfyconfig.toml` checks everything.

## Findings

Where the code does not do what it is meant to do, the model follows the code.

- **A put after a delete can be lost** (`src/src/cache.c:371`, `src/src/cache.c:401`). A cell marked dead stays dead when it
  is put to: put 7, delete 7, put 7, get 7 finds nothing (`CacheProof.PutAfterDelIsLost`). The cache reads as one map
  after every operation exactly when no put finds a dead cell of its number (`CacheLost.RunRefinesIff`), which callers
  are sure of when they never put a number they have deleted (`CacheLost.FreshRunRefines`). The object comes back with
  the next sync or when its cell is taken (`CacheLost.LostUntilSync`, `CacheLost.LostUntilEvicted`).
- **An allocation may never return** (`src/src/dbmchunk.c:288`, `src/src/dbmchunk.c:296`). Growing the bitmap leaves one byte as
  malloc gave it. An empty file, all fresh bytes ones: after an object of 487 blocks a search for 481 goes on for ever
  (`Bitmap.Crowd`). It returns exactly when `Bitmap.EndsIff` says; up to 480 blocks always (`Bitmap.SmallFits`).
- **A break out of a while loop may go astray** (`src/src/opcodes1.c:651`). The scan for WHILE reads operands as opcodes:
  `while (399) break;` goes to word 399 (`VmMethod.BreakAstray`). Exact condition: `VmMethod.WhileBreakIff`.
- **A range loop may go astray** (`src/src/opcodes1.c:566-567`). With bounds that are not numbers FORRNG raises E_TYPE; in a
  method that ignores it the machine goes on with the number of the loop's variable as an opcode and ends with E_INTERNAL
  (`VmMethod.RangeStrays`, words STRPUSH 0 STRPUSH 0 FORRNG 0 8 STOP STOP). Exact condition: `VmMethod.StrayIff` for the
  method's ignored errors, `VmMethod.InternalIff` for a run.
- **Printed text may not read back** (`src/src/decode.c:591-789`). In full brackets a splice cannot be read. A negative
  number comes back as the negation of a positive one, but the grammar of cool.y emits no negative NUMPUSH. Exact conditions: `Brackets.PrintParses`, `Brackets.FullPrintParses`.
- **A string on the wire may change** (`src/src/string.c:190-245`). A CR or LF that stands alone becomes a pair.
  Exact condition: `WireProof.CrlfSame`.
- **Parents may form a cycle** (`src/src/utils.c:88`). With 2 a child of the root and 3 a child of 2, 2 may
  become a child of 3 (`Parents.CheckMissesCycle`). Exact condition: `Parents.CheckedIff`.
- **The server may sleep past a deadline** (`src/src/message.c:132`). Of a negative timeout only the seconds are set to zero:
  one task 0.3 s late for a local reply, another due in 0.2 s, and the timeout is 0.7 s (`Scheduler.Oversleeps`). Exact
  condition: `Scheduler.WakesDueIff`, for queues with nothing to do `Scheduler.QuietWakes`, for every call that comes to
  an end `Scheduler.Queues.ProcessQueues`.
- **A return need not mean that anything ran** (`src/src/message.c:102`, `src/src/message.c:259`). A `call_verb` that matches no
  verb is answered with a return; a method can send a message named return, and any reply with the number is taken
  (`Protocol.ReturnWithoutRun`). Exact condition: `Protocol.ReturnMeansRanIff`.
- **A method may run again for one call** (`src/src/serverio.c:147`). A reconnect forgets the last number. At most once for
  every connection (`Protocol.StartedBound`), which is met for every number of them (`Protocol.OnceForEachConnect`).
- The manual says that `&&` and `||` give the value of the left operand, and puts `in` beside `==`; the code pushes
  0 or 1, and puts `in` one level lower. The model follows the code.

## Model

| member | source | states |
|---|---|---|
| CacheProof.RunRefinesMap | src/src/cache.c:143-601 | Any run of gets, puts, deletes, checks, syncs and resets, for any width, depth and eviction pattern, gives the answers of one plain map from number to object, and after a final sync the store is that map; for runs in which no put finds a dead cell of its number. |
| CacheLost.RunRefinesIff | src/src/cache.c:350-480 | For all runs: the cache reads as the plain map after every operation if and only if no put of the run finds a dead cell of its number still cached. |
| CacheLost.FreshRunRefines | src/src/cache.c:84-601 | From cache_init on that condition is met, and the plain map answers, whenever no number is put again after it has been deleted - a condition on the calls alone. |
| CacheLost.LostUntilSync | src/src/cache.c:366-402 | What a lost put comes to: gets and checks of the number find nothing, and after the next cache_sync the object is back. |
| CacheLost.LostUntilEvicted | src/src/cache.c:425-476 | The same when the dead cell is taken for another object before a sync: its dirty contents are written and the object is back. |
| CacheProof.PutTakesEffectIff | src/src/cache.c:366-402 | One put is read back if and only if no dead cell of its number is cached. |
| CacheProof.PutAfterDelIsLost | src/src/cache.c:366-402 | A concrete failing input: put 7, delete 7, put 7 again, get 7 finds nothing. |
| CacheProof.GetRefines | src/src/cache.c:175-320 | A get returns what the number maps to and changes no value of any number, whether it hits, promotes an inactive cell, or misses and evicts. |
| CacheProof.PutRefines | src/src/cache.c:350-480 | A put without a dead cell changes exactly the value of its number and keeps the invariant that clean live cells agree with the store. |
| CacheProof.DelRefines | src/src/cache.c:566-601 | A delete removes exactly its number, from both chains and the store. |
| CacheProof.CheckRefines | src/src/cache.c:535-561 | A check is true if and only if the number maps to an object. |
| CacheProof.ResetRefines | src/src/cache.c:142-165 | A reset changes no value. |
| CacheProof.SyncRefines | src/src/cache.c:490-524 | After a sync the store alone holds the whole map, and no value has changed. |
| CacheProof.InitialRepresents | src/src/cache.c:84-130 | The empty cache maps every number to what is stored. |
| CacheOverFile.StackRefinesMap | src/src/dbmchunk.c:379-408 | The cache over a file that gives back objects packed and unpacked once: every answer of a run is that of one plain map of objects, or that object read back once, and a final sync leaves exactly the map. |
| Database.Serve | src/src/cache.c:143-601 | The whole stack: the cache over the chunk file with its bitmap and index, changed in place, answers every run whose puts find no dead cell and are of storable objects of up to 480 blocks as one plain map does, up to one reading back, and after a final sync what the file holds is exactly the map. |
| Database.CachedFile.Get | src/src/cache.c:175-320 | cache_get over dddb_get and dddb_put: a miss is filled from the file after the dirty tail was written to it. |
| Database.CachedFile.Put | src/src/cache.c:349-480 | cache_put over dddb_put. |
| Database.CachedFile.Del | src/src/cache.c:566-601 | cache_del over dddb_del. |
| Database.CachedFile.Sync | src/src/cache.c:490-524 | cache_sync: every dirty cell is put into the file. |
| PackAgain.ObjectFits | src/src/dbsize.c:22-165 | An object that was read back can be put again, and takes no more room than the one that was put. |
| Database.RereadSmall | src/src/dbmchunk.c:379-408 | So a put of it is met whenever that of the first one was. |
| CacheEviction.RunKeepsActive | src/src/cache.c:214-319 | No run of gets, puts, deletes, checks and syncs takes a number off an active chain. |
| CacheEviction.ReturnedStaysUntilReset | src/src/cache.c:142-165 | An object returned by cache_get stays on its active chain, out of reach of eviction, until the next cache_reset. |
| CacheEviction.EvictsFromOldestEpoch | src/src/cache.c:258-319 | In every reachable state the cell that the next miss of a bucket takes is from the oldest reset epoch of that bucket. |
| CacheChains.CacheLst.Dechain | src/src/cache.c:214-238 | Taking a cell out of the doubly linked inactive chain, first, last or middle, leaves both chains well formed without exactly that cell. |
| CacheChains.CacheLst.Rechain | src/src/cache.c:142-165 | The pointer updates of a reset put the active chain, in order, before the inactive one. |
| CacheChains.CacheLst.Activate | src/src/cache.c:214-244 | A cell found inactive moves to the head of the active chain; the chains hold the same cells. |
| CacheChains.CacheLst.Install | src/src/cache.c:425-476 | A miss reuses the inactive tail, handing back its contents for writing if dirty, or makes a new cell; both chains stay well formed and disjoint. |
| Cache.ObjectCache.Init | src/src/cache.c:84-130 | cache_init builds width buckets of depth empty cells, and cs_objects counts them. |
| Cache.ObjectCache.Get | src/src/cache.c:175-320 | The pointer program takes the abstract state to that of the specification function, with every chain well formed, cells of distinct chains apart, and cs_objects the number of cells. |
| Cache.ObjectCache.Put | src/src/cache.c:349-480 | The same for cache_put, with its failures. |
| Cache.ObjectCache.Del | src/src/cache.c:566-601 | The same for cache_del. |
| Cache.ObjectCache.Check | src/src/cache.c:535-561 | The same for cache_check. |
| Cache.ObjectCache.Sync | src/src/cache.c:490-524 | The same for cache_sync, bucket by bucket. |
| Cache.ObjectCache.Reset | src/src/cache.c:142-165 | The same for cache_reset. |
| Bitmap.EndsIff | src/src/dbmchunk.c:329-374 | dddb_alloc returns if and only if a clear run of the length lies ahead of its start, or lies anywhere and the search wraps around, whatever bytes the growing bitmap picks up. |
| Bitmap.SmallFits | src/src/dbmchunk.c:329-374 | A request of at most 480 blocks is always met. |
| Bitmap.CleanFits | src/src/dbmchunk.c:273-298 | With the skipped byte clear every request is met. |
| Bitmap.LargeNeverFits | src/src/dbmchunk.c:286-297 | A crowded bitmap whose skipped bytes are all ones: a request of 481 blocks never returns, wherever the search starts. |
| Bitmap.Crowd | src/src/dbmchunk.c:273-374 | An empty file and one allocation of 487 blocks reach that bitmap. |
| Bitmap.BlockMap.Grow | src/src/dbmchunk.c:273-298 | growbit keeps every block below the last byte, leaves that byte arbitrary, and clears the new ones. |
| Bitmap.BlockMap.Mark | src/src/dbmchunk.c:302-322 | dddb_mark changes exactly the blocks of the extent, growing first when needed, so that a marked block lies at least 32 below the top. |
| Bitmap.BlockMap.Alloc | src/src/dbmchunk.c:329-374 | The run returned was clear, is the first fit from the last free block (or from 0 after wrapping), and is all that becomes marked. |
| ChunkStore.PutHolds | src/src/dbmchunk.c:414-484 | Writing an object into an extent apart from all others leaves every other object readable. |
| ChunkStore.DelHolds | src/src/dbmchunk.c:540-589 | Overwriting a deleted object with the delobj mark leaves every other object readable. |
| ChunkStore.Store.constructor | src/src/dbmchunk.c:92-207 | dddb_init rebuilds a bitmap in which every block of every live extent is marked. |
| ChunkStore.Store.Put | src/src/dbmchunk.c:414-484 | The file refines a map: after dddb_put, new, moved or shrunk in place, exactly that number has changed; extents stay disjoint and every live block marked. |
| ChunkStore.Store.Get | src/src/dbmchunk.c:379-408 | dddb_get gives the object last put under the number, as it reads back, or nothing; field by field that is the object that was put, when its maps have distinct keys and its variables distinct names. |
| ChunkStore.Store.Del | src/src/dbmchunk.c:540-589 | dddb_del removes exactly its number. |
| ChunkStore.Store.Check | src/src/dbmchunk.c:517-535 | dddb_check is true if and only if the number is there. |
| PackProof.ObjectReads | src/src/dbunpack.c:24-244 | unpack_object reads back what pack_object wrote, consuming exactly those bytes whatever follows, to the object with its tables newly filled. |
| PackProof.VarReads | src/src/dbunpack.c:125-205 | A value nested to any depth is read back, consuming exactly its bytes. |
| PackProof.ObjectSize | src/src/dbsize.c:22-165 | pack_object writes size_object bytes plus one for every program counter in the object. |
| PackProof.StorableSize | src/src/dbsize.c:22-165 | Without program counters it writes exactly size_object bytes. |
| PackProof.TablesKept | src/src/dbunpack.c:40-102 | The tables read back have the same methods and variables, each once and in its own chain. |
| PackKeeps.ObjectKept | src/src/dbunpack.c:24-244 | The object read back has the same id, server, symbols, verbs and locks; the same methods one for one, with name, blocked flag, handlers, words and variables; the same variables; and the same values, but that maps at any depth are new tables that answer every key alike. |
| PackKeeps.MethodsSpread | src/src/dbunpack.c:40-75 | In a chain of the method table the methods stand in the order they were packed in. |
| PackKeeps.VarsSpread | src/src/dbunpack.c:76-102 | In a chain of the variable table they stand in the reverse order. |
| PackKeeps.IntIs | src/src/dbpack.c:11-11 | A number of 32 bits is four bytes in two's complement, the low one first, as on the machines the server runs on. |
| PackKeeps.FitsIs | src/src/dbpack.c:11-11 | Those are all the numbers that fit. |
| Maps.AddedIsFound | src/src/map.c:49-106 | A key that was put is found with its value, whatever was there before. |
| Maps.OthersFound | src/src/map.c:49-106 | All other keys are found as before. |
| Values.NormMapAnswers | src/src/dbunpack.c:189-205 | A map read back into a newly filled table answers every key as before, its values read back. |
| Values.SameAnswers | src/src/map.c:49-106 | Two tables with the same entries answer alike, whatever their widths and the order of their chains. |
| PackIO.WriteObject | src/src/dbpack.c:24-207 | The writing loops put exactly the specified bytes at the stream. |
| PackIO.CountObject | src/src/dbsize.c:22-165 | The counting loops give size_object. |
| PackIO.GetObject | src/src/dbunpack.c:24-244 | The reading loops give what the bytes specify and leave the stream behind them. |
| WireProof.PacketBack | src/src/message.c:585-905 | parse_message on one server undoes the text that send_message composed on another, for lists and maps nested to any depth: every server number, also inside the arguments, becomes the one that the server of its name has there; on becomes to. |
| WireProof.RenumberedBack | src/src/servers.c:203-227 | A number taken to the other server and back is what it was, whatever the case of the names in the two tables. |
| WireProof.MovedBack | src/src/servers.c:203-227 | So is every value. |
| WireProof.VarEqSame | src/src/var.c:74-123 | Values compare on the other server as they do here. |
| WireProof.MapArrives | src/src/message.c:803-830 | A map that arrives answers every key, as it is numbered there, with the value that the map sent would give, as it arrives. |
| WireProof.TextBack | src/src/string.c:190-245 | A quoted string is read back with its line ends made whole. |
| WireProof.CrlfSame | src/src/string.c:190-245 | It is read back unchanged if and only if every CR and LF in it stands in a pair. |
| WireFormat.FeedsReturned | src/src/string.c:190-245 | Text without carriage returns gains one before every line feed, and nothing else changes. |
| WireFormat.SamplePacket | src/src/message.c:326-343 | A packet with a value of every kind, character by character. |
| WireFormat.ErrorNames | src/src/error.c:10-86 | The errors that the machine raises go by their own names. |
| WireFormat.DigitsAre | src/src/string.c:131-147 | Numbers are written in decimal without leading zeros. |
| WireFormat.WrongLength | src/src/message.c:831-878 | A list is refused whose length is not the number of its elements. |
| WireFormat.UnknownServer | src/src/message.c:636-662 | An object of a server that is not in the table is refused. |
| WireFormat.OwnObject | src/src/message.c:636-662 | One without a server is of this server. |
| WireFormat.Unclosed | src/src/message.c:686-697 | Text without a closing quote is refused. |
| WireIO.Buffer.Message1 | src/src/message.c:326-343 | The composing code appends exactly the specified packet. |
| WireIO.Reader.ParseMessage | src/src/message.c:585-905 | The parsing code, pointer by pointer, accepts and rejects exactly as specified. |
| WireIO.Carry | src/src/message.c:483-507 | A message composed by one server with its table and parsed by another with its own arrives as it was sent, each server under its number there. |
| VmProof.EvalGoes | src/src/opcodes1.c:15-217 | The words of an expression, nested to any depth, leave its value on the stack and nothing else changed, or raise its error. |
| VmProof.MarkerOver | src/src/execute.c:530-549 | count_args finds the argument marker of the innermost list. |
| Operators.NumbersCompare | src/src/opcodes1.c:185-205 | <, >, <= and >= on numbers are what they say. |
| Operators.TextCompares | src/src/var.c:57-71 | On text they go by the first place where the two differ, whatever the case; what ends there comes first. |
| Operators.EqualIs | src/src/var.c:73-123 | Two values without maps are equal if and only if they are the same but for the case of the text in them, at any depth. |
| Operators.CaseIs | src/src/utils.c:97-132 | Case is that of the 26 letters and of no other character. |
| Operators.EqualityIs | src/src/opcodes1.c:207-229 | == and != tell that. |
| Operators.SubUndoesAdd | src/src/opcodes1.c:15-67 | Subtracting undoes adding. |
| Operators.MulRepeatsAdd | src/src/opcodes1.c:71-84 | Multiplying is adding over and over. |
| Operators.NegatedIs | src/src/opcodes1.c:123-136 | A number and its negation add up to 0. |
| Operators.TextJoins | src/src/opcodes1.c:25-35 | Adding text to text joins the two. |
| Operators.DivModIs | src/src/opcodes1.c:86-122 | Quotient times divisor plus remainder is the dividend; the remainder is smaller than the divisor and has the sign of the dividend. |
| Operators.ListsAreSets | src/src/opcodes1.c:36-40 | Adding to a list adds at its end unless an equal element is there; subtracting takes the first equal element out. |
| Operators.InList | src/src/list.c:57-68 | in gives the least place of an equal element, counted from 1, or 0. |
| Operators.InText | src/src/opcodes1.c:861-884 | On text it gives the least place where the one stands in the other, or 0. |
| Operators.FalseIs | src/src/cool.h:75-78 | What is false: 0, the empty text, the empty list, an object of negative number, maps and errors. |
| Operators.ErrorsAre | src/src/opcodes1.c:15-229 | Which operands every operator takes, and the error for all others. |
| Loops.RangeIs | src/src/opcodes1.c:558-577 | A range loop runs its body for every number from the first to the last, in order, for all bounds. |
| Loops.WhileIs | src/src/opcodes1.c:592-606 | A while loop asks first and runs its body as long as the condition is true. |
| Loops.DoIs | src/src/opcodes1.c:607-626 | A do loop runs its body once, and then as long as the condition is true. |
| Loops.IfIs | src/src/opcodes1.c:487-522 | The first part of an if whose condition is true is taken, or else the last one. |
| Loops.BreakIs | src/src/opcodes1.c:628-657 | break n leaves exactly n loops, of any number around it. |
| Loops.ContinueIs | src/src/opcodes1.c:658-676 | continue n goes on with the next turn of the n-th loop. |
| Loops.ShortIs | src/src/opcodes1.c:138-172 | && and || skip the right side when the left one decides, and give 0 or 1 then. |
| Loops.SpliceIs | src/src/opcodes1.c:345-360 | The elements of a spliced list stand in its place. |
| Loops.IgnoredIs | src/src/opcodes1.c:86-103 | An error that the method ignores becomes the value of its operator. |
| Loops.SampleWords | src/src/x.tab.h:10-160 | The words of a method with an if, a list, a do loop and a break, one by one. |
| VmMethod.MethodRuns | src/src/opcodes1.c:487-676 | Running the words of a method has exactly the effect of its structured statements: result, error, running on, or the E_INTERNAL of a range loop gone astray, with any nesting of if, range for, while, do-while, break and continue. |
| VmMethod.HaltsIff | src/src/execute.c:211-262 | The machine halts if and only if the statements do, whatever errors the method ignores. |
| VmMethod.ExecuteMeans | src/src/execute.c:211-262 | With ticks to spare execute() ends as the statements mean it to, whatever errors the method ignores. |
| VmMethod.RangeStrays | src/src/opcodes1.c:566-567 | The failing run: for i in ["a".."b"] in a method that ignores E_TYPE goes on with the number of its variable as an opcode and ends with E_INTERNAL. |
| VmMethod.StrayIff | src/src/opcodes1.c:566-567 | There are methods whose range loops go astray if and only if E_TYPE is ignored. |
| VmMethod.InternalIff | src/src/execute.c:241-247 | A method of the standard operators ends with E_INTERNAL if and only if a range loop of its statements goes astray. |
| VmRuns.BlockGoes | src/src/opcodes1.c:487-626 | The words of a block do what it means, in every outcome: at its end with the stack at the height it had, at the loop that a break or continue is for, stopped, failed, running on, or astray. |
| VmStmts.BreakGoes | src/src/opcodes1.c:628-657 | break n unwinds to exactly the n-th enclosing loop, to its stack height before the loop, from any depth of ifs and loops. |
| VmStmts.ContinueGoes | src/src/opcodes1.c:658-676 | continue n unwinds to the head of exactly the n-th enclosing loop. |
| VmMethod.WhileBreakIff | src/src/opcodes1.c:648-656 | A break out of a while loop reaches its end if and only if the scan from the loop head for the word WHILE finds the end address behind the first one. |
| VmMethod.NoWhileWord | src/src/opcodes1.c:648-656 | It does whenever no word of the condition equals WHILE. |
| VmMethod.BreakAstray | src/src/opcodes1.c:648-656 | The failing run: while (399) break; - the statements end at once, the machine goes to word 399 of nine and is lost. |
| VmMethod.BreakAstrayIff | src/src/opcodes1.c:648-656 | With that condition the break is right only if the loop happens to end at word 399. |
| VmMachine.Frame.CountArgs | src/src/execute.c:530-549 | The loop of count_args finds the topmost marker, counts what is above it and moves it down over the marker; without a marker everything has moved down and E_STACKUND is raised. |
| VmMachine.Frame.PopArgs | src/src/execute.c:510-522 | pop_args gives the topmost values in order. |
| VmMachine.Frame.OpBreak | src/src/opcodes1.c:628-657 | The unwinding and scanning loops of op_break do one specified step. |
| VmMachine.Frame.OpContinue | src/src/opcodes1.c:658-676 | So do those of op_continue. |
| VmMachine.Frame.Execute | src/src/execute.c:211-262 | The loop of execute() over all opcode methods is the run of the specification, with its tick limit. |
| VmMachine.ExecutedSteps | src/src/execute.c:239-242 | A run with ticks to spare ends as the machine without a limit. |
| VmMachine.ExecutedEnds | src/src/execute.c:236-240 | With the last tick it ends with E_TICKS, whatever that instruction did, unless that was no opcode. |
| DecodeStmts.Decompiles | src/src/decode.c:274-590 | decompile_stmts gives back the statements a method was laid out from, when they fit its tables. |
| DecodeStmts.LinesDetermine | src/src/decode.c:274-392 | Two blocks have the same decompiled lines if and only if they are the same. |
| DecodeStmts.DecompiledRuns | src/src/decode.c:274-392 | Running the words has exactly the effect of the statements that the decompiled text shows. |
| DecodeProof.ExprReads | src/src/decode.c:394-590 | The words of an expression put exactly its tree on the symbolic stack. |
| DecodeProof.ListBuilt | src/src/decode.c:838-882 | tree_count_args finds the marker of the innermost list and tree_list takes its arguments in order. |
| Decompiler.Decompile | src/src/decode.c:180-203 | The decompiler with its tables, loops and recursion writes exactly the specified lines. |
| Brackets.PrintParses | src/src/decode.c:591-789 | Text printed with the precedences of prec_table and minimal brackets reads back, by the %left lines of the grammar, to the same tree if and only if no number in it is negative. |
| Brackets.FullPrintParses | src/src/decode.c:591-789 | So does fully bracketed text, if and only if there is besides no splice. |
| Brackets.GroupsByLine | src/src/cool.y:52-62 | Of two operators without brackets the one declared on the later line binds more tightly, and the left one when they are on the same line. |
| Brackets.SignsFirst | src/src/cool.y:61-61 | A sign binds more tightly than any operator. |
| Brackets.TableAgrees | src/src/decode.c:141-163 | prec_table puts the operators as those lines do. |
| Brackets.BracketsIff | src/src/decode.c:591-620 | Brackets are printed around an operand if and only if the text without them would group otherwise. |
| LineReader.LinesCompile | src/src/cool.y:205-284 | Reading the lines that are written for a method, by the grammar of statements, gives its statements, and compiling them gives the words they were decompiled from. |
| MethodSearch.OrderIs | src/src/method.c:49-107 | The search goes through the object and all its ancestors, each once, ancestors first. |
| MethodSearch.FoundIff | src/src/method.c:49-107 | Nothing is found if and only if neither the object nor any ancestor defines the name. |
| MethodSearch.BlockedIff | src/src/method.c:76-107 | The definition found is blocked if and only if any reachable definition is. |
| MethodSearch.FoundNearest | src/src/method.c:76-107 | An unblocked definition that is found has no other definition below it; a blocked one no other blocked one above it. |
| MethodSearch.LeftBranchWins | src/src/method.c:86-105 | Branches go from left to right: when a parent leads to a definition and none right of it does, an unblocked definition that is found is that of the object, or on a branch at or left of that parent. |
| MethodSearch.RightBranchBlocks | src/src/method.c:86-105 | Blocked definitions are looked for from right to left: when a parent leads to one, the one found is on a branch at or right of it. |
| MethodSearch.Inherits | src/src/method.c:76-107 | An object with one parent and no definition of its own finds what its parent finds. |
| MethodSearch.SameFrom | src/src/method.c:76-94 | How the search came to an object does not matter to what it searches from there. |
| MethodFinder.Finder.FindMethodRecursive | src/src/method.c:49-75 | The generation-marked search returns that definition and examines no object twice. |
| Parents.HasParent | src/src/utils.c:42-59 | hasparent is true if and only if the object is an ancestor. |
| Parents.CheckParents | src/src/utils.c:61-95 | check_parents answers with the first thing wrong, and Fine if and only if there are parents (or the object is the root), all of them here, others, open to cloning and not above one another. |
| Parents.VerdictIs | src/src/utils.c:73-94 | The verdict is that on the first new parent that is elsewhere, not there, the object itself, closed to cloning or below another one, in this order. |
| Parents.AcyclicIff | src/src/utils.c:61-95 | New parents keep the hierarchy acyclic if and only if the object is not one of them or their ancestor. |
| Parents.CheckedIff | src/src/utils.c:61-95 | After check_parents it depends exactly on whether the object is an ancestor of a new parent, which is not tested. |
| Parents.CheckMissesCycle | src/src/utils.c:88-93 | A concrete cycle it lets through, in a hierarchy that it would have built itself. |
| Symbols.AddedIs | src/src/symbol.c:32-70 | The number sym_add returns resolves to the name; all live numbers keep their meaning; live names stay distinct and none is a system symbol. |
| Symbols.Counted | src/src/symbol.c:32-101 | After any run of adds and frees the count of a name is adds minus frees. |
| Symbols.NumberKept | src/src/symbol.c:32-101 | A number that stays live through a run keeps its name, across slot reuse and doubling. |
| Symbols.SymbolTable.AddSymbol | src/src/symbol.c:32-70 | The array code, with reuse and doubling, does exactly that. |
| Symbols.SymbolTable.FreeSymbol | src/src/symbol.c:91-101 | sym_free counts down, and frees the slot at zero. |
| Locks.MutualExclusion | src/src/opcodes2.c:385-457 | In every reachable state at most one task is past lock() for a name without having been forced by a timeout, and it has the oldest request. |
| Locks.FirstComeFirstServed | src/src/message.c:226-281 | Grants of a name follow the order of requests. |
| Locks.GrantedIff | src/src/message.c:266-281 | A waiting task is let past if and only if no older lock of the name is left. |
| Locks.LockList.OpLock | src/src/opcodes2.c:385-424 | op_lock appends the request and blocks if and only if the name is taken. |
| Locks.LockList.OpUnlock | src/src/opcodes2.c:427-457 | op_unlock removes the first lock of the name and task, if any. |
| Locks.ClearedIs | src/src/execute.c:446-467 | clear_locks leaves exactly the locks that are not of the task, all of them and in their order. |
| Locks.LockList.ClearLocks | src/src/execute.c:446-467 | Its loop does so. |
| Locks.LockList.FindLock | src/src/message.c:266-281 | find_lock tells whether the first lock of the name is of another task. |
| Locks.StepLists | src/src/opcodes2.c:385-457 | Every move of the model of tasks changes the list of locks as the opcodes do: a request, an unlock, the end of a method, and no other. |
| Scheduler.Queues.ProcessQueues | src/src/message.c:69-135 | When the loop ends no message is left, no event could be handled, and no reply that was swept away was awaited; every message and every event that came in is still queued or was handled once. The least time is the given timeout or the time of an event that was left, and no later than that of any; the timeout is that when nothing was late, and has its seconds set to zero otherwise; it wakes in time for every event not late already if and only if nothing was late, or the microseconds of the lag are over by then; with no local wait overdue on entry or added it always does; with nothing to do the loop ends after one pass. |
| Scheduler.WakeAllAttained | src/src/message.c:84-89 | The time after any events that were left is one of theirs or the given one, and no later than any. |
| Scheduler.Queues.Turn | src/src/message.c:81-90 | An event that is handled is taken out and no other, and runs one method unless it is a wait of the system; one that is left stays as it is. |
| Scheduler.WakesDueIff | src/src/message.c:84-134 | The server wakes in time for every event not late already if and only if no event was late, or the lag of the latest one, modulo a second, is no more than the time each of those has, for its timeout or its retransmission. |
| Scheduler.QuietWakes | src/src/message.c:84-134 | In queues with nothing to do, where that depends on the events alone. |
| Scheduler.ZeroWakes | src/src/message.c:132-134 | With the microseconds set to zero as well it would always wake in time. |
| Scheduler.Oversleeps | src/src/message.c:132-134 | A run of the queues that sleeps 0.7 s past an event due in 0.2 s. |
| Scheduler.Queues.ProcessEvent | src/src/message.c:137-252 | An event is handled, running one method unless it is a wait of the system, or left with nothing to be done about it; other than for messages it is handled if and only if there was something to do. |
| Scheduler.Queues.ProcessMessageEvent | src/src/message.c:160-201 | The event is handled if and only if a reply is there, or it is remote and out of time, or due for retransmission and the send fails; a retransmission doubles the interval and sets the next one from it; otherwise nothing changes. |
| Timers.SubIs | src/src/execute.c:623-633 | timer_sub is exact. |
| Timers.AddMsecIs | src/src/execute.c:635-645 | timer_addmsec is exact, but does not carry a whole million microseconds. |
| Protocol.QueuedOnce | src/src/servers.c:393-407 | Whatever is lost, doubled or overtaken, a call is queued for execution at most once in a connection. |
| Protocol.ResumedOnce | src/src/message.c:160-201 | A caller is resumed at most once, by a reply, a timeout, a failed retransmission or a kill. |
| Protocol.StartedBound | src/src/serverio.c:125-187 | A method runs for a call at most once for every connection since the call was made. |
| Protocol.OnceForEachConnect | src/src/serverio.c:145-165 | The bound is met for every number of connections: runs in which a packet that comes late runs the method once more after each reconnect. |
| Protocol.ReturnedRan | src/src/message.c:92-116 | A caller resumed by a return: its method ran, or its call_verb matched no verb, or a message somebody named return carried its number; and if the method ran, exactly once unless the connection was made anew. |
| Protocol.ReturnMeansRanIff | src/src/message.c:92-116 | A return means that the method ran if and only if the call is not one of call_verb and no message named return carries its number. |
| Protocol.ReturnWithoutRun | src/src/message.c:98-106 | Runs in which the caller gets a return and nothing ran: a command without a matching verb, and a message named return. |
| Protocol.FourRetries | src/src/message.c:177-194 | No call is sent again more than four times before its timeout. |
| Agreement.LookedAs | src/src/message.c:160-201 | The calling server of the protocol looks at a wait exactly as the queues look at its event, and the outcome is that of the first reply, the timeout or the failed send. |
| Peers.PacketOnce | src/src/message.c:483-507 | A call packet of another server received again, after whatever else came in on the connection, is thrown away; the first time it is queued as it was sent if it is new. |
| Peers.ReplyAlways | src/src/message.c:492-499 | A message with the name of a reply is queued every time it comes, and moves no number. |
| Peers.Node.ReceiveMessage | src/src/message.c:483-507 | receive_message parses, filters and queues exactly so. |
| Peers.Node.Discard | src/src/servers.c:393-407 | serv_discardmsg lets through exactly the numbers above the last, and remembers them. |
| Peers.KindIs | src/src/message.c:92-106 | return, raise and halt, whatever their case, are replies, and call_verb is a command. |
| Peers.Node.MetaCommand | src/src/serverio.c:125-187 | A connect or connectok sets the last number back to -1, a disconnect does not. |
| Peers.Node.ServerCommand | src/src/serverio.c:189-203 | What comes from a server that is not connected is ignored. |

## Left out

- Sockets, the select loop, signals, players and their text: the wire is a bag of packets.
- The dbm library and stdio: the index is a map, the chunk file a sequence of bytes; storing, seeking and writing succeed, and so does DB_PUT.
- Memory: malloc, free and reference counts of values and objects; values are immutable, so a caller that changes an object it got from the cache without putting it back is not modelled.
- The compiler: only the layout of words it emits is used.
- Opcodes for names, messages, maps, indexing and list loops, and the built-in functions.
- VmMachine.Frame.Execute: at the word of such an opcode, or at a word outside the table of opcodes, the machine of the model is Lost, or E_STACKUND when values are missing; at the empty entries of the table it raises E_INTERNAL, as execute does.
- VmMachine.Frame.OpBreak: a break out of a list loop is Lost, because list loops are left out.
- Decompiled trees with a null child: where decode.c:864-990 keeps a node with a missing operand and prints that operand as too complex, the model drops the whole tree; this concerns only code outside `Fits`.
- Numbers of the machine and of the parser are unbounded: 32-bit overflow is not modelled.
- Hashes are non-negative and text is of characters below 128 where keys are hashed: with signed char the hash of other text differs.
- Maps as keys or compared values, because `var_eq` on maps is inverted (var.c:113); names and keys that differ only in case, because the hash is case sensitive and the comparison is not.
- `map_add` on a shared map whose copy has another table size (map.c:70): tables here are not shared.
- Strings that end in a lone CR when composed: `string_backslash` then reads past their end.
- The buffer of `string_backslash` (src/src/string.c:205-209): the length it makes room for leaves out the second character of a doubled backslash and of a lone line feed, so such text is written past the buffer; strings here have no buffer.
- Tasks forked by `at` with the same number, a task that locks a name twice, and the tick limit hit by the instruction that blocks.
- Scheduler.Queues.ProcessQueues: the rounds of its loop are bounded by a parameter, because methods may add messages for ever; what holds at the end is stated for the runs that come to an end (settled), and that a run with nothing to do does.
- Protocol.ReturnedRan: which calls of call_verb match a verb is left to chance; any message named return may come at any time, and the two servers' numbers are not tied together.
- CacheOverFile.StackRefinesMap: takes the file as a map and a function for reading back; `Database.Serve` is the same over the file itself.
- Database.Serve: takes the cells of the cache as values, where `Cache.ObjectCache` has them linked over a plain map; objects of more than 480 blocks, for which the search for room may not end, are not put.
- CacheProof.RunRefinesMap: is about runs whose puts find no dead cell; `CacheLost.RunRefinesIff` is about every run.
- Peers.Node.MetaCommand: takes commands of servers in the table; promiscuous_connect, verify_server and the calls of connect_server are left out.
- Permissions, encryption, player commands, configuration and the text of the database.
