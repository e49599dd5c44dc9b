# Verification of the Schwarz kernel's compiler, rings and loops

This project models the parts of the kernel where a wrong step does the most harm, and proves what they promise: the
one-pass C compiler that emits x86-64 code while it parses (`compiler.cpp`), the USB and NVMe queues it shares with
devices (`usb.cpp`, `storage.cpp`), the preemptive task switch (`basement.asm`, `task.h`), the glyph cache and the
UTF-8 decoders (`font_engine.cpp`, `shell.h`), FAT32 directories and files (`fat32.cpp`), and path resolution
(`shell.h`).

The compiler is proved from text to running bytes. `Lexer` and `Layout` say which texts are read as which tokens.
`Parser` is the recursive-descent parser, a class that mutates its cursor, its variable table and its code buffer and
patches jumps in place; `ParseExpr`, `ParseStmt`, `ParseControl` and `Accepted` prove that an error-free parse has read
a program of the grammar and left exactly that program's code, and that every correct program is read without error.
`TypeRanges` says what each type word promises. `CodeGen` is the code of a program as a pure function; `Instructions`
and `Machine` decode and run its bytes. `Meaning` says what a program means without any machine. `Emitted` is the
intermediate semantics: what the emitted code does with its operand stack, for every program, right or wrong.
`Simulation` proves that the machine does what `Emitted` says; `Faithful` proves that `Emitted` is `Meaning` under a
syntactic condition on the program; `Leftovers` and `Limits` prove exactly where it is not. `CodeSize` bounds the code
by the tokens and `Landing` proves where its jumps go. `Correctness` and `Pipeline` put the pieces together.

Loops and classes of the source are loops and classes here; each is proved against a specification function, and the
lemmas are about those functions. Runs of two parties are sequences of states linked by single stores and reads.

## Model

| member | source | states |
|---|---|---|
| Pipeline.CompileWritten | compiler.cpp:1666-1695 | a program written as text in any layout is compiled to bytes that in every machine state return what the program means in eax with rbp, rsp, the return address and the caller's memory intact, fault where it divides by zero, run on while it does, and return nothing else; for programs of at most 64 variables within `Faithful.SoundStmts` and a 2 GB frame |
| Pipeline.CompileText | compiler.cpp:1666-1695 | whatever the text: if neither an error was counted nor the variable table overrun, the bytes are those of a program that the tokens spell; a written program is always read without an error and as itself, and overruns the table if and only if it has more than 64 variables |
| Pipeline.ProgramText | compiler.cpp:319-478 | every checked program of at most 1023 writable tokens has a text, so the end-to-end theorem speaks of all of them |
| Pipeline.ManyVariables | compiler.cpp:535-541 | for every n up to 341 there is a text of 3n tokens with n variables that passes every check; 65 variables take 195 tokens |
| CodeSize.ProgramFits | compiler.cpp:551-553 | the code of every program of at most 1024 tokens fits the 64 KB buffer: no construct takes more than 60 bytes for each of its tokens |
| Landing.JumpsLand | compiler.cpp:726-751 | every jump in the bytes of a program goes to an offset at which the processor fetches one of the program's instructions |
| Correctness.ProgramRuns | compiler.cpp:1339-1695 | forward simulation of whole programs: for every fuel, the bytes run from offset 0 return the meant value in eax with the caller's state restored, fault with the program, or have taken at least as many steps as the fuel |
| Correctness.ProgramRunsExactly | compiler.cpp:1703-1714 | and conversely: if the program never leaves its frame, the code returns a 32-bit value if and only if the program does with enough fuel |
| Correctness.StackDeepens | compiler.cpp:1160-1196 | at the end of its statements, loops included, a program's rsp is below its frame by exactly eight bytes for each short-circuit jump the run took, and rbp is unmoved |
| Correctness.CodeInPlace | compiler.cpp:1666-1695 | prologue, statements, the implicit return 0 and the epilogue stand one behind the other in the bytes, at the offsets their sizes give |
| Simulation.ExprRuns | compiler.cpp:889-1208 | the bytes of every expression, sound or not, leave in rax, in the frame's memory and on the stack what `Emitted.EvalE` says, or fault with it |
| Simulation.StmtRuns | compiler.cpp:1339-1660 | the same for every statement: assignments, element stores, blocks, if, while, do-while, for and return |
| Simulation.ForLoopRuns | compiler.cpp:1589-1623 | the for layout condition, jump to body, step, jump to condition, body, jump to step runs condition, body and step in the order of the language |
| Faithful.ExprFaithful | compiler.cpp:889-1208 | for every sound expression the emitted evaluation gives the meant value and memory, on any stack, and leaves one word per short-circuit jump taken: exactly the words `Trail` reads off the source |
| Faithful.StmtsFaithful | compiler.cpp:1211-1660 | for every sound list of statements and every fuel: same memory, same result, same traps and strays, and a stack deeper by the number of short-circuit jumps of the run |
| Limits.ChainsSound | compiler.cpp:1160-1196 | an unparenthesised or-chain of and-chains over operands without logical operators is sound, so it means what C says |
| Limits.StackIndependent | compiler.cpp:889-1208 | what any expression does, sound or not, does not depend on the words below it on the stack |
| Leftovers.OperandExact | compiler.cpp:1054-1156 | for sound operands of any strict operator, the result is right if and only if the right operand leaves no word, or the operator gives the same with the last word left as with the left operand |
| Leftovers.StrictOperandExact | compiler.cpp:1054-1156 | `n op r` is right for every `n` if and only if `r` takes no short-circuit jump, or `op` cannot tell its left operands apart at the value of `r`: a product with 0, a division by 0, a remainder by 0 or 1, a comparison with the smallest or largest word |
| Leftovers.AndOperandExact | compiler.cpp:1160-1177 | `l && r` with `l` true is right if and only if `r` is false, leaves no word, or last leaves a 1 |
| Leftovers.OrOperandExact | compiler.cpp:1180-1196 | `l or r` with `l` false is right if and only if `r` is true, leaves no word, or last leaves a 0 |
| Leftovers.IndexExact | compiler.cpp:831-838 | `x[i]` addresses the meant element if and only if `i` leaves no word, or `x` stands for the very word it leaves last |
| Leftovers.IndexReadExact | compiler.cpp:831-838 | reading an array element in bounds, in a frame above the first few addresses, is right if and only if the index takes no short-circuit jump |
| Leftovers.StoreExact | compiler.cpp:1425-1441 | `x[i] = e`, with a jump-free index and nothing of the frame at addresses 0 and 1, is right if and only if `e` takes no short-circuit jump |
| Leftovers.OperandsLost | compiler.cpp:1165-1172 | `1 + (0 && 1)` and `1 && !(0 && 1)` come out wrong on every stack |
| Leftovers.OrOperandLost | compiler.cpp:1185-1192 | 0 or not (1 or 0) comes out wrong on every stack |
| Limits.ReversedSumExact | compiler.cpp:1093-1099 | an int plus a pointer is the meant sum for all operands if and only if the pointed-to type has one byte |
| Limits.BumpExact | compiler.cpp:701-724 | `++` and `--` on a pointer that can be read are as meant if and only if the pointed-to type has one byte |
| Limits.MoveExact | compiler.cpp:858-886 | `p += y` and `p -= y` are as meant for all `y` if and only if the pointed-to type has one byte |
| Limits.CastExact | compiler.cpp:895-903 | a cast is C's conversion if and only if the type is unsigned or 64 bits wide or the sign bit of the cut value is clear |
| Limits.PointersAndCastsLost | compiler.cpp:1093-1099 | an int pointer 8 plus 1 the wrong way round is 33 and not 12, its step is 4 and not 1, and `(char)-1` is 255 |
| Limits.PointerSums | compiler.cpp:1081-1118 | what `Meaning` asks of pointer arithmetic: `q + n` and `n + q` move by n elements, `q - p` counts elements, and `(q - p) + n` adds n to that number |
| Frame.RegionsDisjoint | compiler.cpp:528-541 | variables of any table built by allocation lie pairwise apart, 8-aligned, inside the 16-aligned frame |
| Frame.WriteThenRead | compiler.cpp:583-623 | a sized write succeeds, is read back wrapped to the variable's width and sign, and changes no byte but the variable's own, so no other scalar and no element of any array |
| Frame.ElementWriteThenRead | compiler.cpp:629-649 | an in-bounds element write is read back wrapped and changes no byte but the element's own, which lie inside its array |
| Frame.AllocationStacks | compiler.cpp:535-541 | allocating a fresh name keeps every region where it was and the table well laid |
| TypeRanges.VariableHolds | compiler.cpp:155-170 | for each of the twelve type words: a variable declared with it gives back what was written reduced to its range, from -128 to 127 for `char` and `int8_t`, 0 to 255 for `uint8_t`, and so on to 32 bits; 64-bit types and pointers hold a signed word |
| TypeRanges.ElementsSpaced | compiler.cpp:629-649 | neighbouring elements of an array of a type word, or behind a pointer to it, lie 1, 2, 4 or 8 bytes apart as the word says |
| TypeRanges.StorageTight | compiler.cpp:528-534 | a variable takes the least multiple of 8 bytes that holds its elements |
| TypeRanges.DeclaredReturns | compiler.cpp:1666-1695 | the program `T x = n; return x;` means n reduced to the range of the type word T |
| Instructions.DecodeEncode | compiler.cpp:551-751 | decoding is the left inverse of encoding for every emitted instruction, wherever it stands; both forms of `mov rax, imm` give back the same value |
| Machine.EncodedIsFetched | compiler.cpp:551-751 | bytes that hold an encoded list are fetched as that list, instruction by instruction |
| Words.LittleEndianRoundTrip | compiler.cpp:555-562 | signed 32- and 64-bit operands survive being written as bytes |
| Words.TruncatesTowardZero | compiler.cpp:1054-1078 | quotient and remainder are those of C: the remainder is smaller than the divisor and has the sign of the dividend |
| Encodings.ProgramEncodable | compiler.cpp:551-751 | every literal, displacement and jump distance the compiler emits for a program fits its field |
| Emitter.CodeBuffer.EmitByte | compiler.cpp:551-553 | a byte is appended while there is room, and dropped afterwards |
| Emitter.CodeBuffer.Emit | compiler.cpp:551-751 | emitting an instruction appends its encoding to the 64 KB buffer |
| Emitter.CodeBuffer.PatchJump | compiler.cpp:745-751 | patching overwrites exactly the four operand bytes with the distance from behind them to the end of the code |
| Backpatch.PatchAppends | compiler.cpp:726-751 | a blank jump patched after the code it passes is the jump over exactly that code |
| Backpatch.WhileAppends | compiler.cpp:1544-1559 | the while layout, emitted with a blank exit jump and patched, is the pure code of the loop |
| Backpatch.IfElseAppends | compiler.cpp:1626-1650 | the if-else layout, with two patches at different times, is the pure code |
| Backpatch.GuardedAppends | compiler.cpp:1589-1623 | the for layout, whose exit is patched last, is the pure code |
| ParseExpr.BinStep | compiler.cpp:1054-1156 | one more operator of a level makes the left-associated node, read its tokens and appended its code |
| ParseExpr.LogicStep | compiler.cpp:1160-1196 | the same for the two logical operators, jump patched over the right operand |
| ParseExpr.SpineEnds | compiler.cpp:1120-1156 | where the level's operators end, the expression built is the expected one; a comparison level takes at most one |
| ParseStmt.StmtStable | compiler.cpp:498-541 | code of a checked statement does not change when later declarations extend the variable table |
| ParseControl.ForStep | compiler.cpp:1589-1623 | a for read part by part, with its jumps patched, is the expected statement and its code |
| Accepted.StmtsLaid | compiler.cpp:528-541 | every declaration the checks accept keeps the variable table well laid |
| Accepted.CompiledRuns | compiler.cpp:1666-1695 | whatever text was accepted, its bytes run as the program it spells |
| Accepted.SkippedExact | compiler.cpp:1478-1481 | an expression statement that begins with a name followed by no bracket, assignment or step passes every check and compiles to nothing; that is right if and only if the expression changes nothing |
| Accepted.SkippedLost | compiler.cpp:1478-1481 | `x + y++;` leaves y as it is |
| Parser.Compiler.ParseAndCompile | compiler.cpp:1666-1695 | soundness: without errors and overrun the tokens are those of a checked program and the buffer holds its code, frame size patched; completeness: every program that passes the checks is read without an error and as itself, and the variable table is overrun if and only if it has more than 64 variables |
| Parser.Compiler.ParseExpr | compiler.cpp:1199-1208 | an expression is read with its precedence and associativity, its code appended, or an error is counted |
| Parser.Compiler.Statement | compiler.cpp:1339-1660 | a statement is read and its code appended, or an error is counted; progress is made in every case |
| Parser.Compiler.ForStatement | compiler.cpp:1589-1623 | the for statement with its three patched and two backward jumps |
| Parser.Compiler.VarAlloc | compiler.cpp:535-541 | the new variable lies below all others; the row written is inside the table exactly up to the 64th declaration |
| Lexer.Scanner.Lex | compiler.cpp:319-478 | the loop gives the tokens `Scan` defines, or counts an error exactly if there are none |
| Layout.LayoutScans | compiler.cpp:319-478 | every layout of at most 1023 tokens with blanks and comments between them is read as its tokens, then the end |
| Layout.ScanLaysOut | compiler.cpp:319-478 | every text read without error is such a layout of the tokens read |
| Layout.TokenLines | compiler.cpp:319-328 | a token's line number is one more than the line breaks in the gaps before it |
| Layout.SpacedLaid | compiler.cpp:319-478 | every list of writable tokens has a layout |
| Layout.NumeralScans | compiler.cpp:367-384 | every number, written in base 10, or behind 0x or 0X in base 16 with small or capital digits, each digit by its place in the digit string, is read as one number token of that value as a 64-bit word |
| Layout.CharacterScans | compiler.cpp:308-318 | `'A'` is 65, `'\n'` is 10, and so are the other plain and escaped characters their codes |
| Layout.NameScans | compiler.cpp:334-361 | a letter or underscore and up to 30 letters, digits and underscores that spell none of the 18 keywords are read as one name |
| Layout.LongNameSplits | compiler.cpp:334-336 | a longer name is read as two, split behind its 31st character |
| Layout.CommentSkipped | compiler.cpp:325-328 | a comment is skipped to its line's end, which begins a new line |
| XhciRing.RingIsFifo | usb.cpp:346-394 | under every interleaving of the driver's single stores with the controller's single reads, over any number of laps, what was read is a prefix of what was enqueued, every TRB whole, with up to 63 unread |
| XhciRing.RingDelivers | usb.cpp:346-394 | with at most 62 unread, ten reads of the controller deliver the next TRB whatever the driver is doing |
| XhciRing.ControlBits | usb.cpp:346-394 | bit 0 of a control word is the cycle, bit 1 the toggle, bits 10 to 15 the type; the Link TRB has type 6 and the toggle |
| XhciRing.SixtyThreeStrand | usb.cpp:350-362 | with 63 unread there is a run after which the controller never reads again though TRBs are waiting |
| XhciRing.ClearingExact | usb.cpp:939-947 | clearing the next slot of an idle ring with up to 62 unread, wherever the controller is: left alone, it reads a TRB that was never enqueued if and only if the lap is odd; on even laps the invariant of all runs is kept |
| XhciRing.ClearingRead | usb.cpp:1011-1020 | there is a run that ends so: after 64 TRBs enqueued and read |
| XhciDriver.ProducerRing.Enqueue | usb.cpp:368-394 | the driver's stores in its arrays are those of the store-level protocol run until the driver is idle |
| XhciDriver.DriveSends | usb.cpp:452-465 | an uninterrupted enqueue keeps the invariant of all runs and adds exactly its TRB, stamped with the cycle bit |
| XhciDriver.BulkSends | usb.cpp:939-951 | on even laps an uninterrupted bulk enqueue, clearing included, keeps the invariant and adds exactly its TRB |
| PhaseQueue.QueueDelivers | usb.cpp:746-762 | under every interleaving of device stores and polls: taken is a prefix of posted, the index is the count modulo the depth, the phase has turned once per lap, and a poll takes an entry if and only if one is waiting |
| PhaseQueue.LooksTakePosted | usb.cpp:746-762 | looks at what the memory holds at the polls of any run take, by the driver's rule, what the run takes: a prefix of what was posted |
| Completion.EventRing.WaitTransfer | usb.cpp:472-490 | a wait succeeds if and only if the first event seen for its own TRB has code 1 or 13 |
| Completion.EventBits | usb.cpp:472-490 | an event succeeds by 1 or 13 in the top byte of its status and is a transfer event by 32 in bits 10 to 15 of its control word |
| Completion.WaitsSeePosted | usb.cpp:746-762 | for every ring memory that shows at each look what the queue of some run from reset holds there, the events a wait sees are a prefix of those the device posted, in order |
| Completion.NvmeQueue.SubmitAndWait | storage.cpp:671-690 | the command takes the next slot; the head moves if and only if the first completion is this command's and good |
| Completion.AnswerBits | storage.cpp:671-690 | an answer is good if and only if bits 1 to 11 of its status are zero; bit 0 is the phase |
| Completion.CommandsConsume | storage.cpp:671-690 | n commands whose waits all succeed, over any run of a queue of that depth: the head is n modulo the depth with the phase turned n div depth times, and the k-th success consumed the k-th answer posted, which names the k-th command and reports no error |
| Completion.SecondCommand | storage.cpp:671-690 | a well-answered second command succeeds if and only if the first did or was answered with the second's answer: a bad answer stays at the head |
| Completion.BadAnswerBlocks | storage.cpp:671-690 | after error code 1 for the first command of a fresh queue every later command for another id fails and the head stays, whatever is posted behind |
| Tasks.Kernel.Tick | basement.asm:211-308 | a tick saves the running task's whole context, resumes the next task exactly as it was kept, keeps every other task's context and the circle, and counts one |
| Tasks.Kernel.Create | task.h:35-111 | a task on fresh memory joins the end of the circle with the next number; its stack is the 64 KB given, its top aligned down to 16 bytes, and it will resume at its entry with all 15 registers zero, interrupts enabled and the stack pointer at that top; no byte outside that memory changes; without memory nothing does |
| Tasks.Kernel.Enter | basement.asm:211-227 | interrupt and fifteen pushes leave the context, word for word, below the aligned stack pointer and change nothing else |
| Tasks.Kernel.Run | task.h:35-111 | running code that stays off the other tasks' stacks keeps all their contexts |
| Tasks.Kernel.RunTicks | basement.asm:211-308 | any number of ticks between any pieces of code that keep off the other stacks: the kernel follows exactly the schedule of the contexts it interrupted, each piece starts from the context the schedule resumes, and from a fresh circle of n tasks that is the one interrupted n - 1 ticks before the last |
| Tasks.RoundRobin | basement.asm:229-268 | in that schedule the k-th tick resumes task k modulo n, exactly as it was when last interrupted, n - 1 ticks before, or as created the first time; so each of n tasks runs every n ticks |
| Tasks.MisreadExact | basement.asm:270-281 | a tick with no task preserves the interrupted context if and only if registers and interrupt frame coincide in the places it mixes up |
| Tasks.MisreadLost | basement.asm:270-281 | code at address 1 with zero registers goes on at address 0 |
| Glyphs.FontEngine.GetGlyph | font_engine.cpp:240-246 | over any history of calls the glyph given is the one rasterised directly, and none exactly if the font does not open, nothing is visible or it is over 48 pixels |
| Glyphs.FontEngine.GetAdvance | font_engine.cpp:291-302 | over any history the advance is the one computed directly, or half the size without a font |
| Glyphs.FontEngine.SetActiveFont | font_engine.cpp:258-263 | a change of font to a valid one empties the table and keeps it coherent |
| Glyphs.StoreKeeps | font_engine.cpp:140-156 | storing in the first free slot, or over the home slot of a full table, keeps every key unique and reachable by its probes |
| Glyphs.NotStored | font_engine.cpp:122-137 | a probe that meets a free slot or goes all the way round proves the key absent |
| FatVolume.FileExact | fat32.cpp:408-442 | reading gives data if and only if a chain of exactly the needed clusters exists, every needed sector and every table entry of the chain, the last one's too, can be read, and each byte of data is the byte of its sector |
| FatVolume.ClustersFollow | fat32.cpp:100-102 | below sector 2^32 cluster 2 begins at the first data sector, the sectors of a cluster follow one another, and the next cluster begins directly behind |
| FatVolume.SectorsApart | fat32.cpp:100-102 | different sectors of clusters are different sectors of the disk |
| FatVolume.EntryStored | fat32.cpp:104-118 | the table entry of cluster c is the c-th of the entries stored 128 to a sector as four bytes, lowest first, without its top four bits |
| FatVolume.RowRead | fat32.cpp:408-442 | byte j of a file on clusters in a row is byte j % 512 of the disk sector j / 512 behind its first one |
| FatVolume.FirstSector | fat32.cpp:120-122 | a file of one sector is read from its cluster's first sector if and only if the cluster is neither 0 nor 1 nor an end mark from 268435448 on |
| FatVolume.ReadChain | fat32.cpp:408-442 | the loops end on every table, cyclic ones included, succeed exactly when `FileBytes` does, and write exactly the file's bytes |
| FatFile.ReadFile | fat32.cpp:408-442 | whenever the searches end, a file is read exactly if its path leads to an entry that is no directory, it fits the buffer, and its chain can be read |
| FatFile.ListDir | fat32.cpp:353-406 | whenever the searches and the listing end, a listing gives the first entries of the directory a path leads to, and fails exactly if that is no directory or something is unreadable before enough were found |
| FatFile.ResolvePath | fat32.cpp:262-284 | a path leads component by component to the entry the search finds in the directory before |
| FatFile.ComponentsSplit | fat32.cpp:216-228 | components of a path are those before and those behind any of its separators |
| FatFile.ComponentAlone | fat32.cpp:216-228 | a word without separators is one component, cut to 63 bytes |
| FatFile.StoredFound | fat32.cpp:230-284 | an entry written at the start of a directory is resolved there by its name, dot and extension in any case, and gives back its cluster and size |
| FatDirectory.FindInDirectory | fat32.cpp:230-260 | whenever the cluster-by-cluster search ends, on cyclic chains too, the loop ends with its result, whatever garbage the name buffer held |
| FatDirectory.ListDirectory | fat32.cpp:366-405 | whenever the cluster-by-cluster listing ends, on cyclic chains too, the loop ends with its entries and its verdict |
| FatDirectory.WalkExact | fat32.cpp:230-260 | within n clusters a search ends if and only if the chain ends there, an end mark or something unreadable lies there, or an entry of that name is listed there; it finds the first listed entry of that name up to case, and nothing exactly if none is listed |
| FatDirectory.ListWalkExact | fat32.cpp:366-405 | within n clusters a listing ends if and only if the chain ends there, an end mark or something unreadable lies there, or more than the wanted number of entries is listed there; it gives the first of them, and fails exactly if there are no more and something was unreadable |
| FatDirectory.LoopNeverEnds | fat32.cpp:235-258 | in a directory whose only cluster follows on itself and holds deleted entries, neither search nor listing ends within any number of clusters |
| FatFile.LoopNotWalkable | fat32.cpp:262-284 | so on that volume no path but the root's is resolved, and the root is not listed |
| FatDirectory.AppendUnits | fat32.cpp:159-167 | characters written one by one with a terminator each extend or overwrite the C string, or have no effect behind its end |
| FatDirectory.WrittenReads | fat32.cpp:139-157 | a short entry is read as it was written: name, dot and extension, attributes, cluster from its two halves, size |
| FatDirectory.AttrBits | fat32.cpp:124-128 | which bits of the attribute byte mark directories, labels and parts of long names |
| FatDirectory.FoldsCase | fat32.cpp:86-89 | two names are the same to a search if and only if they differ at most in the case of the letters a to z |
| FatDirectory.LongNameCut | fat32.cpp:159-175 | a long name spelled by its entries is collected up to its 13th character, so it is complete if and only if it is no longer |
| FatDirectory.LongFound | fat32.cpp:230-260 | an entry behind the parts of a long name is found by the first 13 characters of that name up to case, and passed over for anything else |
| FatDirectory.PartEnds | fat32.cpp:159-167 | the characters of a part end at a unit 0 or 65535 and at no other; units above 255 become question marks |
| FatDirectory.FourteenCut | fat32.cpp:159-175 | the two entries that spell the 14-character name abcdefghijklmn are collected as its first 13 |
| FatDirectory.ShownFindable | fat32.cpp:211-214 | an entry can be found under its shown name if and only if the name has at most 63 bytes |
| ShellPaths.Normalize | shell.h:670-701 | a path none of whose components has to be cut becomes drive, colon, backslash and exactly the components of the fold that skips dots, pops on two dots and stops at the root |
| ShellPaths.FitsRoom | shell.h:670-701 | no component has to be cut for a rooted path of at most cap - 1 bytes, nor for any other of at most cap - 2 |
| ShellPaths.Resolve | shell.h:637-702 | from a current path on drive d with components ws, a typed path with its own drive stands for that drive and its own words, a rooted one for d and its own words, and a relative one for d and its words folded onto ws; blanks stand for the current path; the result is in normal form whenever it fits |
| ShellPaths.Parent | shell.h:626-635 | one component less, never above the root |
| ShellPaths.FoldedSteps | shell.h:683-698 | folding words: one dot stays, two dots go up and stay at the root, any other word goes down |
| ShellPaths.NormalStays | shell.h:637-702 | a resolved path has no dots, and resolving it again, from anywhere, gives the same drive and components |
| Utf8.RoundTrip | shell.h:176-221 | every sequence of code points is encoded so that either decoder gives it back |
| Utf8.EncodedLength | shell.h:176-195 | one byte below 128, two below 2048, three below 65536, four above |
| Utf8.ShortestForm | shell.h:176-195 | no shorter bytes are read as the same code point |
| Utf8.CutRoundTrip | shell.h:176-221 | cut to n bytes, an encoding decodes to its code points if and only if nothing was cut, or it ends in one or two U+FFFD and the font engine's error marks for what is left of them stand in their place |
| Utf8.LineReadBack | shell.h:226-232 | the line buffer reads back as what was typed if and only if that takes at most 255 bytes or the cut is hidden in that way |
| Utf8.DecodersAgree | font_engine.cpp:366-403 | on every text the two decoders take the same steps and differ only in the error mark |
| Utf8.SyncLine | shell.h:226-232 | the buffer is filled with the encodings in order; bytes that do not fit are dropped |
| Descriptors.ChainIs | usb.cpp:616-622 | the descriptors visited are exactly those chained by their lengths, all whole, up to the first place where none fits |
| Descriptors.RecordsFirst | usb.cpp:646-661 | the recorded endpoint is the first bulk one of its direction with a nonzero number in a mass-storage interface, and none if and only if there is none |
| Descriptors.EndpointBytes | usb.cpp:646-661 | a bulk endpoint descriptor written byte by byte is read with its direction, number and packet size |
| Descriptors.InterfaceBytes | usb.cpp:627-645 | an interface descriptor written byte by byte is one, and of mass storage if and only if its class is 8 |
| Descriptors.InStorageIs | usb.cpp:627-645 | an endpoint belongs to mass storage if and only if an interface of class 8 lies before it with no interface between |
| Descriptors.UsbDevice.Walk | usb.cpp:616-663 | on every buffer the walk ends within the total length with all counts and both endpoints as recorded over that chain |

## Findings

Where the code does not do what it is for, the code is kept as it is, and the lemmas name an input and the exact
condition.

- A taken short-circuit jump skips the `pop rcx` (compiler.cpp:1165-1172, 1185-1192), so a word stays on the stack and a later pop takes it for an operand. Inputs: `Leftovers.OperandsLost`, `Leftovers.OrOperandLost`. Exactly: `Leftovers.StrictOperandExact`, `AndOperandExact`, `OrOperandExact`, `IndexExact`, `IndexReadExact`, `StoreExact`. Unparenthesised chains are never affected: `Limits.ChainsSound`.
- `int + pointer` scales the pointer (compiler.cpp:1093-1099); `++`, `--`, `+=` and `-=` move a pointer by bytes (compiler.cpp:821-827, 858-886); casts zero-extend (compiler.cpp:895-903). Inputs: `Limits.PointersAndCastsLost`. Exactly: `Limits.ReversedSumExact`, `BumpExact`, `MoveExact`, `CastExact`. The first two are departures from `Meaning`; the zero-extending cast is part of the dialect and of `Meaning`.
- A 65th variable is written behind the table (compiler.cpp:492, 535-541), and no error is counted. Input: `Pipeline.ManyVariables` with n = 65. Exactly: `Parser.Compiler.ParseAndCompile`, by the number of declarations; `Parser.Compiler.VarAlloc` at each of them. The model's table goes on past its 64 rows; what the stores behind the real one hit is not modelled, and nothing is promised of the code of such a program.
- An expression statement that begins with a name is dropped without an error when what follows the name is no bracket, assignment or step (compiler.cpp:1410-1481). Input: `Accepted.SkippedLost`. Exactly: `Accepted.SkippedExact`. `Meaning` follows the code here.
- A name of more than 31 characters is split into two tokens (compiler.cpp:334-336). Exactly: `Layout.NameScans`, `Layout.LongNameSplits`.
- A transfer ring holds 63 TRBs, but with 63 unread the controller can be stranded at the Link TRB. Input: `XhciRing.SixtyThreeStrand`. With at most 62 it never is: `XhciRing.RingDelivers`.
- The two bulk functions clear the slot before they fill it (usb.cpp:941, 1013). Input: `XhciRing.ClearingRead`. Exactly: `XhciRing.ClearingExact`, by the lap; on even laps the enqueue is sound: `XhciDriver.BulkSends`.
- An NVMe answer with an error, or for another command, stays at the head and fails later commands. Input: `Completion.BadAnswerBlocks`. Exactly: `Completion.SecondCommand`.
- A timer tick before any task exists pops ten of fifteen registers and takes the rest for the interrupt frame (basement.asm:270-281). Input: `Tasks.MisreadLost`. Exactly: `Tasks.MisreadExact`.
- The search and the listing of a directory can go round a cyclic chain for ever (fat32.cpp:235-258, 366-405). Input: `FatDirectory.LoopNeverEnds`. Exactly: `FatDirectory.WalkExact` and `ListWalkExact`; on a cyclic chain with an end mark, a match or an unreadable sector they end.
- Long file names are cut to 13 characters (fat32.cpp:159-175) and listed names to 63 bytes. Input: `FatDirectory.FourteenCut`. Exactly: `FatDirectory.LongNameCut`, `FatDirectory.ShownFindable`.

## Left out

- Pipeline.CompileWritten: speaks of sound programs only, assumes that the stack below the caller is unbounded mapped memory, and promises nothing once a program accesses memory outside its frame.
- Parser.Compiler.ParseAndCompile: error recovery is followed, but not the messages, and not the flags for a seen return and for a broken expression; a read past the last token sees the end of the text, where the source would see an older program's tokens.
- Pipeline.CompileText: lexer errors are forgotten when the parser starts, as in the source, and nothing is said of the tokens after one.
- Accepted.CheckedLaid: the frame size is an unbounded integer; the source's is 32-bit, and the theorems about running code ask for a frame below 2 GB.
- Faithful.StmtsFaithful: the set of initialised names is kept in textual order as in the source; it is no claim about control flow.
- Leftovers.StoreExact: asks for a jump-free index, because a misplaced address may by chance be the right one; `IndexExact` gives the address in that case.
- XhciRing.RingIsFifo: each field of a TRB is stored and read as one unit, and stores become visible in program order; slot numbers out of range and missing rings, for which the source does nothing, are not modelled, and the bulk functions only in the last section.
- Completion.EventRing.WaitTransfer: the number of polls is a parameter; doorbells and the event dequeue register are not modelled.
- Tasks.Kernel.Tick: memory is word-granular, registers are integers, floating-point state is not saved, as in the source; the pushes of an interrupt must fit the running stack.
- Tasks.Kernel.Create: takes fresh memory as a given region that overlaps no other stack.
- Glyphs.FontEngine.GetGlyph: the TrueType library is a parameter: boxes, pixels and advances rounded by the source's floating-point formula; drawing, kerning and blending are not modelled.
- FatFile.ReadFile: the drive table and mounting are not modelled; it speaks of paths on which every search ends, because a method cannot run for ever; `FatDirectory.WalkExact` says when that is.
- Emitter.CodeBuffer.PatchJump: where the operand was dropped because the buffer is full, the source stores behind the buffer and the model stores nothing; `CodeSize.ProgramFits` shows that no accepted program gets there.
- ShellPaths.Normalize: paths are sequences and not buffers; of a path with a component that had to be cut only the length is promised.
- Utf8.RoundTrip: code points of more than 21 bits are not modelled.
- Descriptors.UsbDevice.Walk: the first types seen and the class triples it copies for display are not modelled.
- Framebuffer drawing, the shell's commands, the mouse, the game, register and port access, ACPI, the bootloader, memory allocation and interrupt tables are not part of this model.
