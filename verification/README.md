# A verified model of the test_code programs

The repository is a collection of small programs. This project models the ones that hold an algorithm or a
protocol, in Dafny 4.11, and proves properties of the model. `dafny verify dfyconfig.toml` checks everything.

**The request/response pipeline (`lua/coroutine`).** A client sends values through a pipe; a server thread starts
one Lua coroutine per value under a fresh session number; each coroutine writes a record to an inner server and
yields; the inner server starts one worker thread per record; workers answer in any order; the server resumes the
coroutine it finds under the answer's session, and the coroutine passes the result to the client.

- `Pipeline.dfy` is the step system: four pipes, four kinds of threads with program counters, the session table, the
  array of requests, the Lua stack depth. Every branch that reports or suffers a fault is in the model and writes to
  a fault log. The record leaves inside the first resume and the session is registered afterwards; these are separate
  steps, so a worker may answer in between.
- `PipelineSafety.dfy` holds the invariant and its preservation, `PipelineRuns.dfy` the theorems about reachable
  states: conservation, no fault ever, an end to every run, a permutation as the result, a quiet shutdown.
  `PipelineSchedules.dfy` shows that the interleavings are there: every order of the results occurs, requests and
  responses overlap, the bound on the Lua stack is reached.
- `Entrance.dfy` is `entrance.lua` as a class over its counter and table, `LuaHost.dfy` the stack discipline of
  `DoRequest` and `DoResponse`. The step system uses their functions.
- `PipeIo.dfy` is `ReadPipe` and `WritePipe` over a pipe whose calls may return short, fail, or give EAGAIN.
  `RecordPipe.dfy` shows that such byte pipes are queues of whole records.
- `BytePipeline.dfy` puts the two together: the same threads over byte pipes, where records are encoded as C ints and
  every `read()` is a step of its own that may come back short. Every run of that system is a run of the record-level
  one, so all of its theorems carry over; it ends, and it ends in order. `BytePipelineRuns.dfy` is the converse: every
  run of the record-level system is a run over bytes, with every way of splitting the reads.

**Big integer multiplication.** `Decimals.dfy` (decimal notation, signed integers) and `BigInt.dfy` (parser,
convolution, carry pass, printing, the program) model `c/test_big_integer_multiplication.c` on arrays of 32-bit ints;
Dafny checks that no operation overflows and no index leaves its array.

**The other programs.** `Newton.dfy` (square root over exact reals), `MakeDirs.dfy` (recursive mkdir over an abstract
file system, in place on the two path buffers), `TreeLister.dfy` (recursive listing), `CiCompare.dfy` (two
case-insensitive comparisons), `Utf8Len.dfy` (character count against RFC 3629). `CString.dfy` and `Machine.dfy` are shared.

## Where the code does not do what it is meant to

- **`WritePipe`** (`lua/coroutine/lib_src/pipeop.c:64`) advances over a chunk even after the EAGAIN branch, so a message
  that meets one EAGAIN is reported as sent and is not. `PipeIo` models the loop as written and as intended.
  `AsWrittenLosesIff` gives the exact condition: what the pipe took is what the loop stepped over if and only if no
  write came back with EAGAIN, whatever the function returns. `SilentLoss` is the concrete case with return value 0,
  `NotEvenAPrefix` the one with -1; `IntendedLosesNothing` is what the intended form guarantees.
- **`BigIntMultiplication`** (`c/test_big_integer_multiplication.c:99`) terminates the result at cell n+m and not behind
  the last digit. `BigInt` models both. `LosesLastDigit`: -9 times 9 prints -8. `LiteralCorrectIff` gives the exact
  condition on the sign and the size of the product; `MultiplyLines` states what the program as written prints, for
  every earlier content of the buffer.
- **`DoResponse`** (`lua/coroutine/src/main.c:389-420`) leaves its message handler on the Lua stack. The program's ten
  values stay within the slots Lua guarantees; `MinStackIff` shows that this holds for at most 15 values and, in some
  interleaving, fails for every larger number.
- **The directory maker** (`c/test_make_multiple_dir.c:26-46`) returns 0 for a path that exists as something other than
  a directory. `NotADirectory` is the input; `DirectoryIff` and the contract of `MakeDirs` give the exact condition.
- **The directory maker** also fails on a doubled slash behind a directory it has just made: for `a//b` it makes `a`,
  then tries to make `a/`. `DoubledSlash` is the input; `MakeDirs` returns 0 if and only if `CanMake`, and `Stop` says
  how far it gets otherwise.

## Model

| member | source | states |
|---|---|---|
| PipelineRuns.OnePlaceEach | lua/coroutine/src/main.c:187-224 | in every reachable state each drawn session occurs exactly once over service pipe, inner server, worker, response pipe, server thread and completed responses, with the value of its own request, and no other record exists |
| PipelineRuns.ValuesConserved | lua/coroutine/src/main.c:118-141 | unsent values, unread requests, values in flight, unread results and collected results are together the multiset the client sent |
| PipelineRuns.NoFaultEver | lua/coroutine/lua_script/entrance.lua:26-53 | no reachable state has met a broken pipe, an early end of file, a full request array, a dead coroutine or a missing session, and none can take such a branch next; a held response leads to the suspended coroutine of that very request |
| PipelineRuns.AnswerBeforeRegistration | lua/coroutine/lua_script/entrance.lua:36-38 | the race is real: a state is reachable where the worker has answered and the session table is still empty |
| PipelineRuns.EveryRunEnds | lua/coroutine/src/main.c:118-286 | every run has at most 80 steps per value plus 5 |
| PipelineRuns.StepDescends | lua/coroutine/src/main.c:118-313 | each step of any thread strictly lowers the weighted count of hops still to make, and keeps the invariant |
| PipelineRuns.StuckIsOrderlyEnd | lua/coroutine/src/main.c:148-152 | no thread can move if and only if all have returned; then the client holds a permutation of what it sent, pipes and table are empty, no fault occurred |
| PipelineRuns.ShutdownIsQuiet | lua/coroutine/src/main.c:226-231 | once the client has ended, nothing is in any pipe or worker and the table holds at most the entry being cleared |
| PipelineRuns.ResourcesSuffice | lua/coroutine/src/main.c:242-270 | in every reachable state each worker reads the request it was started with from a slot of its own, `pos` never passes the number of requests, the handler table is at index 1 of the Lua stack and the depth is exactly that of the calls so far, at most one more than the number of values |
| PipelineSchedules.PeakIsReached | lua/coroutine/src/main.c:389-420 | an interleaving in which the last response is set up on a stack that holds the leftovers of all the others |
| PipelineSchedules.MinStackIff | lua/coroutine/src/main.c:356-420 | every call in every interleaving stays within the slots Lua guarantees if and only if there are at most 15 values |
| PipelineSchedules.EveryOrderOccurs | lua/coroutine/src/main.c:296-313 | the workers answer in any order: for every permutation of the values there is a run, with a worker thread for every request, that ends in order with the client holding that permutation |
| PipelineSchedules.RequestsOverlapResponses | lua/coroutine/src/main.c:187-224 | the first result can be on its way to the client when only the second request has been read |
| PipelineSchedules.WaitsExactly | lua/coroutine/src/main.c:118-313 | in every reachable state a thread waits only where the program blocks, and a worker for nobody |
| PipelineSchedules.ChunksAreWhole | lua/coroutine/lib_src/pipeop.c:50-66 | the client's values enter its pipe 1024 at a time, each chunk at once |
| PipelineRuns.RunKeeps | lua/coroutine/src/main.c:109-313 | the invariant holds at the end of every run from a state that has it, and run length plus remaining measure never exceeds the initial measure |
| PipelineSafety.StepKeeps | lua/coroutine/src/main.c:109-313 | every step of every thread keeps the whole invariant |
| PipelineSafety.StepIsClean | lua/coroutine/src/main.c:170-313 | from the invariant, no enabled step enters a fault branch |
| PipelineSafety.LookupHits | lua/coroutine/lua_script/entrance.lua:43-50 | conservation and the table invariant put every response's own coroutine in the table, suspended |
| PipelineSafety.ClientEndIsQuiet | lua/coroutine/src/main.c:127-151 | N collected results leave nothing in flight |
| PipelineSafety.IssuedOnce | lua/coroutine/lua_script/entrance.lua:6-13 | session k belongs to the k-th value sent and to no other |
| PipelineSafety.ServerTable | lua/coroutine/lua_script/entrance.lua:28-50 | the server's steps keep the table equal to the sessions drawn, registered and unanswered |
| PipelineSafety.InnerSlots | lua/coroutine/src/main.c:268-270 | storing a request in the next slot and starting a worker on it keeps every worker's slot its own |
| Pipeline.RequestSteps | lua/coroutine/src/main.c:193-197 | the three server steps for a request have the effect of doRequest on script and pipes, failing write included, and of a completed call on the Lua stack |
| Pipeline.ResponseSteps | lua/coroutine/src/main.c:218-222 | the server steps for a response have the effect of doResponse, for unknown, dead and waiting coroutines; no fault exactly if the coroutine waits and the client is there |
| Entrance.Entrance.DoRequest | lua/coroutine/lua_script/entrance.lua:26-41 | one record with a fresh session leaves and only then is the session entered; a failed write leaves only the spent session number |
| Entrance.Entrance.DoResponse | lua/coroutine/lua_script/entrance.lua:43-53 | the result is passed on exactly if the session maps to a suspended coroutine; the entry is gone in every case |
| LuaHost.LuaHost.DoRequest | lua/coroutine/src/main.c:356-387 | the exact stack and return value for a missing table, missing handlers, success (back to one slot) and a raised error; what lua_pcall gets is doRequest, the value and the descriptor, in this order, with debugTrace as message handler |
| LuaHost.LuaHost.DoResponse | lua/coroutine/src/main.c:389-420 | the same with doResponse, the result, the session and the descriptor, where success leaves the message handler on the stack |
| LuaHost.DepthSinceRequest | lua/coroutine/src/main.c:385-419 | between calls the depth is 1 plus the number of responses since the last request, whatever came before |
| LuaHost.StackHolds | lua/coroutine/src/main.c:356-420 | after any calls the handler table is at index 1, everything above it is a leftover message handler, and the depth is the counted one |
| LuaHost.LuaHost.Serve | lua/coroutine/src/main.c:193-222 | the two functions called in any order on the stack LoadEntranceScript leaves produce that stack |
| PipeIo.ReadPipe | lua/coroutine/lib_src/pipeop.c:13-42 | 0 means the buffer holds exactly the next `len` bytes of the stream; -1 that it holds the prefix that arrived; buffer prefix plus remaining stream is always the original stream; the loop ends |
| PipeIo.ReadFailsIff | lua/coroutine/lib_src/pipeop.c:22-39 | what is stored is what the calls delivered; the loop gives up exactly on an error, an end of file or the eleventh EAGAIN |
| PipeIo.TenRetries | lua/coroutine/lib_src/pipeop.c:22-34 | ten EAGAINs and then the data is a success, eleven EAGAINs a failure |
| PipeIo.ReadLoopEnds | lua/coroutine/lib_src/pipeop.c:19-41 | the number of read calls is bounded by bytes and retries |
| PipeIo.WritePipe | lua/coroutine/lib_src/pipeop.c:44-67 | either form: the pipe gains exactly the chunks that were accepted, in order; 0 means the loop reached the end of the buffer |
| PipeIo.IntendedLosesNothing | lua/coroutine/lib_src/pipeop.c:50-66 | the intended form keeps "taken by the pipe" equal to "stepped over" |
| PipeIo.AsWrittenLosesIff | lua/coroutine/lib_src/pipeop.c:54-64 | for every trace, whatever is returned, the form as written keeps that equality if and only if no write gave EAGAIN; otherwise the pipe took strictly less |
| PipeIo.NotEvenAPrefix | lua/coroutine/lib_src/pipeop.c:54-64 | a run of the form as written that returns -1 after the pipe took bytes that are not a prefix of the buffer |
| PipeIo.ShortMessage | lua/coroutine/lib_src/pipeop.c:50-66 | a message of at most 4096 bytes goes out in one piece by the last write call, or not at all |
| PipeIo.WriteFailsIff | lua/coroutine/lib_src/pipeop.c:54-63 | -1 exactly on an error or the eleventh EAGAIN |
| PipeIo.FormsAgree | lua/coroutine/lib_src/pipeop.c:50-66 | without EAGAIN the two forms are the same loop |
| PipeIo.SilentLoss | lua/coroutine/lib_src/pipeop.c:55-64 | one EAGAIN on a message of at most 4096 bytes: reported as sent, nothing sent |
| RecordPipe.StepRefinesQueue | lua/coroutine/src/main.c:263-263 | every byte-level step is an enqueue, a dequeue of the oldest record, or nothing, on the queue of records |
| RecordPipe.BytesRefineRecords | lua/coroutine/lib_src/pipeop.c:13-67 | over all runs of atomic writers and arbitrary short reads, partly read bytes plus pipe are whole records and the records come out in write order |
| RecordPipe.FreshPipeRuns | lua/coroutine/lib_src/pipeop.c:13-67 | the same from an empty pipe on: the reader has a prefix of what was written, buffer and pipe hold the bytes of the rest |
| RecordPipe.WritePipeAppends | lua/coroutine/lua_lib_src/serverop.c:25-31 | a WritePipe call, in the intended form, that returns 0 for records of at most 4096 bytes is one atomic append of them |
| RecordPipe.ChunkAppends | lua/coroutine/src/main.c:121-122 | each chunk of the client's array is an append of whole ints |
| RecordPipe.ReadPipeTakesRecord | lua/coroutine/src/main.c:208-208 | a successful ReadPipe of one record's size returns the oldest record and leaves the others whole, however it was split |
| RecordPipe.RecordRoundTrip | lua/coroutine/inc/def.h:4-12 | decoding the bytes of a struct of ints gives the struct back |
| RecordPipe.IntLayout | lua/coroutine/inc/def.h:4-12 | the bytes of some ints: lowest byte first, two's complement |
| BytePipeline.MoveRefines | lua/coroutine/src/main.c:109-313 | over byte pipes, a read() changes nothing at the level of records, and every other move of a thread is its step of the record-level system |
| BytePipeline.RunRefines | lua/coroutine/src/main.c:109-313 | every run over byte pipes, the reads split in any way and interleaved with anything, is a run over record pipes, step for step |
| BytePipeline.ReachableRefines | lua/coroutine/src/main.c:109-313 | every reachable state over byte pipes is a reachable state of the record-level system, with whole records in each pipe |
| BytePipeline.RecordsArriveWhole | lua/coroutine/lib_src/pipeop.c:19-41 | a ReadPipe call that has part of a record always finds the rest in the pipe; no thread meets a fault |
| BytePipeline.BytesEndInOrder | lua/coroutine/src/main.c:118-151 | no move is possible if and only if all threads have returned; then the client holds a permutation of what it sent, the table is empty and no byte is left in any pipe |
| BytePipeline.EveryBytesRunEnds | lua/coroutine/src/main.c:118-313 | however the reads are split, a run has at most 724 moves per value plus 45 |
| BytePipeline.ThreadsFit | lua/coroutine/inc/def.h:4-12 | every value and session a thread may write fits into the C ints of the records |
| BytePipelineRuns.RunRealised | lua/coroutine/src/main.c:109-313 | every run over record pipes is a run over byte pipes with the same steps: the two systems have the same runs up to reads |
| BytePipelineRuns.AnyPiecesArrive | lua/coroutine/lib_src/pipeop.c:19-41 | however the bytes a reader lacks are cut into pieces, read() can deliver those pieces |
| BytePipelineRuns.EveryOrderOccursOverBytes | lua/coroutine/src/main.c:296-313 | every order of the results occurs over byte pipes, too |
| BigInt.DelNewlineChar | c/test_big_integer_multiplication.c:7-21 | the buffer's string becomes its part before the first newline |
| BigInt.FirstLineIs | c/test_big_integer_multiplication.c:13-18 | that part ends at the first newline character, or is everything |
| BigInt.AnalysisBigIntString | c/test_big_integer_multiplication.c:23-57 | accepts exactly an optional sign followed by one or more digits; yields the sign and a suffix without leading zeros that denote the same integer |
| BigInt.Convolve | c/test_big_integer_multiplication.c:69-75 | the weighted sum of the cells becomes the product; no cell exceeds 81 times the length of the first factor |
| BigInt.CellHasRoom | c/test_big_integer_multiplication.c:76-83 | in a row worth less than 10^N cell i is below 10^(i+1), so its digits fit into cells 0 to i |
| BigInt.Scatter | c/test_big_integer_multiplication.c:77-82 | spreading a cell never indexes below 0, keeps the value, finishes the cell as a digit and adds at most 9 to each cell on the left |
| BigInt.Carry | c/test_big_integer_multiplication.c:76-83 | the carry pass keeps the value and leaves only digits |
| BigInt.WriteMultiplication | c/test_big_integer_multiplication.c:59-98 | the characters written are the decimal notation of the product, with the sign |
| BigInt.BigIntMultiplication | c/test_big_integer_multiplication.c:59-101 | the exact buffer of the function as written, terminator at n+m |
| BigInt.BigIntMultiplicationIntended | c/test_big_integer_multiplication.c:59-101 | with the terminator behind the text the buffer's string is the product in decimal |
| BigInt.LiteralCorrectIff | c/test_big_integer_multiplication.c:84-99 | the function as written is right for every earlier buffer content if and only if sign and size of the product put the last digit at n+m |
| BigInt.TerminatorShows | c/test_big_integer_multiplication.c:99-99 | the exact condition for one given earlier buffer content |
| BigInt.LosesLastDigit | c/test_big_integer_multiplication.c:99-99 | the function's text for -9 times 9 is -81, and what any buffer shows is -8 |
| BigInt.DigitProducts | c/test_big_integer_multiplication.c:67-98 | the text for each product of two digits, in the characters themselves |
| BigInt.OutputFits | c/test_big_integer_multiplication.c:104-127 | output, sign and terminator of two inputs of up to 256 characters fit 513 cells |
| BigInt.ProductDenotes | c/test_big_integer_multiplication.c:127-128 | the text meant for the product is accepted by the parser and denotes the product of what the inputs denote |
| BigInt.MultiplyLines | c/test_big_integer_multiplication.c:103-130 | end to end: a format error exactly for a line that is not an integer; otherwise what is printed, and exactly when that is the product |
| Decimals.ShownParses | c/test_big_integer_multiplication.c:84-98 | printed text is an integer with the intended value |
| Decimals.CharsAreDecimal | c/test_big_integer_multiplication.c:89-98 | a row of digits without leading zeros is the decimal notation of its value |
| Decimals.DecimalNotation | c/test_big_integer_multiplication.c:95-95 | the notation ends with the character of the last digit, behind the notation of the tenth |
| Decimals.DigitNotation | c/test_big_integer_multiplication.c:70-72 | one more digit character makes a value ten times as large, plus that digit |
| Decimals.IntegerLanguage | c/test_big_integer_multiplication.c:29-54 | the accepted strings, in the characters themselves |
| Decimals.SignsDenote | c/test_big_integer_multiplication.c:34-40 | a plus sign or none keeps the value, a minus sign negates it |
| Newton.TestSqrt | c/test_sqrt_by_newton_iteration.c:10-19 | the answer is the first iterate within 0.001 of its predecessor; its residue lies between 0 and 0.000001; rounds are logarithmic in n |
| Newton.FirstRound | c/test_sqrt_by_newton_iteration.c:6-15 | the first round gives 1 + n/4, at or above the root |
| Newton.Descent | c/test_sqrt_by_newton_iteration.c:13-17 | after round one the iterates never increase and the gap at least halves |
| Newton.AboveRoot | c/test_sqrt_by_newton_iteration.c:15-15 | after round one no iterate is below the root |
| Newton.ErrorIdentity | c/test_sqrt_by_newton_iteration.c:15-15 | the residue of a step is the square of the move |
| Newton.ClosesBy | c/test_sqrt_by_newton_iteration.c:16-17 | the exit test holds at round k+2 once 2 * PRECISION * 2^k reaches 1 + n/4 |
| Newton.RootWithinPrecision | c/test_sqrt_by_newton_iteration.c:4-18 | an answer with that residue exceeds the true root by at most 0.001 |
| MakeDirs.MakeDirs | c/test_make_multiple_dir.c:12-47 | for every non-empty path: 0 if and only if no proper prefix is a non-directory and no empty component follows anything but an existing directory; up to the first obstacle exactly the missing prefixes are made, in order; after 0 the path is a directory if and only if it was not something else before; the file system stays closed |
| MakeDirs.TrailingSlash | c/test_make_multiple_dir.c:17-20 | exactly one slash at the end is dropped, so p and p/ have the same outcome |
| MakeDirs.PlainPaths | c/test_make_multiple_dir.c:26-46 | for a path without doubled or final slash: success and what exists afterwards, in terms of the path's prefixes |
| MakeDirs.PlainName | c/test_make_multiple_dir.c:26-42 | such a path is its own name in the file system |
| MakeDirs.SlashesInNames | c/test_make_multiple_dir.c:26-42 | a doubled slash names what a single one names, a final slash nothing more |
| MakeDirs.DirectoryIff | c/test_make_multiple_dir.c:26-46 | the exact condition for a successful run to leave a directory at the path |
| MakeDirs.NotADirectory | c/test_make_multiple_dir.c:26-31 | an input on which the program succeeds and the path is not a directory |
| MakeDirs.DoubledSlash | c/test_make_multiple_dir.c:33-45 | a//b fails after making a, and succeeds where a is a directory |
| MakeDirs.CreateNext | c/test_make_multiple_dir.c:33-45 | at each mkdir of the forward scan: it succeeds with the next missing prefix, or the run is at its first obstacle |
| MakeDirs.LongestExisting | c/test_make_multiple_dir.c:26-32 | the backward scan ends at the longest existing prefix or at 0 |
| MakeDirs.CreateFrom | c/test_make_multiple_dir.c:33-46 | the forward scan makes every missing prefix up to the first obstacle and succeeds if and only if there is none |
| MakeDirs.MadeNodes | c/test_make_multiple_dir.c:33-46 | afterwards a name exists exactly if it did before or names a prefix that was passed; old entries keep their kind, new ones are directories |
| MakeDirs.ParentsFirst | c/test_make_multiple_dir.c:40-42 | at each mkdir the target is absent and its parent is there |
| TreeLister.Travelfs | lua/test_lfs/test_lfs.lua:28-45 | the traversal prints exactly the listing |
| TreeLister.GenLevelSpace | lua/test_lfs/test_lfs.lua:8-14 | two spaces for each level |
| TreeLister.BaseOfChild | lua/test_lfs/test_lfs.lua:16-26 | the base of a path built by the traversal is the entry's name |
| TreeLister.BaseOfRoot | lua/test_lfs/test_lfs.lua:16-26 | the base of the first path, with or without slashes before and behind |
| TreeLister.ReadsListing | lua/test_lfs/test_lfs.lua:34-44 | the printed lines read back as (level, mode, name) records, each node before its children |
| TreeLister.ListingDeterminesTree | lua/test_lfs/test_lfs.lua:28-50 | parsing the listing gives the tree back, without the dot entries |
| TreeLister.ListingReturnsTree | lua/test_lfs/test_lfs.lua:28-50 | a tree given without "." and ".." comes back as it is |
| TreeLister.VisibleEntries | lua/test_lfs/test_lfs.lua:36-41 | in any tree exactly the entries not named "." or ".." show, in order |
| TreeLister.ListingExample | lua/test_lfs/test_lfs.lua:34-44 | the printed lines for a directory of two files, in the characters themselves |
| CiCompare.ComparatorsAgree | c++/test_lexicographical_compare.cc:15-53 | the boolean comparison is true exactly when the three-way one is negative |
| CiCompare.LessMeans | c++/test_lexicographical_compare.cc:33-53 | less means: equal up to the fold for some length, and there the first string has ended or has the smaller character |
| CiCompare.Antisymmetric | c++/test_lexicographical_compare.cc:47-53 | swapping the arguments negates the result, despite the length-based swap inside |
| CiCompare.Transitive | c++/test_lexicographical_compare.cc:33-53 | the three-way comparison is transitive, strictly so unless both steps are equal |
| CiCompare.ZeroIffFoldEqual | c++/test_lexicographical_compare.cc:33-45 | zero exactly on strings that are equal up to the fold |
| Utf8Len.Utf8Len | lua/test_utf8.lua:3-9 | the count of matches is the number of lead-class bytes, for arbitrary bytes |
| Utf8Len.SingleBytes | lua/test_utf8.lua:5-5 | which single bytes are counted |
| Utf8Len.MatchesSegmentEncoding | lua/test_utf8.lua:5-5 | on the RFC 3629 encoding of any characters the matches are the encodings of the single characters |
| Utf8Len.CountsScalars | lua/test_utf8.lua:3-9 | so the count is the number of characters |
| Utf8Len.EncodingHoldsCharacter | lua/test_utf8.lua:5-5 | the encodings counted are those of RFC 3629: their free bits are the character, their length is the shortest possible |
| Utf8Len.EncodingExamples | lua/test_utf8.lua:5-5 | the encoded examples of section 7 of RFC 3629 |
| Utf8Len.LeadCountAdds | lua/test_utf8.lua:3-9 | counting is additive over any concatenation |

## Left out

- Pipes: capacity limits in the step system (one run's bytes are assumed to fit), so a write there meets no EAGAIN; EAGAIN is treated in `PipeIo` only.
- Failing system calls in the step system, apart from thread creation, end of file and writes to closed pipes, which are modelled.
- `select` in the client: its descriptor set is never cleared (lua/coroutine/src/main.c:117-128); the model takes it as cleared, so the client reads only when its pipe is readable.
- EAGAIN on reading in the byte-level system: a read() there is made when bytes are in the pipe; `RecordsArriveWhole` shows a record once begun never waits, `PipeIo.ReadPipe` treats the retries.
- `WritePipe` in the byte-level system is one atomic append for each chunk, as the intended form has it (`RecordPipe.WritePipeAppends`, `RecordPipe.ChunkAppends`).
- `ServiceReq` and `ServiceResp` share one datatype; the record-level system has unbounded values, the byte-level one C ints and fewer than 2^31 values.
- The arguments' type checks of `lsop_call` and `lsop_send` always pass here and have no counterpart.
- PipelineRuns.ResourcesSuffice: assumes a request array at least as long as the run; the program uses ten for both.
- Null-pointer guards of the big-integer functions: strings and buffers are values or arrays that exist.
- A missing input line (`fgets` returning NULL) in the big-integer program.
- Newton.TestSqrt: exact reals; rounding, NaN and n <= 0 are not modelled.
- MakeDirs.MakeDirs: the empty path is excluded (the program reads the character before its buffer); "." and ".." count as ordinary names; permissions, links and concurrent changes are not modelled.
- TreeLister.Travelfs: a failing `lfs.attributes` call is not modelled; a print is one line even if a name holds a newline.
- The locale's `tolower`: any fold function is allowed instead.
- `serverop1.c`, `forbidden_text.lua`, build files, and the demonstrations of library and operating-system calls: no property of interest.
