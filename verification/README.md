# UReactor: verified models

A Dafny 4.11 project about the parts of UReactor whose behaviour is hardest to see from one function at a time.
`dafny verify dfyconfig.toml` checks all of it. No file depends on anything outside this directory.

## What is modelled

**The fiber protocol** (`Fiber*.dfy`, from `ureactor/src/fiber.cc`). A system has any number of threads and fibers.
One step is one atomic load, store, test-and-set, critical section or stack switch inside `resume`, `yield`, `reset`,
`wake`, `run` or the destructor; a run is any sequence of steps of any threads (`FiberSteps.Apply`, `FiberSteps.Run`).
A context is a one-shot continuation: the stack that was switched away from, or nothing. The callback is an arbitrary
script whose k-th segment ends in ready, hold with a reason, return or throw, and between two switches a callback may
call any member of any fiber, so resumes nest and fibers move between threads. `FiberInvariant.Inv` is what every step
keeps (`FiberPreservation.Always`); `FiberRefinement` shows that what a run reports about one fiber is a history of a
sequential object with indivisible operations; `FiberTheorems` draws the conclusions. `FiberProgress` says on the fields
themselves what each operation comes to, and that none waits for another thread. `FiberImpl` is the object itself with
its fields updated in place, each critical section proved against the function that the steps use.

**The UTF-8, UTF-16 and UTF-32 codec** (`Utf8.dfy`, `BitArithmetic.dfy`, `Utf8Sequences.dfy`, `WideStrings.dfy`, from
`ureactor/src/utils/string_utils.cc`), against the grammar in section 4 of RFC 3629 and sections 2.1 and 2.2 of
RFC 2781. The width of `wchar_t` is a parameter. The methods compute on 32-bit words with the shifts, masks and
disjunctions of the source; `BitArithmetic` relates each expression to the arithmetic of the specification and shows
that no bit is lost. Assertions do not abort (NDEBUG).

**The log formatter** (`InlineBuffers.dfy`, `Numerals.dfy`, `LogTime.dfy`, `DateCache.dfy`, `Patterns.dfy`,
`Formatters.dfy`, from `ureactor/src/logger/formatter.cc` and `buffer.h`). The output buffer is concatenation; the date
cache is invisible; the pattern compiler and the items together mean what the pattern says when it is read from left to
right. `localtime_r` and the text that `strftime` generates are parameters (`DateCache.Library`) under a fixed time zone
and locale; of `strftime` only its documented contract is used, including that too small an array is left indeterminate.
Assertions do not abort, so a malformed pattern yields a code.

**The configuration store** (from `ureactor/src/config/config.cc`, `config_var.cc`, `ureactor/include/ureactor/config/`):
names (`ConfigNames.dfy`), flattening of YAML documents that may share nodes and contain cycles (`Flattening.dfy`),
loading (`YamlLoading.dfy`), skipping of unmodified files while files are edited at any moment (`DirectoryReload.dfy`),
one variable under concurrent and re-entrant writers (`ConfigVars.dfy`), the table of variables under races
(`ConfigRegistry.dfy`), and conversion between values and nodes (`ScalarParsing.dfy`, `Conversion.dfy`).
`DirectoryReload`, `ConfigVars` and `ConfigRegistry` are transition systems like the fibers, with the lock sections also
given as methods on objects.

**The two worklists** of `tools/vendor_boost_context.py` (`Vendoring.dfy`).

Where code and documentation differ, the code is followed. One spelling may surprise: an integer may be written `0x-5`
but not `-0x5`, because the prefix is removed before the sign is read (`ScalarParsing.SignedHexadecimal`). And a log
record in the first fraction of a second that a 64-bit count of nanoseconds can express is dated by a second that the
count cannot express (`LogTime.EarliestStamp`).

## Model

| member | source | states |
|---|---|---|
| FiberPreservation.Always | ureactor/src/fiber.cc:106-331 | after every sequence of steps: each thread's chain of nested fibers, its current pointer, the fibers' fields and what has been reported about them agree |
| FiberRefinement.RunsAreSequential | ureactor/src/fiber.cc:154-210 | in every interleaving, each reported event of a fiber (resume accepted or rejected for its state, segment start and end, return, wake, reset, destruction) is one that an object with indivisible operations could have produced there |
| FiberTheorems.OverlapsAreReal | ureactor/src/fiber.cc:44-55 | a resume or reset is turned away as already active only while some thread is inside an operation on that very fiber or runs it, and the rejection changes nothing |
| FiberTheorems.GuardsAlwaysNest | ureactor/src/fiber.cc:21-41 | live resume guards on a thread form a LIFO chain: following callers from the executed stack meets exactly the chain, each frame saved the fiber beneath, and the current pointer is what the innermost guard set, or null |
| FiberTheorems.NestIsUnique | ureactor/src/fiber.cc:23-41 | following callers from a stack down can meet only one sequence of fibers |
| FiberTheorems.OperationsAreExclusive | ureactor/src/fiber.cc:44-55 | a fiber is in one place over all chains; the operating flag or a begun destruction holds exactly while some thread is in an operation on it; a stored context has no live guard, so migrating it cannot restore another thread's current pointer |
| FiberTheorems.ResumesFollowTheScript | ureactor/src/fiber.cc:154-185 | since construction or the last reset, segments run once each in script order, and the k-th accepted resume returns what segment k came to (READY, WAITING, TERM or EXCEPT), whatever wakes have done since |
| FiberTheorems.FibersRest | ureactor/src/fiber.cc:118-201 | while no operation and no destruction is in progress: a context is stored iff INIT, READY or WAITING, an exception iff EXCEPT, and the state differs from the last result only by a wake |
| FiberTheorems.DeadRejections | ureactor/src/fiber.cc:164-199 | "no resumable context" and the rejection of a self-reset never happen |
| FiberTheorems.WindowIsClosed | ureactor/src/fiber.cc:154-185 | while any thread is still inside an operation on a fiber, a resume from anywhere is rejected and changes nothing, so a wake before the context is saved cannot have it resumed twice |
| FiberTheorems.Decisions | ureactor/src/fiber.cc:158-200 | resume of a fiber at rest is accepted iff INIT or READY; reset only after TERM or EXCEPT and with a callback; every rejection restores the whole system state |
| FiberTheorems.WakesAreConserved | ureactor/src/fiber.cc:174-210 | a count over a fiber's whole life, resets included: hold suspensions exceed successful wakes by one while WAITING and by none otherwise, and a wait reason is set exactly while WAITING (what a wake does is FiberProgress.WakeDecides) |
| FiberProgress.WakeDecides | ureactor/src/fiber.cc:203-210 | in every state of every run, also while the fiber is still inside an operation: a wake of a WAITING fiber makes it READY without a wait reason and touches nothing else; a wake of any other fiber changes nothing |
| FiberProgress.WaitReasonIsScripted | ureactor/src/fiber.cc:174-183 | over every run: a WAITING fiber has the wait reason that its callback gave to YieldToHold at the end of the segment that it ran last, and any other fiber has none |
| FiberProgress.SegmentEnds | ureactor/src/fiber.cc:174-331 | in every run a callback that comes to the end of a segment publishes READY, or WAITING with its reason, or TERM with the callback dropped, in both states at once, or stores its exception; nothing else changes |
| FiberProgress.OperationsFinish | ureactor/src/fiber.cc:106-331 | from any point of any run, six steps of its own take a thread out of the member function that it is in, whatever the other threads do in between: no operation waits for another |
| FiberProgress.ResumeComesBack | ureactor/src/fiber.cc:154-331 | in every state of every run, an accepted resume that nothing interferes with runs the next segment of the script and returns what that came to; the thread is where it was, the fields are exactly those that the way of ending asks for, and nothing else in the system has changed |
| FiberProgress.ResetStartsAnew | ureactor/src/fiber.cc:118-201 | in every state of every run, an undisturbed reset of a finished fiber leaves the fields of a new one, and changes nothing else |
| FiberProgress.DestructionDecides | ureactor/src/fiber.cc:106-116 | destroying the current fiber, or one with an operation in progress, ends the process; any other fiber is gone in the end and nothing else has changed, its suspended stack having been unwound with that fiber as the current one |
| FiberProgress.ConstructionDecides | ureactor/src/fiber.cc:98-152 | a construction draws the next id; an empty callback is refused after that; otherwise there is one fiber more, in the state INIT with a fresh context |
| FiberTheorems.StrayYieldsAreRejected | ureactor/src/fiber.cc:106-116 | cleanup code of a dying fiber runs with that fiber current, and its yields, yields outside any fiber and holds without a reason are rejected without effect |
| FiberTheorems.OnlyStrayYieldsAreRejected | ureactor/src/fiber.cc:174-183 | the yields that callbacks make by their scripts are never rejected, in any run |
| FiberTheorems.CountIsExact | ureactor/src/fiber.cc:98-116 | the fiber count is the number of fibers that exist, rejected constructions included |
| FiberImpl.FiberImpl.constructor | ureactor/src/fiber.cc:98-152 | a new fiber is INIT with its callback, a fresh context and nothing else |
| FiberImpl.FiberImpl.TestAndSet | ureactor/src/fiber.cc:46-49 | returns the old flag, sets it, touches nothing else |
| FiberImpl.FiberImpl.BeginResume | ureactor/src/fiber.cc:159-167 | the critical section of resume is the protocol's step: two rejections that release the flag, or EXEC |
| FiberImpl.FiberImpl.SaveContext | ureactor/src/fiber.cc:169 | the context becomes what the switch returned, as in the protocol's step |
| FiberImpl.FiberImpl.PublishYield | ureactor/src/fiber.cc:174-183 | accepted iff EXEC with a caller; on acceptance the wait reason is the one given, and both states are the target; otherwise nothing changes |
| FiberImpl.FiberImpl.Wake | ureactor/src/fiber.cc:203-210 | true iff WAITING, which becomes READY without a reason; otherwise nothing changes |
| FiberImpl.FiberImpl.Finish | ureactor/src/fiber.cc:304-331 | the last critical section of run, in either branch |
| FiberImpl.FiberImpl.Reset | ureactor/src/fiber.cc:187-201 | success leaves what the constructor leaves, under the same id; every rejection leaves all fields as they were |
| FiberImpl.ResetStepsCompose | ureactor/src/fiber.cc:118-201 | the single stores of an accepted reset, taken in a row, end in what the constructor leaves |
| Utf8.ByteString.AppendUtf8 | ureactor/src/utils/string_utils.cc:31-55 | the words that the shifts and masks give are pushed as exactly the encoding |
| Utf8.EncodeMeets | ureactor/src/utils/string_utils.cc:31-55 | the bytes pushed for a scalar value are one character of the RFC 3629 grammar whose bits spell that value |
| Utf8.EncodeInverts | ureactor/src/utils/string_utils.cc:31-111 | re-encoding the value of any character of the grammar gives the same bytes, and the value is a scalar value |
| Utf8.DecodeEncoded | ureactor/src/utils/string_utils.cc:31-111 | an encoding followed by anything starts with exactly one character: the code point's own bytes |
| Utf8.AcceptsTheGrammar | ureactor/src/utils/string_utils.cc:68-109 | the decoder's range tests accept exactly the grammar's multi-byte characters (no overlong form, surrogate or excess), and its accumulation gives their value |
| Utf8.LeadWord | ureactor/src/utils/string_utils.cc:60-89 | the range tests on the first word sort lead bytes as the grammar does, and the masks leave the bits of the code point |
| Utf8.GatherWords | ureactor/src/utils/string_utils.cc:95-103 | the loop on words succeeds iff all the bytes are continuation bytes, and then has gathered their bits without loss; otherwise it stops behind the first other byte |
| Utf8.DecodeUtf8CodePoint | ureactor/src/utils/string_utils.cc:57-111 | on the source's own word expressions: succeeds at an offset iff a character of the grammar starts there, and then yields its value and the offset behind it |
| BitArithmetic.Cast | ureactor/src/utils/string_utils.cc:59-133 | a number that fits is not changed by the casts to an unsigned word and back |
| BitArithmetic.TwoBytes | ureactor/src/utils/string_utils.cc:37-41 | the two pushed words, by shift, mask and disjunction, are the numbers that section 3 of RFC 3629 spreads the bits over |
| BitArithmetic.ThreeBytes | ureactor/src/utils/string_utils.cc:42-47 | the same for the three pushed words |
| BitArithmetic.FourBytes | ureactor/src/utils/string_utils.cc:48-54 | the same for the four pushed words |
| BitArithmetic.Accumulates | ureactor/src/utils/string_utils.cc:102 | with at most fifteen bits gathered, the shift and disjunction multiply and add, and both operands can be read back from the result: no bit is lost |
| BitArithmetic.Pairs | ureactor/src/utils/string_utils.cc:127-133 | the word computed from a surrogate pair is the code point of section 2.2 of RFC 2781, without wrap-around |
| BitArithmetic.Halves | ureactor/src/utils/string_utils.cc:178-180 | the two words pushed for a code point above 0xFFFF are the surrogates of section 2.1 of RFC 2781 |
| Utf8Sequences.DecodeAllEncoded | ureactor/src/utils/string_utils.cc:115-195 | decoding the encoding of any sequence of code points gives it back |
| Utf8Sequences.EncodeAllDecoded | ureactor/src/utils/string_utils.cc:115-195 | encoding what any well-formed text decodes to gives the text back |
| Utf8Sequences.OrderIsPreserved | ureactor/src/utils/string_utils.cc:31-55 | code-point sequences compare lexicographically as their encodings do, both ways (section 1 of RFC 3629) |
| Utf8Sequences.SelfSynchronises | ureactor/src/utils/string_utils.cc:31-55 | a byte of encoded text starts a code point iff it is not a continuation byte |
| WideStrings.WstringToString | ureactor/src/utils/string_utils.cc:115-155 | the result is the encoding of the wide text's code points, or empty if the text is ill-formed |
| WideStrings.StringToWstring | ureactor/src/utils/string_utils.cc:157-195 | the result is the wide form of the text's code points, or empty if the text is ill-formed |
| WideStrings.ReadUnits | ureactor/src/utils/string_utils.cc:124-144 | one unit or a surrogate pair is read as its code point, on words; failure iff RFC 2781 (or the range of UTF-32) admits none there |
| WideStrings.WideRoundTrip | ureactor/src/utils/string_utils.cc:115-195 | for both widths, well-formed wide text survives the way to UTF-8 and back |
| WideStrings.NarrowRoundTrip | ureactor/src/utils/string_utils.cc:115-195 | for both widths, well-formed UTF-8 survives the way to wide text and back |
| WideStrings.EmptyMeansIllFormed | ureactor/src/utils/string_utils.cc:124-169 | on non-empty input either conversion is empty iff the input is ill-formed |
| WideStrings.ReserveSuffices | ureactor/src/utils/string_utils.cc:161-162 | the decoded text is never longer than the reserved length |
| WideStrings.WellFormedMeansEncoded | ureactor/src/utils/string_utils.cc:122-187 | what the two converters accept is exactly the encodings of code-point sequences, with UTF-16 pairing as in RFC 2781 |
| InlineBuffers.InlineBuffer.Append | ureactor/src/logger/buffer.h:18-41 | the view becomes the old view followed by the data, before, at and after the switch to the vector |
| InlineBuffers.InlineBuffer.Copy | ureactor/src/logger/buffer.h:25-30 | copying behind the bytes held in the inline array keeps them and adds the data |
| InlineBuffers.InlineBuffer.AppendChar | ureactor/src/logger/buffer.h:49-52 | one character more at the end of the view |
| InlineBuffers.SmallStreamBuffer.Put | ureactor/src/logger/buffer.h:84-92 | appends exactly the reported number of characters, none for a count that is not positive |
| InlineBuffers.SmallStreamBuffer.Overflow | ureactor/src/logger/buffer.h:94-102 | appends a character, ignores end-of-file, never fails |
| Numerals.DigitsDenote | ureactor/src/logger/formatter.cc:52-63 | the digits written for a number denote it in base ten without a redundant leading zero |
| Numerals.DigitValues | ureactor/include/ureactor/config/convert.h:57-62 | the hexadecimal digits are these sixteen in either case, with these values |
| Numerals.ReadBack | ureactor/include/ureactor/config/convert.h:33-85 | from_chars reads what to_chars wrote as the same number and consumes all of it, for every value of the type |
| LogTime.FloorIsGreatest | ureactor/src/logger/formatter.cc:165-168 | the conversion to whole units rounds down, for negative time stamps too |
| LogTime.TruncatesExactly | ureactor/src/logger/formatter.cc:106-113 | C++ division gives the one quotient that leaves a remainder smaller than the divisor and on the side of the dividend |
| LogTime.SecondExactly | ureactor/src/logger/formatter.cc:165-173 | for every 64-bit time stamp: the second that %d shows, after its way through the 64-bit ticks of the clock, is the floored one iff the stamp is not before -9223372036 s |
| LogTime.EarliestStamp | ureactor/src/logger/formatter.cc:165-173 | the failing input: the earliest time stamp is shown as a second in the far future |
| LogTime.MicrosComplete | ureactor/src/logger/formatter.cc:259-277 | for every time stamp %u lies in 0..999999 and completes the floored second, under C++ remainder |
| LogTime.SecondAndMicros | ureactor/src/logger/formatter.cc:165-277 | the second shown by %d and the microseconds of %u add up to the floored time stamp iff the stamp is not before -9223372036 s |
| LogTime.WriteMicros | ureactor/src/logger/formatter.cc:259-285 | the right-to-left loop leaves the six padded digits |
| LogTime.PaddedDenotes | ureactor/src/logger/formatter.cc:278-285 | padded digits of a number that fits denote it |
| LogTime.MicrosReadBack | ureactor/src/logger/formatter.cc:259-285 | the six digits read back as the microseconds that complete the floored second |
| DateCache.Strftime | ureactor/src/logger/formatter.cc:212-217 | the contract of the C function: the text if it fits with its NUL, otherwise 0 and an indeterminate array |
| DateCache.CStringEnds | ureactor/src/logger/formatter.cc:222-226 | what strftime is given of a format is the part before its first NUL |
| DateCache.Cache.Refresh | ureactor/src/logger/formatter.cc:203-244 | the growth loop ends with a buffer of 128 doubled up to 65536 and a valid entry iff text, prefix and terminator fit 64 KiB; it grows only when half would not do |
| DateCache.Cache.Format | ureactor/src/logger/formatter.cc:158-245 | whatever the cache holds, the output gains exactly the uncached text, or nothing together with the exception that time conversion or the limit calls for |
| DateCache.FormatAll | ureactor/src/logger/formatter.cc:158-245 | over any sequence of date items of one thread, mixing formats and time stamps and including failures, every call behaves as if it were the first |
| Patterns.LexUnlex | ureactor/src/logger/formatter.cc:414-457 | writing down any expressible list of pieces gives a pattern that is read as that list |
| Patterns.UnlexLex | ureactor/src/logger/formatter.cc:414-457 | every well-formed pattern is the written form of its pieces, so the expressible lists are all there are |
| Patterns.LexAppend | ureactor/src/logger/formatter.cc:417-448 | patterns compose wherever the right one does not begin with an opening brace |
| Patterns.BrokenExactly | ureactor/src/logger/formatter.cc:425-442 | the two shape errors occur iff a well-formed pattern is followed by a lone percent sign at the end, or by a directive whose brace argument is unclosed or empty |
| Patterns.CompileMerges | ureactor/src/logger/formatter.cc:399-450 | no item is an empty literal and no two literals are adjacent |
| Patterns.CompileNulls | ureactor/src/logger/formatter.cc:384-455 | a null item arises iff some directive is unknown |
| Patterns.KnownExactly | ureactor/src/logger/formatter.cc:363-378 | the known directives are these thirteen letters |
| Formatters.Formatter.ParseDirective | ureactor/src/logger/formatter.cc:426-447 | in positions of the whole pattern, the next step of the grammar: the pending literal and the item are stored, or the argument error is returned |
| Formatters.Formatter.AddLiteral | ureactor/src/logger/formatter.cc:399-408 | stores a pending literal unless it is empty, and clears it |
| Formatters.Formatter.Parse | ureactor/src/logger/formatter.cc:414-457 | returns 0 iff the pattern is well formed and names known directives only, and then holds the merged items of its pieces; otherwise the code of the first shape error, or of an unknown directive |
| Formatters.CompilePreservesMeaning | ureactor/src/logger/formatter.cc:399-457 | running the compiled items is interpreting the pieces directly, for every record, up to the first date failure |
| Formatters.Formatter.FormatItem | ureactor/src/logger/formatter.cc:65-340 | an item appends its field's text, or throws before appending |
| Formatters.Formatter.Format | ureactor/src/logger/formatter.cc:41-47 | the view becomes the old view followed by what the pattern text stands for, cut off where the first date item throws |
| Formatters.PatternsConcatenate | ureactor/src/logger/formatter.cc:417-448 | what a pattern stands for is what its left part stands for, followed by what its right part does, wherever the right part does not begin with an opening brace |
| Formatters.PlainTextStands | ureactor/src/logger/formatter.cc:68-82 | text without percent signs stands for itself |
| Formatters.PercentStands | ureactor/src/logger/formatter.cc:426-432 | a doubled percent sign stands for one |
| Formatters.TextsStand | ureactor/src/logger/formatter.cc:85-340 | %m, %p, %c, %f and %N stand for message, level, logger name, file name and thread name, %n and %T for a line feed and a tab |
| Formatters.NumbersStand | ureactor/src/logger/formatter.cc:106-328 | %r stands for the elapsed time in truncated milliseconds, %t, %F and %l for the two ids and the line in decimal, %u for six digits of microseconds |
| Formatters.DatesStand | ureactor/src/logger/formatter.cc:151-245 | %d with a non-empty argument stands for the text that strftime generates for that argument, up to a NUL, at the local time of the second; %d alone for that of "%Y-%m-%d %H-%M-%S"; it throws when the time has no local form or text, prefix and terminator exceed 64 KiB |
| Formatters.AppendInteger | ureactor/src/logger/formatter.cc:52-63 | appends the decimal text of any 64-bit integer: 24 characters always suffice |
| ConfigNames.NormalizeConfigName | ureactor/src/config/config_var.cc:23-33 | keeps the length, adds 32 to every character from A to Z, and leaves every other character |
| ConfigNames.ValidNames | ureactor/src/config/config_var.cc:15-38 | a name is valid iff it is not empty and every character is one of the 38 in the list |
| ConfigNames.NormalIsNormal | ureactor/src/config/config_var.cc:23-38 | normalising twice is normalising once, and valid names are already normal |
| ConfigNames.NormalIdentifies | ureactor/src/config/config_var.cc:23-33 | two names meet in one variable iff they differ only in the case of ASCII letters |
| Flattening.Members.CollectMembers | ureactor/src/config/config.cc:63-101 | the recursion appends the members of the subtree and returns the flag, or throws |
| Flattening.ThrowsExactly | ureactor/src/config/config.cc:65 | on any document, cyclic or not, it throws iff a chain of as many usable keys as is left up to 65 starts at the node |
| Flattening.CollectYields | ureactor/src/config/config.cc:63-101 | otherwise the members are all key paths, each once, in document order, and the flag is true iff every key of every map met is a scalar with a valid name |
| Flattening.NamesAreDotted | ureactor/src/config/config.cc:86-97 | a member's name is the dotted list of its normalised keys, itself valid and normal |
| Flattening.KeyIs | ureactor/src/config/config.cc:80-92 | from the raw key: an entry is usable iff its key is a scalar whose lower-cased text is not empty and has only the characters of a name, and that text is then its segment |
| YamlLoading.Store.FromNode | ureactor/include/ureactor/config/config_var.h:118-134 | a conversion that throws changes nothing; otherwise the variable has the converted value |
| YamlLoading.Store.AssignAll | ureactor/src/config/config.cc:174-180 | each variable ends at its last successful conversion; false iff the conversion of some registered member failed |
| YamlLoading.LastGoodIsLast | ureactor/src/config/config.cc:174-180 | that value is the conversion of the last member of that name that converts |
| YamlLoading.NoneGood | ureactor/src/config/config.cc:174-180 | with no such member the old value stays |
| YamlLoading.Store.LoadFromYaml | ureactor/src/config/config.cc:164-182 | throws iff a chain of 65 usable keys starts at the root, and then no variable has changed; otherwise last successful conversions, and false iff some key or conversion failed; an undefined or null root succeeds without effect |
| DirectoryReload.SkipsAreSafe | ureactor/src/config/config.cc:211-238 | in every run with edits at any moment, also between sampling and reading: a file is skipped only if its last load attempt succeeded and read exactly what the file held when its stamp was sampled |
| DirectoryReload.SkipsAreCurrent | ureactor/src/config/config.cc:213-217 | at the moment of the skip: if the file still has the sampled stamp, its content is exactly what the last attempt, which succeeded, read |
| DirectoryReload.LoadedIsSkipped | ureactor/src/config/config.cc:43-54 | a loaded file that keeps its stamp is skipped by the next call iff that is not forced |
| DirectoryReload.IterationDecides | ureactor/src/config/config.cc:213-229 | a whole iteration with any edits between its steps: skipped without effect iff unforced and recorded with the sampled stamp; otherwise the record is dropped, the file is read and loaded if it is there, and recorded with the sampled stamp iff that succeeds; then the next unforced iteration skips the file if it still has that stamp |
| DirectoryReload.Always | ureactor/src/config/config.cc:211-238 | every recorded stamp vouches for the content of the last attempt, which succeeded |
| DirectoryReload.LoadedFiles.LoadFile | ureactor/src/config/config.cc:213-229 | one iteration around an edit: skipped iff unforced and the recorded stamp is the sampled one; otherwise the record is gone unless reading and loading succeed, which records the sampled stamp; it is what the steps of the run leave in their order |
| ConfigVars.StoresFormAChain | ureactor/include/ureactor/config/config_var.h:95-114 | over any interleaving of concurrent and re-entrant calls, the stores form an unbroken chain from the initial to the current value, each changing it |
| ConfigVars.StoresAreDelivered | ureactor/include/ureactor/config/config_var.h:95-208 | each store is in the hands of exactly one activation until setValue returns; it takes at most one snapshot of distinct listeners and calls them in order, once each, with that store's values, all of them before the return, even when callbacks throw, write or remove listeners |
| ConfigVars.QuietMeansDelivered | ureactor/include/ureactor/config/config_var.h:112-208 | when no thread is inside setValue, every store has been delivered to its whole snapshot |
| ConfigVars.SetValueSteps | ureactor/include/ureactor/config/config_var.h:95-114 | in any state, a call of setValue that nothing interferes with, from a callback or not: an equal value is kept without a call; any other is stored, every registered listener is called once in order with the old and the new value whichever throw, and the call returns to where it was made |
| ConfigVars.SnapshotsAreCurrent | ureactor/include/ureactor/config/config_var.h:138-192 | a snapshot is the list that the additions, removals and clearings before it leave |
| ConfigVars.ConfigVar.CompareAndStore | ureactor/include/ureactor/config/config_var.h:100-111 | false iff the values are equal; the value is the wanted one either way; in every state with that value it is the step of the run |
| ConfigVars.ConfigVar.AddListener | ureactor/include/ureactor/config/config_var.h:138-151 | the new listener comes last, as in the step of the run |
| ConfigVars.ConfigVar.RemoveListener | ureactor/include/ureactor/config/config_var.h:153-164 | the loop removes the first entry of that id and keeps the rest in order, as in the step of the run |
| ConfigVars.WithoutKeeps | ureactor/include/ureactor/config/config_var.h:153-164 | removal takes out that listener and no other |
| ConfigVars.ConfigVar.Notify | ureactor/include/ureactor/config/config_var.h:185-208 | the loop calls every listener of the snapshot once, in order, whichever of them throw |
| ConfigVars.NotifySteps | ureactor/include/ureactor/config/config_var.h:185-208 | the steps of a notification that nothing interferes with make the calls that the loop makes, whichever callbacks throw |
| ConfigRegistry.LookupsAgree | ureactor/src/config/config.cc:126-162 | in every interleaving, all non-null results for one normalised name are the same object, the first one inserted, with the type of that insertion |
| ConfigRegistry.TypesAreRespected | ureactor/src/config/config.cc:126-134 | a typed lookup hands out nothing of another type |
| ConfigRegistry.RefusalsAreJustified | ureactor/src/config/config.cc:126-162 | a lookup that yields nothing found no such name, or another type, or its own construction failed |
| ConfigRegistry.TableOnlyGrows | ureactor/src/config/config.cc:136-162 | keys are valid, normal and their variable's own name; the size counts first insertions; no entry is ever removed or replaced |
| ConfigRegistry.SpellingsMeet | ureactor/src/config/config.cc:105-118 | in every run, looking up any spelling of a registered name, with letters in either case, hands out the object registered under it, and a typed lookup does so iff the type is the one asked for |
| ConfigRegistry.UnknownNames | ureactor/src/config/config.cc:105-108 | a lookup of what spells no registered name finds nothing |
| ConfigRegistry.CallsAnswer | ureactor/src/config/config.cc:136-162 | a call with any steps of other threads between its own throws iff the normalised name is invalid; it answers by type with the variable that it finds, or that another thread has inserted meanwhile; otherwise it inserts and returns its own |
| ConfigRegistry.Registry.EmplaceVariable | ureactor/src/config/config.cc:157-160 | keeps an entry that is there, adds one that is not, returns the one stored; it is the emplace step of any thread that stands before it |
| ConfigRegistry.Registry.LookupOrCreate | ureactor/src/config/config.cc:136-162 | throws iff the normalised name is invalid; a name that is there is left alone and answered iff the type is the one asked for; otherwise the table gains what was created and that is the answer; the table, the objects and the outcome are those of the steps of the run |
| ScalarParsing.TrimView | ureactor/src/utils/string_utils.cc:202-211 | the two searches find the trimmed text |
| ScalarParsing.TrimExactly | ureactor/src/utils/string_utils.cc:202-211 | trimming gives the one text, without white space at its ends, that lies between white space |
| ScalarParsing.SpacesAre | ureactor/include/ureactor/utils/string_utils.h:21 | white space is these six characters |
| ScalarParsing.ParseArithmetic | ureactor/include/ureactor/config/convert.h:33-72 | the imperative parser computes the specified result |
| ScalarParsing.ParsesExactly | ureactor/include/ureactor/config/convert.h:33-72 | reading succeeds with a number iff the whole trimmed text is a numeral for it and it is in range |
| ScalarParsing.SignedHexadecimal | ureactor/include/ureactor/config/convert.h:43-62 | for any hexadecimal digits: a minus sign after the prefix is read iff the type is signed and the number in range; one before the prefix is rejected by every type |
| ScalarParsing.EqualIgnoreCase | ureactor/src/config/convert.cc:20-34 | true iff the texts differ only in the case of ASCII letters |
| ScalarParsing.ParseBool | ureactor/src/config/convert.cc:38-58 | the twelve words, in any case, between white space, and nothing else |
| ScalarParsing.BooleansExactly | ureactor/src/config/convert.cc:23-58 | the trimmed and lower-cased text is true iff it is one of these six words, false iff one of these other six, and nothing otherwise |
| Conversion.RoundTrip | ureactor/include/ureactor/config/convert.h:101-257 | by induction over types nested to any depth: whatever node ToNode may yield for a value, in whatever order sets and maps are iterated, FromNode reads back that value |
| Conversion.ReadsTyped | ureactor/include/ureactor/config/convert.h:101-257 | whatever FromNode reads is a value of the type, to any depth |
| Conversion.IntegersExactly | ureactor/include/ureactor/config/convert.h:101-141 | an integer or enumeration reads a node as a number iff the node is a scalar whose trimmed text is a numeral for it and it is in range; every other node is refused |
| Conversion.BooleansRead | ureactor/include/ureactor/config/convert.h:107-116 | a boolean reads from a scalar, iff its trimmed text is one of the twelve words in any case |
| Conversion.StringsRead | ureactor/include/ureactor/config/convert.h:117-120 | a string reads from every scalar and nothing else, as the whole text |
| Conversion.ListsExactly | ureactor/include/ureactor/config/convert.h:181-205 | a list reads from a sequence, iff all its items read, as their values in order |
| Conversion.SetsExactly | ureactor/include/ureactor/config/convert.h:181-205 | a set reads from a sequence, iff all its items read, as the set of their values, repeated ones included |
| Conversion.MapsExactly | ureactor/include/ureactor/config/convert.h:225-245 | a map reads from a mapping, iff all keys are scalars and all values read, as the first value of each key |
| Conversion.ItemsExactly | ureactor/include/ureactor/config/convert.h:181-205 | a sequence converts iff all its items do, and to their values in order |
| Conversion.PairsExactly | ureactor/include/ureactor/config/convert.h:225-245 | a mapping converts iff all keys are scalars and all values convert, and of equal keys the first one counts |
| Conversion.ReadNode | ureactor/include/ureactor/config/convert.h:101-141 | the dispatch over types computes the specified result |
| Conversion.ReadSequence | ureactor/include/ureactor/config/convert.h:181-205 | the loop converts item by item and stops at the first failure |
| Conversion.ReadPairs | ureactor/include/ureactor/config/convert.h:225-245 | the loop emplaces pair by pair and stops at the first failure |
| Conversion.ToNode | ureactor/include/ureactor/config/convert.h:143-255 | there is a node for every value of every type |
| Vendoring.ModuleClosure | tools/vendor_boost_context.py:29-35 | the table holds exactly the modules reachable from the root through references, each with the sorted list, without repeats, of its references to others; the KeyError occurs iff a reachable module has no CMakeLists.txt |
| Vendoring.HeaderClosure | tools/vendor_boost_context.py:42-51 | the headers processed, each once, are exactly the least set that holds the initial ones and is closed under includes that the archive has |

## Left out

- Memory orderings: atomics and lock sections are sequentially consistent, indivisible steps, and a thread always sees its own thread-local current fiber.
- Forced unwinding: destruction runs the suspended stack's cleanup code as ordinary code that cannot yield; a callback that swallows the unwinding exception is not modelled.
- Calls on a fiber that does not exist or is being destroyed are the caller's error and no step of the system; `shared_ptr` ownership (`keep_alive`, `GetThis`) is not modelled.
- Boost.Context, stack sizes, guard pages and the validation of sizes, and allocation failure anywhere.
- Fiber ids and listener ids are unbounded; 2^64 wrap-around is not modelled.
- Names of fiber states and wait reasons, `rethrowFailed`, and the getters: single-branch facts.
- The code unit of a narrow string is a number from 0 to 255 in the codec and a character elsewhere.
- The conversion of a whole second to the 64-bit ticks of the system clock wraps around where C++ leaves the overflow undefined, which is only before -9223372036 s; see `LogTime.SecondExactly`.
- `localtime_r` and `strftime` are parameters; the default locale and time zone do not change, as the source requires.
- Level names, thread names, back traces, appenders, `Logger`, `LogLine` and the aborting behaviour of failed assertions.
- The YAML parser and emitter: documents are graphs of nodes as the parser hands them over, and pairs of a mapping are given in iteration order.
- Floating-point conversion and types with a user-written `YAML::convert`.
- DirectoryReload.SkipsAreSafe: load calls do not overlap, a file is read in one indivisible step, and every edit gives the file a stamp it has not had before; listing, sorting and the checks of the directory itself are left out, so files come in any order.
- YamlLoading.Store.LoadFromYaml: listeners that write other variables or register new ones during the load are excluded.
- ConfigVars.StoresAreDelivered: what a callback does is any sequence of the modelled calls; its own data is not modelled.
- Registered variables converted by another converter than the default one for their type cannot arise through the public interface and are not modelled.
- `Config::Visit`, `ClearAllListeners`, `toString` and `fromString`: easy members.
- The initial header set, the copying of sources and the manifest of the vendoring script.
