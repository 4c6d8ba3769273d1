# Verified model of the mail stack

A Dafny model of the parts of `@mailts/core` whose behaviour is decided by code rather than by a network or
a library: the byte-level codecs and framers on one side, the schedulers, allocators and protocols on the
other. Byte strings are sequences of characters 0 to 255, strings of the language are sequences of 16-bit
code units, integers are unbounded unless a module says otherwise.

Two halves of one codec that live in different source files are modelled together, and the main results are
that they undo each other. Schedulers and protocols are classes whose methods are the steps between two
`await`s; each method is tied to a function on states, and runs of steps are sequences of events, in any
order and number. A timer is a due time, the clock is a step, and what other code decides (which message
arrives, how an attempt ends, how long a retry waits) is a parameter of the step.

| file | what it models |
|---|---|
| `Text.dfy` | searching, decimal and hexadecimal numbers, joining |
| `ImapFraming.dfy`, `ImapWire.dfy` | the incremental framer of IMAP responses, and responses as servers write them |
| `Tokenizer.dfy`, `MailboxName.dfy`, `UidSets.dfy` | IMAP tokens, modified UTF-7, sequence sets |
| `Base64.dfy`, `QuotedPrintable.dfy` | the two transfer encodings |
| `Params.dfy`, `Headers.dfy` | RFC 2231 parameters, header folding and header blocks |
| `MimeTree.dfy`, `MimeContent.dfy` | entity trees, and built messages with encoded leaves |
| `MimeLimits.dfy` | what the parser's limits do to any input |
| `SmtpData.dfy`, `Dkim.dfy`, `RelaxedBody.dfy` | dot stuffing, the signed body behind it, and its canonical form word by word |
| `RateLimiter.dfy` | the multi-window sliding limiter |
| `MailQueue.dfy`, `MailQueueSafety.dfy` | the send queue, and what its steps keep |
| `MailQueueOrder.dfy`, `MailQueueUrgency.dfy` | the order in which its jobs start: places, priorities, arrival |
| `MailQueueWork.dfy`, `MailQueueFate.dfy` | how much it works, and what becomes of its jobs |
| `MailWorker.dfy` | the bridge to an external queue |
| `ImapPool.dfy`, `ImapPoolLoans.dfy` | the session pool, and who gets which of its sessions |
| `SqliteQueue.dfy` | the lease protocol over shared rows |

## Where the code does not do what one would first claim

Each of these is stated as an exact condition, with the code left as it is.

- A response line of exactly the maximum length is accepted in one piece and refused when a chunk ends
  between its CR and its LF (src/imap/ImapParser.ts:93 against :98). `AcceptedHoweverCut` says which streams
  are accepted however they are cut, `LineOfExactlyMaxLine` is such a line.
- `encodeQP` makes every line break a bare LF before it encodes, so a CR just before a CRLF is taken for a
  part of the line break (src/core/Message.ts:322-324). `TextRoundTrip`: exactly the texts without CR CR LF
  survive; `CrLost` is the shortest that does not.
- `foldHeader` joins the words of a long header by single spaces (src/core/Headers.ts:130-150). `FoldExact`:
  exactly the headers that fit on one line or have no two spaces in a row are unchanged; `TwoSpacesLost` is
  one that is not.
- Dot stuffing also doubles a dot after a bare LF, which a server does not undo (src/smtp/SmtpCommand.ts:78).
  `TransparencyExact`: exactly the messages without one are received as sent; `BareLfDotIsDoubled` is one that
  is not. `SignedBodySurvives`: for the DKIM body hash only such dots in the body matter.
- `acquire` queues a caller behind the waiters of other keys without serving anybody
  (src/imap/ImapPool.ts:150). `AcquireQuietExact` says from every open pool when a caller who could be served
  is left waiting, `AcquireMayLeaveServable` is a run that ends so.
- A lease that is not renewed in time can be taken over while its holder still works on the job.
  `OverdueJobIsShared` shows this from every state, so the polling condition of `LeaseExclusion` is needed.
- `restoreJobs` stores the attempts and the status it read, not those of the row it has claimed since
  (src/queue/SqliteQueue.ts:269-296). `AttemptsKeptExact`: attempts are kept exactly when the row has as many
  as when it was read; `StaleReadForgets` is a run with every lease in order in which another process's
  attempt is forgotten. When no other process comes in between nothing is lost (`RestoredExact`).
- "Throttled jobs keep their place" (src/queue/MailQueue.ts:240) holds against jobs that were pending, not
  among throttled jobs: each is put in front of those promoted before it. `PlacesKeptExact`: a promotion keeps
  the order of a tier's throttled jobs exactly when at most one of them is due. `LaterGoesFirst` is a run in
  which the last of two throttled jobs of one priority starts first.
- An interrupt gives the attempt back but not the use the limiter recorded for it
  (src/queue/MailQueue.ts:203 and :274-281). `InterruptUndoesStart` says that nothing else is left over.
- `resume` or `start` after `shutdown` can let the worker fetch messages that its queue refuses and nobody ever
  answers (src/queue/MailWorker.ts:163-178). `LateStartExact`: from every state after `shutdown` in which the
  worker does not consume, that may happen exactly when no loop that `shutdown` waits for will see the call;
  `RestartLoses` is a short run to such a state: shutdown during the first fetch, which finds nothing, then
  resume.
- A message whose data is missing or whose priority is unknown makes `enqueue` throw, and nothing answers it
  either (src/queue/MailWorker.ts:169-179). `RefusedExact`: a delivery is never answered exactly when it comes
  to a consuming loop and the queue is shut down or the message is faulty.

## Model

| member | source | states |
|---|---|---|
| ImapFraming.ImapParser.Feed | src/imap/ImapParser.ts:78-130 | one call computes Drain on the bytes held and the new chunk, reports exactly its responses or throws exactly when it does, and keeps at most maxResponseBytes + maxLineBytes |
| ImapFraming.ImapParser.Take | src/imap/ImapParser.ts:132-150 | removes exactly the first n bytes of the buffer list and returns them |
| ImapFraming.ImapParser.TakeLine | src/imap/ImapParser.ts:152-165 | removes and returns the bytes before the first CRLF, with the CRLF, or changes nothing |
| ImapFraming.ChunkIndependence | src/imap/ImapParser.ts:78-165 | for every way of cutting a stream that stays strictly within the limits, the responses of all calls are the one-shot framing of the whole stream |
| ImapFraming.DrainFrames | src/imap/ImapParser.ts:78-130 | what a call reports is the one-shot framing of the bytes it has, without blank lines |
| ImapFraming.DrainCut | src/imap/ImapParser.ts:78-130 | stopping where a chunk ends and going on later gives the same responses as having had all bytes at once |
| ImapFraming.AcceptedHoweverCut | src/imap/ImapParser.ts:90-116 | a stream is accepted under every cut if and only if it is strictly within the limits |
| ImapFraming.LineOfExactlyMaxLine | src/imap/ImapParser.ts:90-98 | a line of exactly maxLineBytes that is accepted whole and refused when cut |
| ImapFraming.HeldBytesBounded | src/imap/ImapParser.ts:78-130 | what is assembled plus what is owed was announced, and the bytes held after a call are at most maxResponseBytes + maxLineBytes |
| ImapWire.AnnouncedExact | src/imap/ImapParser.ts:48 | a line announces a literal if and only if it ends in digits in braces, with or without a plus |
| ImapWire.AnnouncedLength | src/imap/ImapParser.ts:104-106 | the length announced is the number those digits write |
| ImapWire.WholeStream | src/imap/ImapParser.ts:78-130 | for every sequence of responses written as lines and literals of any bytes, the framer reports exactly these responses, or throws exactly when a line, a literal or a response is over its limit |
| ImapWire.AnyCut | src/imap/ImapParser.ts:78-165 | however the written stream is cut, calls that do not throw report exactly its responses and keep nothing; a length over its limit makes one of them throw, and lengths below the limits make none throw |
| ImapWire.AllReported | src/imap/ImapParser.ts:119-128 | no written response that holds a printable character is left out |
| ImapWire.BlankDropped | src/imap/ImapParser.ts:170-173 | responses of white space are not reported |
| ImapWire.FramesWritten | src/imap/ImapParser.ts:78-130 | the one-shot framing of a written stream is what was written |
| Tokenizer.TokenizeString | src/imap/ImapTokenizer.ts:25-34 | the tokenizer ends on every input and yields the tokens of the grammar function |
| Tokenizer.Cursor.ReadNext | src/imap/ImapTokenizer.ts:48-60 | reads one token, or none at a stray closing parenthesis or the end, and leaves what follows |
| Tokenizer.Cursor.ReadList | src/imap/ImapTokenizer.ts:62-73 | reads the items up to the closing parenthesis or the end |
| Tokenizer.Cursor.ReadQuoted | src/imap/ImapTokenizer.ts:75-86 | reads a quoted string, each backslash standing for the character after it |
| Tokenizer.Cursor.ReadLiteral | src/imap/ImapTokenizer.ts:88-96 | reads a literal by its length, or moves nothing if there is none |
| Tokenizer.Cursor.ReadAtom | src/imap/ImapTokenizer.ts:98-113 | reads an atom with its balanced brackets, nil if it is one of the spellings of NIL |
| Tokenizer.TokenizeRendered | src/imap/ImapTokenizer.ts:25-113 | any sequence of token trees, with every atom that is not one of the eight spellings of NIL, literals holding any bytes in each form of their length, any gaps and any spelling of NIL, is read back from its wire form |
| Tokenizer.AtomTokenExact | src/imap/ImapTokenizer.ts:110-112 | the text of an atom gives nil if and only if it is one of the eight spellings of NIL, and otherwise itself |
| Tokenizer.NilRendered | src/imap/ImapTokenizer.ts:110 | each of the eight spellings reads as nil before whatever ends an atom |
| Tokenizer.NextRendered | src/imap/ImapTokenizer.ts:48-113 | a rendered token reads back and leaves exactly what follows it |
| Tokenizer.LiteralRendered | src/imap/ImapTokenizer.ts:88-96 | a literal is read by its length whatever its bytes look like |
| Tokenizer.LiteralExact | src/imap/ImapTokenizer.ts:89-90 | a literal is read exactly where digits in braces and a line break stand, with or without tilde and plus, within 32 characters |
| Tokenizer.AstringRoundTrip | src/imap/ImapTokenizer.ts:152-156 | an argument reads back as its value; it is a quoted string if and only if it has only ASCII characters other than NUL, CR and LF |
| MailboxName.EncodeMailboxName | src/imap/ImapTokenizer.ts:168-194 | the loop computes the encoding function |
| MailboxName.DecodeMatch | src/imap/ImapTokenizer.ts:196-205 | the callback decodes one run |
| MailboxName.RoundTrip | src/imap/ImapTokenizer.ts:168-205 | decoding gives every sequence of 16-bit code units back, lone surrogates included |
| MailboxName.EncodedIsAscii | src/imap/ImapTokenizer.ts:168-194 | the encoded name is printable ASCII |
| MailboxName.PlainKept | src/imap/ImapTokenizer.ts:180-184 | printable ASCII other than the ampersand stands for itself |
| MailboxName.RunShifted | src/imap/ImapTokenizer.ts:171-189 | everything else, up to the next printable character, is one shifted run |
| MailboxName.TaipeiRun | src/imap/ImapTokenizer.ts:171-178 | the run in the first example of RFC 3501, section 5.1.3 |
| UidSets.ShowRanges | src/imap/ImapTokenizer.ts:214-224 | the two loops compute the maximal runs, written as ranges |
| UidSets.JoinRanges | src/imap/ImapTokenizer.ts:225-231 | the last loop fills chunks up to maxLen |
| UidSets.UidSetChunks | src/imap/ImapTokenizer.ts:214-231 | the result is the chunked ranges of the sorted distinct positive UIDs |
| UidSets.SortedUidsExact | src/imap/ImapTokenizer.ts:215 | the filter keeps exactly the positive integers among the numbers given |
| UidSets.UidSetsLossless | src/imap/ImapTokenizer.ts:214-231 | for numbers up to 2^53 - 1, every chunk is in the grammar that checkSeqSet accepts; read back, the chunks denote exactly the positive integers given, and no two ranges could be merged |
| UidSets.EachOnce | src/imap/ImapTokenizer.ts:214-231 | no UID is denoted by two ranges |
| UidSets.UidSetsFit | src/imap/ImapTokenizer.ts:225-231 | every chunk fits maxLen whenever each range does |
| UidSets.ChunksKeep | src/imap/ImapTokenizer.ts:225-231 | the chunks hold exactly the ranges, each once and in order |
| UidSets.SeqSetExact | src/imap/ImapCommands.ts:54-72 | checkSeqSet accepts exactly numbers and stars, alone or in pairs with a colon, with commas between them |
| Base64.RoundTrip | src/imap/ImapTokenizer.ts:168-205 | decoding undoes encoding, with or without padding |
| Base64.BodyRoundTrip | src/core/Message.ts:317-319 | a base64 body survives the line wrapping and the reader's clean-up |
| Base64.BodyLines | src/core/Message.ts:317-319 | every line of a base64 body has 76 characters but the last, which has at most 76, and together they are the encoding |
| Base64.FilledWithZeros | src/core/Message.ts:271 | the encoding is filled up with = to a multiple of four, and the bits that stand for no byte are zero |
| Base64.AlphabetIs | src/core/Message.ts:271 | the digits are those of RFC 4648 |
| QuotedPrintable.EncodeQPBytes | src/core/Message.ts:326-350 | the loop computes the encoding function |
| QuotedPrintable.DecodeQuotedPrintable | src/core/MimeParser.ts:370-384 | the loop computes the decoding function |
| QuotedPrintable.RoundTrip | src/core/Message.ts:326-350 | for all bytes, decoding the encoding gives the bytes with each lone LF as CRLF and everything else unchanged |
| QuotedPrintable.TextRoundTrip | src/core/Message.ts:322-324 | through encodeQP the text survives if and only if it has no CR CR LF |
| QuotedPrintable.CrLost | src/core/Message.ts:322-324 | CR CR LF comes back as CR LF |
| QuotedPrintable.OutputFits | src/core/Message.ts:326-350 | every output line has at most 76 characters |
| QuotedPrintable.OutputSeven | src/core/Message.ts:326-350 | the output is seven-bit text |
| QuotedPrintable.PlainKept | src/core/Message.ts:343-347 | a line of plain text stays readable |
| QuotedPrintable.Unwraps | src/core/MimeParser.ts:370-373 | the reader's first two replacements undo the line cutting and nothing else |
| QuotedPrintable.PaddingDropped | src/core/MimeParser.ts:370-373 | blanks that transport adds before a line break are dropped, however many and whichever line break it is |
| Params.SplitPercentEncoded | src/core/Headers.ts:106-117 | the loop ends and computes the split |
| Params.CutBackText | src/core/Headers.ts:106-117 | moving the cut back never cuts a triplet, and leaves progress for any limit of at least 3 |
| Params.SplitPctSegments | src/core/Headers.ts:106-117 | the segments are whole, non-empty, at most max long, and join to the text |
| Params.PercentDecodeBytes | src/core/MimeParser.ts:120-131 | the loop computes the decoding function |
| Params.SplitOutsideQuotes | src/core/MimeParser.ts:133-146 | the loop computes the split at semicolons outside quotes |
| Params.AssembleCoded | src/core/MimeParser.ts:66-118 | any split of a percent-encoded text into whole triplets is put together again, in the order of its indexes |
| Params.AddCodedParam | src/core/Headers.ts:82-97 | a value that needs encoding is recovered as its UTF-8 bytes, whatever the ASCII fallback says, in one piece or any number of continuations |
| Params.ParamsRoundTrip | src/core/Headers.ts:82-127 | parsing what withParams wrote gives the value and every parameter: plain ones as they were, encoded ones as their UTF-8 bytes |
| Headers.Fold | src/core/Headers.ts:130-150 | the loop computes the folded header |
| Headers.FoldExact | src/core/Headers.ts:130-150 | unfolding gives the header back if and only if it fits on one line or has no two spaces in a row |
| Headers.FoldLines | src/core/Headers.ts:126-150 | a header is folded only where it must be: a line over 78 characters is a single word, the first one with the name before it, and at each fold the next word would not have fitted |
| Headers.TwoSpacesLost | src/core/Headers.ts:130-150 | a long value with two spaces in a row does not come back |
| Headers.HeadersRoundTrip | src/core/MimeParser.ts:14-54 | a serialised header block reads back as the same headers in the same order |
| Headers.AnyLines | src/core/MimeParser.ts:20-26 | a header block is cut into its lines with CRLF or bare LF alike |
| Headers.AnyFold | src/core/MimeParser.ts:20-22 | a fold may be CRLF or a bare LF before a space or a tab |
| Headers.SerializeConcat | src/core/Message.ts:294-296 | two header blocks one after the other are the block of all the headers |
| Headers.MimeHeaders.constructor | src/core/MimeParser.ts:20-33 | the lines and the index by lower-case name agree with the block |
| Headers.MimeHeaders.RawValue | src/core/MimeParser.ts:35-38 | the first header of the name, in any case |
| MimeTree.SplitMultipartBody | src/core/MimeParser.ts:322-357 | the loop computes the split at delimiter lines |
| MimeTree.HeadBodyRoundTrip | src/core/MimeParser.ts:313-320 | a serialised entity is split where the printer joined head and body |
| MimeTree.AnyBlankLine | src/core/MimeParser.ts:313-320 | the head ends at the first blank line whichever line breaks are used, and is empty if the entity begins with one |
| MimeTree.LineFreeEntity | src/core/Message.ts:51-53 | no line of a serialised entity begins with the delimiter of an enclosing multipart, because "=_" cannot occur in its bodies and nested boundaries differ |
| MimeTree.MultipartRoundTrip | src/core/MimeParser.ts:322-357 | a multipart body is split into exactly the entities it was made of |
| MimeTree.BoundaryParam | src/core/Message.ts:298-303 | the boundary parameter the printer adds reads back |
| MimeTree.TreeRoundTrip | src/core/MimeParser.ts:267-311 | parsing a serialised entity tree of any shape within the limits, attached messages included, gives the same tree and counts each part once, whatever custom headers the builder lets the message have |
| MimeTree.PartsRoundTrip | src/core/MimeParser.ts:285-311 | the same for the children of a multipart, which share one part count |
| MimeContent.QpHasNoMark | src/core/Message.ts:326-350 | "=_" never occurs in a quoted-printable body |
| MimeContent.Base64HasNoMark | src/core/Message.ts:317-319 | "=_" never occurs in a wrapped base64 body |
| MimeContent.ContentRoundTrip | src/core/MimeParser.ts:359-384 | the leaves of the parsed tree decode to what they were built from |
| MimeContent.MessageRoundTrip | src/core/Message.ts:294-311 | a built message, parsed within the limits, has the tree and the leaf bytes it was built from, also inside attached messages, and nothing is truncated |
| MimeContent.AttachmentDescribed | src/core/MimeParser.ts:279-291 | the type, the disposition, their parameters and the encoding are read from an attachment's headers as the builder was given them |
| MimeContent.EncodedMessageRead | src/core/MimeParser.ts:303-309 | a message attached in base64 is parsed as a message |
| MimeLimits.LimitsExact | src/core/MimeParser.ts:267-311 | for every input the tree has at most maxParts parts (or the root alone) and at most maxDepth levels; against wider limits that give the tree in full, truncated is reported if and only if it has too many parts or a part that nests at maxDepth, and otherwise the tree is the same |
| MimeLimits.HeaderCutReported | src/core/MimeParser.ts:274-277 | a header block over maxHeaderBytes is reported as truncated |
| MimeLimits.TypesKnown | src/core/MimeParser.ts:282 | in every parsed tree a part without a type is a message in a digest and plain text elsewhere |
| SmtpData.MarkerOnlyAtEnd | src/smtp/SmtpCommand.ts:75-81 | for every message whatsoever the end-of-data marker occurs only at the end of the payload |
| SmtpData.ReceivedIs | src/smtp/SmtpCommand.ts:75-81 | for every message the server gets the message with a second dot after each bare LF that a dot follows, completed by a CRLF if need be, and nothing else |
| SmtpData.TransparencyExact | src/smtp/SmtpCommand.ts:75-81 | the server gets the message back, completed by a CRLF if need be, if and only if no dot follows a bare LF |
| SmtpData.BareLfDotIsDoubled | src/smtp/SmtpCommand.ts:78 | a message with a dot after a bare LF that is received with two dots |
| Dkim.CanonicalizeBodyRelaxed | src/core/Dkim.ts:121-136 | popping the empty lines computes the canonical form |
| RelaxedBody.CanonLineIs | src/core/Dkim.ts:126-129 | the canonical form of a line is its words with one space between them, one before them if it began with blanks, and nothing after them |
| RelaxedBody.CanonicalIs | src/core/Dkim.ts:121-136 | the canonical form of a body is that of its lines, whatever their line breaks, up to the last one that has a word, each ended by CRLF |
| RelaxedBody.EveryBody | src/core/Dkim.ts:122-124 | every body is such lines of words and blanks |
| RelaxedBody.SameCanonical | src/core/Dkim.ts:121-136 | two bodies have the same canonical form if and only if up to the last line with a word they have the same words in the same lines and the same lines begin with blanks |
| Dkim.CanonicalTwice | src/core/Dkim.ts:121-136 | canonicalization is idempotent |
| Dkim.CanonicalThenBreak | src/core/Dkim.ts:121-136 | a CRLF at the end does not change the canonical form |
| Dkim.SignedBodySurvives | src/core/Dkim.ts:31-44 | the received message has a body with the canonical form that was signed if and only if no dot follows a bare LF in the body |
| Dkim.CanonicalDots | src/core/Dkim.ts:121-136 | canonicalization keeps every dot |
| RateLimiter.Limiter.WaitFor | src/queue/RateLimiter.ts:45-64 | prunes the uses of the key and answers the wait function on what is left |
| RateLimiter.Limiter.Record | src/queue/RateLimiter.ts:66-71 | appends one use to the key's list |
| RateLimiter.ExpiryExact | src/queue/RateLimiter.ts:56-61 | at the use found, and not before, enough of the cost has expired |
| RateLimiter.WaitExact | src/queue/RateLimiter.ts:45-64 | the job fits all windows from the answered time on and at no time before it |
| RateLimiter.FitsPruned | src/queue/RateLimiter.ts:73-78 | pruning changes no answer |
| RateLimiter.RateBound | src/queue/RateLimiter.ts:45-78 | over every run with a clock that does not go back and costs within the limits, the starts of each key in each window at each instant cost at most its limit, although history is pruned and a start is recorded later than it was asked for |
| MailQueue.SendQueue.EnqueueJob | src/queue/MailQueue.ts:109-180 | refuses when shut down or when an unfinished job has the id, otherwise puts the job on the list its date asks for |
| MailQueue.SendQueue.RunTick | src/queue/MailQueue.ts:184-211 | the loop computes Tick, of which UrgentFirst and OrderOfArrival speak |
| MailQueue.SendQueue.NextTier | src/queue/MailQueue.ts:213-219 | the first tier with a pending job |
| MailQueue.SendQueue.AskLimiter | src/queue/MailQueue.ts:189-203 | asks the limiter about a job and records a start exactly when the answer is 0 |
| MailQueue.SendQueue.ArmSchedule | src/queue/MailQueue.ts:221-230 | arms the timer for the earliest due time, within the longest delay a timer can have |
| MailQueue.SendQueue.PromoteDueJobs | src/queue/MailQueue.ts:232-248 | the pass over the scheduled jobs computes PromoteDue |
| MailQueue.SendQueue.BeginJob | src/queue/MailQueue.ts:251-258 | an attempt begins with a controller of its own |
| MailQueue.SendQueue.SettleJob | src/queue/MailQueue.ts:270-308 | a stop request comes first, then success, then the retry policy |
| MailQueue.SendQueue.EndAttempt | src/queue/MailQueue.ts:204-209 | the clean-up, and the next tick |
| MailQueue.SendQueue.CancelOne | src/queue/MailQueue.ts:364-374 | cancels a waiting job or asks a running one to stop, and says whether there was one |
| MailQueue.SendQueue.CancelAllWaiting | src/queue/MailQueue.ts:377-385 | cancels all pending and scheduled jobs and returns how many |
| MailQueue.SendQueue.StopOne | src/queue/MailQueue.ts:388-408 | the first stop request of a running job wins |
| MailQueue.SendQueue.ResumeQueue | src/queue/MailQueue.ts:340-344 | does nothing once the queue is shut down |
| MailQueueSafety.KnownExact | src/queue/MailQueue.ts:546-563 | the search finds an id if and only if some unfinished job has it |
| MailQueueSafety.StepGood | src/queue/MailQueue.ts:109-385 | every operation keeps the invariant: places, priorities, counters, attempts, ids and the limiter's records |
| MailQueueSafety.ExactlyOne | src/queue/MailQueue.ts:45-69 | each accepted job is in exactly one of pending, scheduled, running, succeeded, dead and cancelled, and each tier holds only jobs of its own priority |
| MailQueueSafety.StatsAddUp | src/queue/MailQueue.ts:512-521 | what stats reports adds up to the jobs accepted |
| MailQueueSafety.Conserved | src/queue/MailQueue.ts:109-385 | conservation in every reachable state; throttled jobs are scheduled and at most concurrency jobs run |
| MailQueueWork.BoundedAndBusy | src/queue/MailQueue.ts:184-325 | in every run all jobs together start at most (maxRetries + 1) times per enqueue, once more per interrupt and concurrency times more per interruptAll (shutdown may call it too); each job starts at most maxRetries + 1 times besides its interrupts, no pending job waits next to a free slot, and scheduled jobs have a timer in time |
| MailQueueWork.StepOwes | src/queue/MailQueue.ts:274-411 | the attempts taken back and those asked to be grow by at most one per interrupt and concurrency per interruptAll, and by no other operation |
| MailQueueSafety.StepRests | src/queue/MailQueue.ts:184-248 | every operation leaves the queue busy and the timer armed no later than the earliest due time |
| MailQueueSafety.ArmedExact | src/queue/MailQueue.ts:221-230 | the timer is set exactly while a job is scheduled, for the first due time, for now if that has passed, or as late as a timer can be set |
| MailQueueSafety.StartsBounded | src/queue/RetryPolicy.ts:38-47 | attempts of one job and of all jobs are bounded by the retry policy and the interrupts |
| MailQueueSafety.RateInEveryRun | src/queue/MailQueue.ts:189-203 | in every run of the queue the recorded starts are all the starts, and they respect every window unless some job is larger than one |
| MailQueueOrder.StartsInOrder | src/queue/MailQueue.ts:184-219 | tick serves the front of the line, higher tiers first and each tier in order: the jobs ask the limiter one after the other, those admitted start and the others are throttled, both in line order, until slots or jobs run out; without a limiter exactly the front starts |
| MailQueueOrder.ServedInOrder | src/queue/MailQueue.ts:186-209 | whatever the limiter answers, the jobs started and those throttled are the front of the line dealt out in order, and slots stay free only when the line is empty |
| MailQueueUrgency.UrgentFirst | src/queue/MailQueue.ts:25-219 | in every run, when an operation begins an attempt no more urgent job is left pending, critical being more urgent than high, high than normal and normal than low |
| MailQueueUrgency.OrderOfArrival | src/queue/MailQueue.ts:172-219 | in every run a job enqueued for now begins no attempt as long as a job stays pending that came before it and is not less urgent |
| MailQueueUrgency.NotOvertaken | src/queue/MailQueue.ts:184-385 | of two pending jobs the one behind begins no attempt while the other stays pending, whatever else happens |
| MailQueueUrgency.LineByUrgency | src/queue/MailQueue.ts:213-219 | the pending jobs stand in order of urgency |
| MailQueueUrgency.ServedByUrgency | src/queue/MailQueue.ts:184-219 | the jobs a tick starts, and those it throttles, are served in order of urgency, and none left pending is more urgent |
| MailQueueUrgency.FinishedForGood | src/queue/MailQueue.ts:251-385 | a job that succeeded, died or was cancelled never changes again |
| MailQueueFate.JudgedInEveryRun | src/queue/MailQueue.ts:270-385 | in every run a job becomes a success exactly when its attempt sent the mail and nobody had asked it to stop, dead exactly when its attempt failed for good or was the last one allowed, and cancelled exactly when it was cancelled while it waited or before its attempt was over |
| MailQueueFate.DiesAtTheEnd | src/queue/RetryPolicy.ts:38-47 | a job that dies of an error worth another try has had maxRetries + 1 attempts, and each failed |
| MailQueueFate.RetriedLater | src/queue/MailQueue.ts:292-308 | any other failed attempt counts as an error and leaves the job scheduled for the delay asked |
| MailQueueFate.FirstRequestStands | src/queue/MailQueue.ts:364-411 | a running job is asked to stop by exactly those calls that mean it, and the first request stands until its attempt is over |
| MailQueueOrder.InterruptUndoesStart | src/queue/MailQueue.ts:187-209 | interrupting an attempt right after its start leaves the queue as it was before, the job first in its tier, except for the job's two tallies and the use the limiter recorded |
| MailQueueOrder.PromotionOrder | src/queue/MailQueue.ts:232-248 | a tier becomes its due throttled jobs in reverse order, then the jobs it had, then its other due jobs in order; jobs not yet due stay scheduled in order |
| MailQueueOrder.PlacesKeptExact | src/queue/MailQueue.ts:240-242 | a promotion keeps the order of a tier's throttled jobs if and only if at most one of them is due |
| MailQueueOrder.ThrottledGoFirst | src/queue/MailQueue.ts:232-248 | in every reachable state, a throttled job that is due comes to stand before every job pending in its tier, and only other throttled jobs that are due come before it |
| MailQueueOrder.LaterGoesFirst | src/queue/MailQueue.ts:240-242 | a run in which, of two throttled jobs of one priority, the one enqueued last starts first |
| MailWorker.Consumer.TestCondition | src/queue/MailWorker.ts:157-161 | the loop fetches only while it may consume and has room |
| MailWorker.Consumer.TakeMessage | src/queue/MailWorker.ts:163-175 | a message is released after a pause, acknowledged if it is a copy, and held otherwise |
| MailWorker.Consumer.StartLoop | src/queue/MailWorker.ts:108-114 | a new loop waits for the one before it |
| MailWorker.Consumer.Settle | src/queue/MailWorker.ts:58-64 | answers the delivery of a job once and makes room, or does nothing if the job is not held |
| MailWorker.Consumer.JobFinished | src/queue/MailWorker.ts:66-77 | computes Finished: a held delivery gets the answer OneSettlement speaks of, ack for a sent job, nack for a dead one, cancel for a cancelled one |
| MailWorker.Consumer.BeginShutdown | src/queue/MailWorker.ts:142-145 | consuming ends, the loop is woken, and the loops that have not ended by now are those awaited |
| MailWorker.Consumer.ReleaseHeld | src/queue/MailWorker.ts:147-151 | every held delivery is released, in order |
| MailWorker.StepInv | src/queue/MailWorker.ts:58-181 | every step keeps: each delivery answered once or held once or refused, every answer given for a job is ack, nack or cancel as the job was sent, died or was cancelled, at most concurrency + prefetch are held, and the loop waits for room only while there is none |
| MailWorker.OneSettlement | src/queue/MailWorker.ts:55-181 | over every run each delivery is answered at most once, with ack exactly for a sent job, nack exactly for a dead one and cancel exactly for a cancelled one, and by the end of shutdown exactly once unless nothing ever answers it; the latter does not happen without a faulty message or a start or resume that no loop awaited by shutdown sees |
| MailWorker.FateExact | src/queue/MailWorker.ts:66-77 | over every run what the worker goes by is the first end that the queue reported of the job |
| MailWorker.LostExact | src/queue/MailWorker.ts:162-179 | in every state a delivery can be answered by no continuation exactly when enqueue refused it |
| MailWorker.RefusedExact | src/queue/MailWorker.ts:163-179 | a delivery that dequeue returns is never answered if and only if the worker consumes and the queue is shut down or the message is faulty |
| MailWorker.LateStartExact | src/queue/MailWorker.ts:102-145 | from every state after shutdown in which the worker does not consume and may hold messages at all, start or resume can cost a sound message if and only if no loop that shutdown waits for will test its condition again |
| MailWorker.RestartLoses | src/queue/MailWorker.ts:102-166 | start, the first dequeue, shutdown, the dequeue's empty answer that ends the loop, and resume, after which a message can be lost |
| MailWorker.WindsDown | src/queue/MailWorker.ts:142-145 | after shutdown was called each answer of the driver and each timer brings the loop closer to its end, and it never waits for a slot |
| ImapPool.SessionPool.TakeSlot | src/imap/ImapPool.ts:165-183 | takes an idle slot, opens a new one, or evicts the least recently used idle one, within both limits |
| ImapPool.SessionPool.LruIdleSlot | src/imap/ImapPool.ts:267-273 | the loop finds the idle slot that was used least recently |
| ImapPool.SessionPool.PumpWaiters | src/imap/ImapPool.ts:227-236 | the splice loop computes Pump |
| ImapPool.SessionPool.RejectWaiters | src/imap/ImapPool.ts:238-247 | removes exactly the waiters of the key |
| ImapPool.SessionPool.AcquireSlot | src/imap/ImapPool.ts:147-163 | lends a slot at once if nobody waits and one can be had, otherwise queues the caller |
| ImapPool.SessionPool.ReleaseSlot | src/imap/ImapPool.ts:190-202 | an idle or retired slot after use, then the waiters |
| ImapPool.SessionPool.RetireSlot | src/imap/ImapPool.ts:204-210 | removes an idle slot and marks a busy one |
| ImapPool.VictimIsOther | src/imap/ImapPool.ts:165-183 | the slot tryTake evicts is idle and of another key, so the list it read before is not stale |
| ImapPool.TakeSafe | src/imap/ImapPool.ts:165-183 | tryTake keeps the pool safe and lends one slot to one caller |
| ImapPool.TakeExact | src/imap/ImapPool.ts:165-183 | tryTake serves a caller if and only if an idle session, a free place or an evictable session exists |
| ImapPool.TakeCreatesNothing | src/imap/ImapPool.ts:165-183 | serving one caller, even by eviction, makes nobody servable who was not |
| ImapPool.PumpQuiet | src/imap/ImapPool.ts:227-236 | when pump returns, no remaining waiter could be served |
| ImapPool.PumpFair | src/imap/ImapPool.ts:227-236 | in one pump a waiter is never overtaken by a later one of the same key |
| ImapPool.RunFair | src/imap/ImapPool.ts:147-236 | in every run in which each use is a caller of its own, of two callers of one key the later is never lent a slot while the earlier waits, and waits behind it |
| ImapPool.PumpPartition | src/imap/ImapPool.ts:227-236 | every waiter is served once or still waits |
| ImapPool.AcquireQuietExact | src/imap/ImapPool.ts:147-163 | after acquire on an open pool no waiter could be served if and only if none could before and either nobody waited or the new caller's key cannot be served |
| ImapPool.AcquireMayLeaveServable | src/imap/ImapPool.ts:150 | a run of a new pool after which acquire makes a caller wait although a session of its key is idle |
| ImapPool.ReachableSafe | src/imap/ImapPool.ts:102-273 | in every reachable state both limits hold, exactly the busy slots are lent, each to one caller, a retired slot is busy, and an idle slot has an open session |
| ImapPoolLoans.OwnAccount | src/imap/ImapPool.ts:147-183 | in every run the session a caller holds is one of the account it asked for |
| ImapPoolLoans.NeverLentAgain | src/imap/ImapPool.ts:190-210 | in every run a session that timed out, whose credentials were refused or that was never opened is not lent to anybody again |
| ImapPoolLoans.ClosedKeySpent | src/imap/ImapPool.ts:120-124 | in every run no session of an account that was closed is lent again |
| ImapPoolLoans.ClosedForGood | src/imap/ImapPool.ts:127-132 | in every run after closeAll nobody waits, no session is lent any more, and those in use leave the pool when they are given back |
| ImapPoolLoans.GivenBackIdle | src/imap/ImapPool.ts:190-202 | a good session that is given back while nobody waits is idle and was used last now |
| SqliteQueue.Database.Insert | src/queue/SqliteQueue.ts:157-184 | inserts a row with its owner's lease, or fails on a known id |
| SqliteQueue.Database.Claim | src/queue/SqliteQueue.ts:236-247 | takes the row over exactly when it is unfinished and free, one's own or overdue |
| SqliteQueue.Database.Update | src/queue/SqliteQueue.ts:208-225 | stores status and attempts, and gives up the lease of a finished job |
| SqliteQueue.Database.Bury | src/queue/SqliteQueue.ts:283-287 | an unreadable row becomes dead and free, its attempts stay |
| SqliteQueue.Database.ReleaseDead | src/queue/SqliteQueue.ts:249-267 | frees exactly the rows of the owners that died |
| SqliteQueue.Queue.RestoreJobs | src/queue/SqliteQueue.ts:269-299 | the loop claims and takes in the rows that were read, or buries those it cannot decode, as one uninterrupted call |
| SqliteQueue.RestoreIsRun | src/queue/SqliteQueue.ts:269-299 | such a call is a fair run of the protocol's events, with the same rows and the same jobs in memory at the end |
| SqliteQueue.RestoredExact | src/queue/SqliteQueue.ts:269-299 | of such a call each row read keeps its attempts and its status, an attempt under way making a pending job, and is the process's own, unreadable ones are dead and free, and no other row changes |
| SqliteQueue.RowMoves | src/queue/SqliteQueue.ts:208-404 | in every step the status and the attempts of a row change only when its job moves, when it is restored or let go, which turns running into pending and keeps all else, and when it is requeued; a row disappears only when dead letters are cleared |
| SqliteQueue.AttemptsKeptExact | src/queue/SqliteQueue.ts:269-296 | restoring a row keeps its attempts if and only if it has as many as when it was read |
| SqliteQueue.StaleReadForgets | src/queue/SqliteQueue.ts:269-296 | a run with every lease in order in which a stale read makes an attempt forgotten |
| SqliteQueue.StepKeeps | src/queue/SqliteQueue.ts:157-404 | every step of every process keeps: what a live process holds is leased to it, and every unfinished row is held by its live owner or free or overdue in time |
| SqliteQueue.LeaseExclusion | src/queue/SqliteQueue.ts:236-339 | over any number of processes, crashes, stale reads and clock advances, if every live process polls once per LEASE_MS no job is in the memory of two live processes |
| SqliteQueue.NothingStranded | src/queue/SqliteQueue.ts:236-354 | every unfinished job is held by its live owner, or can be claimed once LEASE_MS have passed |
| SqliteQueue.Recovered | src/queue/SqliteQueue.ts:236-354 | in every run, once no process has crashed for more than LEASE_MS, every unfinished job is held by a live process or can be claimed by any process at once |
| SqliteQueue.SuccessForever | src/queue/SqliteQueue.ts:208-225 | a row that reached success keeps it through any run |
| SqliteQueue.OverdueJobIsShared | src/queue/SqliteQueue.ts:236-299 | from every state, once a lease has run out a newcomer gets the job while its holder still has it |

## Left out

- Sockets, TLS, timers and event emitters as such, logging, and the HTTP, Graph and Gmail transports: plumbing without decisions of its own.
- The SMTP session pool: its wake-ups depend on the order of socket events.
- SQL and schema migration: rows are a map and each statement is one guarded update; the process check is a correct crash oracle.
- `poll`, `close` and `requeueJob` of the persistent queue are steps on states, not methods: each is a sequence of the statements that are methods.
- SqliteQueue.Step: a process that shuts down hands its rows back and forgets its jobs in one step, although after the bounded wait (src/queue/MailQueue.ts:443-446) a straggler may still be in memory; and a job leaves memory when it dies, although it stays in `runningJobs` while the dead-letter store is awaited (src/queue/DeadLetterQueue.ts:37) and its row may be requeued meanwhile.
- "Delivered exactly once": an attempt that timed out may still be under way; only who holds a job and what its row says is claimed.
- The split of a framed response into tag, status and text (src/imap/ImapParser.ts:170-200): the framer is modelled up to the filter for blank lines.
- Rounding of literal lengths and sizes above 2^53: lengths are exact natural numbers.
- UidSets.UidSetsLossless: numbers above 2^53 - 1, whose successor and whose text are not exact, are not in the model; an IMAP number has 32 bits.
- Params.ParamsRoundTrip: plain values are compared before the reader's RFC 2047 decoding, so nothing is claimed of a plain value that contains "=?".
- UTF-8, NFKD and the decoding of bytes into text: functions given from outside. A parameter reads back as plain text or as a charset with bytes; header values are bytes and are not run through RFC 2047 decoding, so the step from internationalized text to UTF-8 bytes and back is not captured.
- `encodeWords`, address headers and message ids: regular-expression work on text.
- MIME trees with 7bit and 8bit bodies, and attached messages that were not written by this printer: there a boundary is absent only with high probability.
- A due date of a restored row: a scheduled job whose time has passed is promoted by a step of its own.
- Header names of nested entities that begin with "------=_Part_" are left out of the tree round trip: such a line can be a delimiter, since `checkHeaderName` allows it.
- Tokenizer.LiteralRendered: the length with its braces, tilde and plus fits the tokenizer's window of 32 characters, as that of every string does.
- MailQueue.Ends: an attempt that returns and the clean-up after it are one step, so two interrupts in one turn that restart a job between them are not captured.
- Idempotency keys of the send queue, drain waiters, `restore` of stored jobs and the waiting inside `shutdown`: shutdown is the events Close and Halt with anything in between.
- Every step of the send queue reads the clock once; RateLimiter.RateBound covers a record that reads it later.
- Dead letters are enabled; `dead` counts every job that ever died, also those the store has forgotten since.
- Jobs and pool slots are records found by number, not shared objects: aliasing between a caller's job object and the queue's is not captured.
- Jitter and backoff: the delay before a retry is any natural number.
- A faulty message leaves no job behind: a message with an unknown priority and an idempotency key stays in the queue's table of keys (src/queue/MailQueue.ts:136-141), so that its redelivery is held until shutdown; in the model such a job comes from AppEnqueues.
- An application that shuts the worker's own queue down while the worker consumes.
- The worker calls shutdown once, its driver implements `release`, and `cancel` stands for `ack` where the driver has none. Errors of the driver's calls are reported and change nothing.
- The configuration, templates, calendar, OAuth, health, CLI and trap server: thin wrappers or user interface.
