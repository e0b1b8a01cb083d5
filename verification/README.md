# A verified model of the fiscal-printer spooler

The spooler watches a directory for command files, turns each into calls of a
fiscal printer's vendor library and leaves an answer file and a lock file behind
(`README:21-39`). This project models the parts of it that carry state and logic,
in the form the C++ has them: objects with fields, cursors and loops. Each method
is proved against a function or predicate that says what it is for, and the laws
of the system are proved about those, over every input, every history and every
interleaving.

What is modelled, module by module:

- **Text**: blank trimming, case folding, searching and line splitting as `utils.h`
  and the C++ string library have them.
- **Packets**: parameters and packets with their moving cursors, and the search for
  a parameter by name.
- **Tags**, **Reader**, **Grammar**, **CutShort**: the request reader is a line-driven phase
  machine. The repository has no description of the request language, so `Grammar`
  is one: a syntax tree, its printed form and what it denotes. The reader is proved
  to accept exactly that language and to yield what it denotes, to raise an
  exception exactly when no request can come of the lines any more, and to leave a
  known packet behind when a file stops early.
- **Writer**, **AnswerText**: the answer writer with its two nested,
  exception-driven loops, and what a client reads out of its text.
- **Collector**, **EscapingCommands**: sessions, the failure flag, one answer for
  one command, over every history of commands, and the requests that end the
  process instead.
- **FileNames**, **Serializer**, **FileQueue**, **Protocol**, **Housekeeping**,
  **Progress**, **OnDisk**: names of the temporary, answer and lock files; the order in which they
  appear; directory scan and event watch with the kernel's byte layout; the whole
  protocol as interleaved steps of one spooler and any number of clients, and that
  it gets on; and the same on a directory where files are known by their names only.
- **SlotTable**, **Device**, **Driver**, **CcdSequence**, **OutflowList**: the driver for printers
  of the 09/09 agreement. A small device object (tables, payments) stands for the
  vendor library; every call may be refused. Caches, slot allocation, the shadow
  list of payments, the sequence of linked receipts and the list of outflow
  totalisers.
- **TaxTable**, **ZReport**, **Rates**: the tax cache, the split of the Z report
  into ICMS and ISS, tax rates as text.
- **Report**, **ReportBroker**: the report splitter and the command that prints a
  report, from the command file to the paper.

Strings are sequences of characters, money and rates are whole hundredths (in
`Rates` a percentage is a real number), a thrown exception is a `None`, an error
value or a false result, and a nondeterministic choice stands for a printer that
may refuse or for a random number.

## Where the code departs from its documentation

The model follows the code. Each of these is stated by a lemma or a contract.

- `write_packet` takes every second value of a parameter for its log, so a
  parameter with several values is not written whole (`Writer.WritesAllValues`:
  whole exactly if it has at most one).
- A message block without lines takes over the values of the parameter before it,
  because `pkt_param::copy` leaves its target's values alone when the source has
  none (`Packets.LookupReturnsFirstMatch`, `Packets.LookupOfEmptyMessage`).
- Message lines pile up from block to block (`Grammar.BlocksPileUp`); a packet
  prints back to itself exactly if no parameter with other than one value comes
  after one with several
  (`Grammar.AcceptedInputNormalises`).
- A command file that stops before its end tag is carried out all the same, with
  what was read of it (`Grammar.TruncatedFile`, `CutShort.EndTagMissing`, `CutShort.MessageUnclosed`,
  `Collector.TxtCollector.Accept`).
- Not every command file is answered. The broker catches the exceptions of the
  program only, so that one of the string library ends the process after the command
  file was deleted (`Collector.TxtCollector.Accept`). That happens exactly for three
  execute requests: `set_aliquota` and `snd_vende_item` when the text of the rate has
  two colons and begins with one or has one among its last two characters
  (`EscapingCommands.RunsOffIff`, `Collector.RateFileIsAnsweredIff`; `T:00:1` is such
  a text), and `memoria_fiscal` by date when a date has fewer than four characters.
  The last two need their other parameters to be there.
- A report without a message is opened and left open: the search throws another
  exception than the one that is caught (`ReportBroker.ReportIsClosedIff`).
- A blank line inside a message ends the printed text (`ReportBroker.MessageIsWhole`).
- The non-fiscal subtotal of the no-op type empties the shadow list of payments
  while the printer keeps its own (`Driver.Driver.IniciaFechamentoNaoFiscal`).
- The outflow setting is a list of names between number signs, but it is searched as
  plain text: a part of an entry and the empty name are found without being listed,
  and a listed name in lower case is not (`OutflowList.FoundIffInsideOne`,
  `OutflowList.FoundIsListedIff`, `OutflowList.ListAndSearchDiffer`). Without the
  setting every registration fails (`Driver.Driver.RegNaoFiscal`), and one that the
  printer refuses suppresses the payments of the next sale
  (`Driver.PaymentsAreOffIff`, `Driver.PaymentsAreOffForList`).
- Looking at a slot of the Z report may add an ICMS entry of 0% to the tax cache,
  after which that one rate is found in another slot, exactly if the table has fewer
  than 16 entries (`ZReport.GrowingKeepsLookups`, `ZReport.ZeroRateStaysIff`); with an
  empty cache both blocks of the report are zero, so that they add up exactly if there
  is nothing to add (`ZReport.BlocksConserveTotalsIff`).
- The answer to a command `x.lck` is the lock of the command `x`
  (`FileNames.SixDistinctFiles`: six files exactly if neither name is the other's
  with that suffix). Clients read their own answers in every run exactly if no two
  command names are so, where a file left behind under such a name counts as a command
  (`OnDisk.ClientsAreSafeIff`).
- A command renamed in after the last scan began, which found nothing, and before the
  watch is installed is lost: it stays there and never enters the queue
  (`Protocol.LostExactlyInTheGap`, `Protocol.GapCommandsNeverEnter`; `Protocol.GapRun`
  is such a run). All others are answered once the spooler comes to rest, which it
  always can (`Progress.CommandsAreAnswered`).
- A command file that ends before its type is read, an empty one for instance, is
  carried out as whatever type the memory of the new packet held; which files these
  are can be told from their first lines
  (`Collector.KindIsDeterminedIff`, `Collector.EmptyFileIsAnything`).
- A restarted spooler hands out the right number for a linked receipt exactly if the
  first payment is linked, and for the whole round exactly if no other is
  (`CcdSequence.RestartIsRightIff`); it is back in step with the first totalisation
  that goes through (`Driver.Driver.Drive`, `Driver.MirrorsExactly`).

## Model

| member | source | states |
|---|---|---|
| `Text.LTrimInPlace` | src/utils.h:37-43 | the loop removes exactly the leading blanks |
| `Text.RTrimInPlace` | src/utils.h:52-58 | the loop removes exactly the trailing blanks |
| `Text.TrimIsCore` | src/utils.h:67-70 | trimming leaves the core of a string: blanks around it, none at its ends |
| `Text.CoreIsUnique` | src/utils.h:67-70 | a string has one core only, so trimming is determined |
| `Text.TrimIdempotent` | src/utils.h:67-70 | trimming twice is trimming once |
| `Text.TrimDropsBlanks` | src/utils.h:37-70 | what is dropped at the ends are the characters with the codes 9 to 13 and 32, and none of them is left there |
| `Text.FoldIdempotent` | src/utils.h:78-81 | folding (trim, upper case) twice is folding once |
| `Text.IEqualsIsEquivalence` | src/utils.h:188-210 | the comparison of names is reflexive, symmetric and transitive |
| `Text.SameButForCase` | src/utils.h:78-210 | names are equal exactly if, trimmed, they have the same characters but for the case of letters |
| `Text.LinesOfUnlines` | src/txtreader.cc:145-158 | reading lines undoes joining them, whatever follows |
| `Text.LinesAreNewlineFree` | src/txtreader.cc:145-158 | no line that is read contains a newline |
| `Text.UnlinesInjective` | src/txtwriter.cc:39-139 | a text of newline-free lines determines the lines |
| `Packets.PktParam.SetValue` | src/pktparam.cc:128-139 | replaces all values by one |
| `Packets.PktParam.AddValue` | src/pktparam.cc:148-156 | appends a value and moves no cursor |
| `Packets.PktParam.Value` | src/pktparam.cc:168-177 | the first value, cursor on the second; fails without values |
| `Packets.PktParam.NextValue` | src/pktparam.cc:187-195 | the value at the cursor and one step on, or failure at the end with nothing moved |
| `Packets.PktParam.Copy` | src/pktparam.cc:239-263 | name and values are taken over, but the old values stay if the source has none |
| `Packets.Packet.AddParam` | src/packet.cc:62-73 | appends name and values of a parameter |
| `Packets.Packet.AddPair` | src/packet.cc:99-110 | appends a parameter with one value |
| `Packets.Packet.FirstParam` | src/packet.cc:120-129 | the first parameter, cursor on the second; fails on an empty packet |
| `Packets.Packet.NextParam` | src/packet.cc:140-147 | the parameter at the cursor and one step on, or failure at the end |
| `Packets.GetParamByName` | src/ecfbroker.cc:39-85 | terminates and answers what `Lookup` does, from any position of the cursors; only a cursor changes |
| `Packets.LookupReturnsFirstMatch` | src/ecfbroker.cc:39-85 | the first parameter of that name with all its values is returned if and only if it has values |
| `Packets.LookupFailsWithoutMatch` | src/ecfbroker.cc:62-69 | fails if no parameter has the name |
| `Packets.ValuesTakenOver` | src/ecfbroker.cc:39-85 | a parameter without values is answered with those of the last one before it that has some, and not at all if none has |
| `Packets.LookupOfEmptyMessage` | src/ecfbroker.cc:39-85 | a message without lines is answered with the title's value |
| `Tags.ValidPacketType` | src/txtreader.cc:42-61 | the loop answers whether the token is the request tag of some type |
| `Tags.TypeFromString` | src/txtreader.cc:69-82 | the loop finds the type of a tag |
| `Tags.RequestTagsDiffer` | src/txtreader.cc:69-82 | no two types share a request tag |
| `Tags.QualifyToken` | src/txtreader.cc:89-118 | a line is classified as `Qualify` says, in the order of the tests |
| `Tags.QualifyPair` | src/txtreader.cc:89-118 | key:value with a key free of colons that is no reserved name is a parameter line |
| `Reader.Stream.GetLine` | src/txtreader.cc:145-158 | one line is taken; end of file is flagged exactly on the last |
| `Reader.HandleRequest` | src/txtreader.cc:205-246 | one turn in the request phase is a step of the machine |
| `Reader.HandleParam` | src/txtreader.cc:310-348 | one turn in the parameter phase is a step of the machine |
| `Reader.HandleText` | src/txtreader.cc:356-376 | one turn in the message phase is a step of the machine |
| `Reader.HandleLine` | src/txtreader.cc:160-384 | every turn is a step of the phase machine |
| `Reader.ReadPacket` | src/txtreader.cc:127-387 | the loop is a run of the machine over the lines of the stream; the paper-cut exception is never raised |
| `Grammar.ReadPrinted` | src/txtreader.cc:127-387 | every well-formed request, with stray cut lines before and anything after it, is read as what it denotes |
| `Grammar.ReaderAcceptsLanguage` | src/txtreader.cc:127-387 | a request is read to its end tag exactly if the lines are cut lines, a printed well-formed request and any rest, and the packet is what it denotes |
| `Grammar.TextRoundTrip` | src/txtreader.cc:127-387 | the same round trip on the characters of the file |
| `Grammar.RequestTexts` | src/pkttags.cc:80-106 | the five requests, line by line as they stand in a file |
| `Grammar.AcceptedInputNormalises` | src/txtreader.cc:127-387 | printing an accepted packet and reading it again gives it back exactly if, of any two parameters that are not single-valued, the earlier is empty |
| `Grammar.OneBlockNormalises` | src/txtreader.cc:310-376 | a request with at most one message block has no such pair |
| `Grammar.BlocksPileUp` | src/txtreader.cc:310-376 | among any items, a pair stands for itself and the parameter of a block holds the lines of all blocks up to it, in order |
| `Grammar.RunOfTwins` | src/txtreader.cc:160-384 | what the new packet held as its type changes nothing else, and nothing at all once a type was read |
| `Grammar.DenotedIsReadable` | src/txtreader.cc:310-376 | every parameter that is read can be printed |
| `Grammar.StepKeepsSound` | src/txtreader.cc:160-384 | a step keeps the phase among the seven live ones, the default phase at text exactly inside a message, and identifiers in the order of the protocol |
| `Grammar.RunKeepsSound` | src/txtreader.cc:160-384 | so does every run, and its error is never a cut, an unknown token or a malformed parameter |
| `Grammar.InitIsSound` | src/txtreader.cc:127-143 | the start is sound whatever the packet's memory held |
| `Grammar.ReadTruncated` | src/txtreader.cc:160-386 | an execute request that lacks its end tag leaves the whole packet behind |
| `Grammar.TruncatedFile` | src/txtreader.cc:160-386 | a file that ends there fails at end of file only, with the packet complete |
| `Grammar.FirstLinesDecide` | src/txtreader.cc:160-246 | from the lines alone: whether a type is read or reading fails before end of file |
| `CutShort.NoErrorIffViable` | src/txtreader.cc:160-386 | an exception is raised exactly if no lines that follow could make a request of those read |
| `CutShort.RejectedIff` | src/txtreader.cc:160-386 | reading fails before the end of the file exactly if the lines but the last are the beginning of no request |
| `CutShort.ErrorTellsWhatFits` | src/txtreader.cc:160-386 | an exception names what is missing: the line it asks for could have stood there |
| `CutShort.EndTagMissing` | src/txtreader.cc:160-386 | lines that lack the end tag alone leave what the request denotes |
| `CutShort.MessageUnclosed` | src/txtreader.cc:160-386 | lines that stop inside a message leave what the request would denote if it were closed there, but for that message |
| `Writer.DecimalInjective` | src/txtwriter.cc:79-82 | two codes are never written alike |
| `Writer.WriteValues` | src/txtwriter.cc:96-121 | the inner loop terminates and writes every other value of the parameter |
| `Writer.WriteParams` | src/txtwriter.cc:83-132 | the outer loop terminates and writes parameter after parameter, from any position of the cursors |
| `Writer.WriteHead` | src/txtwriter.cc:39-82 | the head lines; the session is left out for a begin that failed |
| `Writer.WritePacket` | src/txtwriter.cc:39-139 | the text is the old text and the lines of the answer |
| `Writer.WritesAllValues` | src/txtwriter.cc:96-121 | all values of a parameter are written exactly if it has at most one |
| `Writer.WrittenAt` | src/txtwriter.cc:96-121 | those written are the values at even positions, in order |
| `Writer.SingleValuesAreWritten` | src/txtwriter.cc:83-132 | single-valued parameters give one line each, in order |
| `Writer.TextDeterminesAnswer` | src/txtwriter.cc:39-139 | the text of a plain answer determines type, code and values, and the session unless a begin failed |
| `AnswerText.CodeRoundTrip` | src/txtwriter.cc:79-82 | a return code is read back from its numeral |
| `AnswerText.ClientReads` | src/txtwriter.cc:39-139 | a client that goes by the lines finds the type, the session unless a begin failed, the code, and then the values and the end tag |
| `Collector.Session.Generate` | src/session.cc:57-76 | an open session keeps its identifier; a new one is the prefix and the number without blanks |
| `Collector.Session.Reset` | src/session.cc:102-105 | no session is open |
| `Collector.Broker.Trade` | src/ecfbroker.cc:118-410 | echoes type and command, adds single-valued parameters, sets code 0 or 1, and ends the process exactly for the requests of `Escapes` |
| `EscapingCommands.RunsOffIff` | src/aliquota.cc:231-261 | the parser of rates runs off the end of a text exactly if that has two colons and begins with one or has one among its last two characters |
| `EscapingCommands.SetAliquota` | src/ecfbroker.cc:899-915 | escapes exactly if the rate is given and its text runs off |
| `EscapingCommands.VendeItem` | src/ecfbroker.cc:993-1042 | escapes exactly if all parameters but the unit are given and the text of the rate runs off |
| `EscapingCommands.FormatDate` | src/ecfbematech.cc:2686-2697 | fails exactly for a text of fewer than four characters |
| `EscapingCommands.MemoriaFiscal` | src/ecfbroker.cc:1371-1405 | escapes exactly if all parameters are given, the reading is by date and a date is too short |
| `Collector.TxtCollector.Answer` | src/txtcollector.cc:179-243 | code and session answered to begin, end, status, reset and untyped requests, as `Collector.AnswersFollowHistory` spells out, and the open session after them |
| `Collector.TxtCollector.Respond` | src/txtcollector.cc:163-252 | the broker is called exactly for an execute request that was read; that ends the process exactly if the request escapes, and otherwise the answer and the session are those of the history |
| `Collector.TxtCollector.Callback` | src/txtcollector.cc:163-269 | either one entry of history and, unless muted, one writer call with its type, code and session, or, exactly for an execute request that escapes, the end of the process and neither |
| `Collector.TxtCollector.Load` | src/txtcollector.cc:60-157 | the failure flag is set exactly if the reader failed before end of file; mute never |
| `Collector.TxtCollector.Accept` | src/txtcollector.cc:60-157 | a command file gets one answer under its own path exactly if it does not hold an execute request that escapes, and no answer otherwise; a line ended by a newline that breaks the grammar gives code 1 and no broker call; the history stays right |
| `Collector.SessionLock` | src/txtcollector.cc:179-236 | between two begins answered 0 there is an end answered 0 or a reset |
| `Collector.EndNeedsItsSession` | src/txtcollector.cc:194-214 | an end is answered 0 exactly if a session opened earlier, not released since, is the one it names |
| `Collector.LastOpening` | src/session.cc:57-115 | the open session is that of the last opening not released |
| `Collector.AnswersFollowHistory` | src/txtcollector.cc:163-243 | from the openings and releases alone: status is 500 while a session is open and 501 otherwise; a begin is -1 exactly while one is; an end is -4 exactly without one, and otherwise 0 or -2 as it names the open one or not; the session each answer carries |
| `Collector.OnlySessionRequestsMoveIt` | src/txtcollector.cc:163-243 | an answered command moves the session exactly if it is a begin without one, an end that names the open one, or a reset of an open one |
| `Collector.HistoryDeterminesCodes` | src/txtcollector.cc:163-243 | two histories of the same requests, broker codes and identifiers get the same answers |
| `Collector.KindIsDeterminedIff` | src/txtcollector.cc:99-148 | how a file counts is determined exactly if its first lines settle it: cut lines, a begin line and a request tag, or a rejected line before the last |
| `Collector.FailsIff` | src/txtcollector.cc:99-148 | a file is answered as failed exactly if its lines but the last are the beginning of no request |
| `Collector.EmptyFileIsAnything` | src/txtcollector.cc:99-148 | an empty file counts as whatever type the memory held |
| `Collector.RateFileIsAnsweredIff` | src/txtcollector.cc:60-157 | a command file that programs a rate, on its characters, with stray cuts and anything after it, is a request to carry out and is left unanswered exactly if parsing the rate is out of range |
| `Collector.TextsThatRunOff` | src/aliquota.cc:247-253 | two texts of rates that run off and one that does not |
| `FileNames.PathsOfCommand` | src/main.cc:106-126 | the three paths made from a command file in a proper directory |
| `FileNames.SixDistinctFiles` | src/main.cc:106-143 | the files of two commands are six different ones exactly if neither name is the other's with the lock suffix |
| `FileNames.ThreeDistinctFiles` | src/main.cc:106-143 | the three files of one command differ |
| `FileNames.OwnFilesAreNoCommands` | src/filequeue.cc:135-143 | no file the spooler makes passes the prefix test |
| `FileNames.DifferentFiles` | src/main.cc:106-143 | the file identities of the protocol model are different files on disk |
| `FileNames.BaseNamesArePaths` | src/main.cc:106-126 | the names of the protocol model are the paths the serializer makes |
| `Serializer.CopyFile` | src/fs.cc:608-622 | the copy ends equal to the original and was a prefix of it at every moment |
| `Serializer.Publish` | src/main.cc:124-141 | at every visible moment a new lock comes with the whole answer and without the temporary file, and no other file moves |
| `Serializer.Serialize` | src/main.cc:106-143 | the same with the answer's text, for every command path; another path changes nothing |
| `FileQueue.WordRoundTrip` | src/filequeue.cc:218-220 | the length field of an event is read back from its four bytes |
| `FileQueue.FileQueue.TakeEvent` | src/filequeue.cc:218-240 | one record of the buffer is consumed and its name queued exactly if it has the prefix |
| `FileQueue.FileQueue.KernelScan` | src/filequeue.cc:161-254 | the walk over the encoded events queues exactly their matching names, in order |
| `FileQueue.FileQueue.DirectoryScan` | src/filequeue.cc:121-152 | the scan queues exactly the matching names of the listing, in order |
| `FileQueue.FileQueue.StartMonitoring` | src/filequeue.cc:308-324 | descriptors are made once and kept |
| `FileQueue.FileQueue.ScanOnce` | src/filequeue.cc:274-292 | one turn of the waiting loop |
| `FileQueue.FileQueue.WaitForNames` | src/filequeue.cc:274-292 | the loop stops at the first scan or batch with a match, and never scans the directory again after an empty scan |
| `FileQueue.FileQueue.ScanFiles` | src/filequeue.cc:269-302 | one call: the oldest name leaves the queue, after a wait if there is none; the empty name stands for an interruption |
| `FileQueue.TakeNames` | src/filequeue.cc:269-302 | any number of calls on a new queue: events are awaited exactly if some listing consumed had no match, only the last listing can be such, and the names that entered are the matching ones of the listings and then of the batches; they come out in that order, and the empty name only when there is no more to see |
| `FileQueue.MatchingHavePrefix` | src/filequeue.cc:135-143 | the names queued are exactly those with the prefix |
| `FileQueue.MatchingAt` | src/filequeue.cc:135-143 | each as often as it is listed, and in the order of the list |
| `Protocol.StepKeepsInv` | src/main.cc:106-143 | every step of the spooler and of the clients keeps the invariant of the protocol |
| `Protocol.RunKeepsInv` | src/main.cc:106-143 | it holds in every state of every run |
| `Protocol.ClientsReadTheirOwnAnswer` | README:21-39 | in every interleaving over file identities a client that sees its lock finds the whole answer to its own command, and what it has read is that |
| `Protocol.QueueIsFifo` | src/filequeue.cc:269-302 | names leave in the order they entered |
| `Protocol.EachCommandEntersOnce` | src/filequeue.cc:269-302 | entries of a name and commands not yet seen add up to the commands submitted under it |
| `Protocol.UnseenIsAnnouncedOrLost` | src/filequeue.cc:269-324 | once the watch stands, a command not yet seen is announced or is one of the lost |
| `Protocol.AnnouncedUnlessInTheGap` | src/filequeue.cc:269-324 | under the watch a command not yet seen is announced exactly if it was not renamed in in the gap |
| `Protocol.RecentSinceScan` | src/filequeue.cc:121-152 | the recent names are exactly those renamed in since the last scan began |
| `Protocol.LostExactlyInTheGap` | src/filequeue.cc:269-324 | the lost are exactly the commands renamed in after the last scan began and before the watch was installed |
| `Protocol.GapCommandsNeverEnter` | src/filequeue.cc:269-324 | such a command is still there in every later state, its client waits and it has not entered the queue |
| `Protocol.GapRun` | src/filequeue.cc:269-324 | a run that loses a command: empty scan, rename, watch |
| `Protocol.ModeNeverReturns` | src/filequeue.cc:274-281 | the mode goes from directory to events and never back |
| `Protocol.PrefixTestFindsCommands` | src/filequeue.cc:233-240 | on the events of the protocol the prefix test finds just the command files |
| `Housekeeping.EventsAfterEmptyScan` | src/filequeue.cc:269-302 | in every run events are awaited exactly if some earlier scan met nothing from its begin to its end |
| `Housekeeping.TemporaryFilesGo` | src/main.cc:106-143 | in every run a temporary file is there exactly while its command is written and copied |
| `Progress.EveryStepGetsOn` | src/filequeue.cc:269-324 | every step of the spooler lowers a well-founded measure, so that left to itself it comes to rest, in whatever order it takes its steps |
| `Progress.SettledServes` | src/main.cc:106-143 | at rest a waiting client has the whole answer to its command exactly if that is not lost |
| `Progress.CommandsAreAnswered` | README:21-39 | from every reachable state the spooler alone can come to rest, and where it does a waiting client has its whole answer exactly if its command was not renamed in in the gap |
| `OnDisk.StepFollows` | src/main.cc:106-143 | with compatible names a step on the directory is the step of the protocol |
| `OnDisk.DiskRefinesModel` | src/main.cc:106-143 | with compatible names, and a client for every command file there is, a run on the directory is a run of the protocol |
| `OnDisk.DiskStaysOwned` | src/filequeue.cc:121-152 | if every command file has a client at the start, it has one in every state, so that scans and events overlook none |
| `OnDisk.ClientsReadFromDisk` | README:21-39 | in every run on the directory, whatever else lies there, clients with compatible command names, those of files left behind among them, read the whole answers to their own commands |
| `OnDisk.LockBeforeAnswer` | src/main.cc:106-143 | for any set with a name and the same name with the lock suffix, a run in which the first client sees its lock and no answer |
| `OnDisk.ClientsAreSafeIff` | README:21-39 | the clients of a set of command names, those of files left behind among them, are safe in every run exactly if the names are pairwise compatible |
| `SlotTable.IdxElement` | src/ecfbematech.cc:1064-1096 | the slot of a name in a list, ignoring case and blanks, or -1 |
| `SlotTable.FirstAvailable` | src/ecfbematechcv0909.cc:350-380 | the first slot shown as available, or -1 |
| `SlotTable.SameNameSameSlot` | src/ecfbematech.cc:1064-1096 | with distinct names a name has one slot |
| `SlotTable.ProgramKeepsDistinct` | src/ecfbematechcv0909.cc:388-437 | entering an absent name keeps names distinct and puts it in that slot only |
| `Device.TotalsLayout` | src/ecfbematechcv0909.cc:173-244 | where each record of the totaliser table stands in the buffer |
| `Device.FormNameIs` | src/ecfbematechcv0909.cc:285-330 | a whole record has the name in its first fifteen characters and the flag in its last; a short one is a form the printer does not have, and is never free |
| `Device.TotalNameIs` | src/ecfbematechcv0909.cc:190-232 | a totaliser is free exactly if the first fifteen characters of its record are blank |
| `Driver.NextRecord` | src/ecfbematechcv0909.cc:285-300 | the copying loop takes one record up to its comma |
| `Driver.Driver.LoadForms` | src/ecfbematechcv0909.cc:268-330 | the decoded names and link flags are those of the table, slot by slot |
| `Driver.Driver.GetIdFormaPgto` | src/ecfbematechcv0909.cc:253-343 | warm or cold, the slot of that name in the printer's table, or -1; a refusal changes nothing |
| `Driver.LookupIsUnique` | src/ecfbematechcv0909.cc:253-343 | a lookup of a usable name has one answer, from the cache or from the printer |
| `Driver.Driver.GetVincFormaPgto` | src/ecfbematech.cc:1200-1231 | the link flag of just that slot |
| `Driver.Driver.GetProxFormaPgto` | src/ecfbematechcv0909.cc:350-380 | the least free slot, after reading the table again |
| `Driver.Driver.ProgramForma` | src/ecfbematechcv0909.cc:401-422 | one slot is programmed and the cache dropped, still true to the table |
| `Driver.Driver.SetFormaPgto` | src/ecfbematechcv0909.cc:388-437 | on names: a new name goes into the least free slot and is found there next, an old one changes nothing, and names stay distinct; on the records: the one written is the first of 45 characters whose first fifteen are blank, and it has the name and the flag asked for then |
| `Driver.NewNameEntered` | src/ecfbematechcv0909.cc:388-437 | what entering a name does to the table, and that the next lookup gives that slot alone |
| `Driver.Driver.LoadTotals` | src/ecfbematechcv0909.cc:190-232 | the decoded totalisers are those of the table |
| `Driver.Driver.GetTotalizadorCnf` | src/ecfbematechcv0909.cc:173-244 | the slot of a totaliser, or -1 |
| `Driver.Driver.GetProxTotalizador` | src/ecfbematech.cc:1329-1359 | the least free slot |
| `Driver.Driver.SetTotalizador` | src/ecfbematechcv0909.cc:445-490 | the same promise for totalisers, on names and on records |
| `Driver.Driver.IniciaFechamento` | src/ecfbematechcv0909.cc:783-834 | payments are forgotten on both sides only when all three calls went through |
| `Driver.Driver.IniciaFechamentoNaoFiscal` | src/ecfbematechcv0909.cc:850-862 | the mirror is kept for every real type and lost, for the no-op type, exactly if the printer had payments |
| `Driver.Driver.RegNaoFiscal` | src/ecfbematechcv0909.cc:596-617 | payments are switched off exactly if the name, cut and trimmed, occurs in the outflow setting; for a setting that is a list and a name without number signs, exactly if the name is empty or part of an entry; even when the registration fails; without the setting it fails and changes nothing |
| `OutflowList.FoundIffInsideOne` | src/ecfbematechcv0909.cc:602-614 | a name without number signs occurs in a list of entries between number signs exactly if it is empty or part of some entry |
| `OutflowList.FoundIsListedIff` | ChangeLog:78-81 | for any table of names this means being listed exactly if no name that is not listed is empty or part of an entry |
| `OutflowList.ListAndSearchDiffer` | ChangeLog:78-81 | a part of an entry and the empty name are found unlisted; a listed name in lower case is not found |
| `Driver.Driver.Pagamento` | src/ecfbematechcv0909.cc:625-663 | a suppressed payment changes neither side; an accepted one is noted on both with the last character of the record that has its name |
| `Driver.Driver.FechaDocumento` | src/ecfbematech.cc:3963-4005 | payments count again, even if the printer refuses |
| `Driver.Driver.GetNextPgtoCcd` | src/ecfbematechcv0909.cc:726-774 | the next linked position after the sequence field, or a failure that starts over |
| `Driver.Driver.AbreCreditoDebito` | src/ecfbematechcv0909.cc:677-714 | a number is used up exactly when one was found, even if the printer refuses |
| `Driver.Driver.RequestNumbers` | src/ecfbematechcv0909.cc:726-774 | successive requests after a totalisation give the positions of the linked payments in turn, then fail, and so on as the rounds of `CcdSequence` say |
| `Driver.Driver.Perform` | src/ecfbematechcv0909.cc:388-862 | each command keeps names distinct, occupied slots unwritten and the shadow list a tail of the printer's payments; how many payments each side holds and whether payments are off follow from the command and its outcome, and the list mirrors the printer exactly if the counts agree |
| `Driver.Driver.Drive` | src/ecfbematechcv0909.cc:388-862 | over every run of payment, closing and programming commands, with calls free to fail, the same: the mirror and the payments switch are exactly what the commands and their outcomes say, and no record that is short or has a name is ever written |
| `Driver.MirrorsExactly` | src/ecfbematechcv0909.cc:596-862 | the counts agree exactly if they did at the start and no no-op subtotal has met payments, or some totalisation went through and none has met payments after it |
| `Driver.PaymentsAreOffIff` | src/ecfbematechcv0909.cc:596-663 | payments are off exactly if an outflow was registered, accepted or refused, or they were off at the start, and no receipt was closed since |
| `Driver.PaymentsAreOffForList` | src/ecfbematechcv0909.cc:596-663 | the same for a setting that is a list: payments are off exactly if a name that is empty or part of an entry was registered, or they were off at the start, and nothing was closed since |
| `CcdSequence.LinkedIsExact` | src/ecfbematechcv0909.cc:726-774 | exactly the linked positions, strictly increasing |
| `CcdSequence.OneRound` | src/ecfbematechcv0909.cc:726-774 | successive requests give the linked positions in turn, each once, and then fail |
| `CcdSequence.RoundsRepeat` | src/ecfbematechcv0909.cc:726-774 | after the failure they start from the first again |
| `CcdSequence.EmptyListYieldsFirst` | src/ecfbematechcv0909.cc:755-765 | an empty list always yields the first position |
| `CcdSequence.RestartIsRightIff` | src/ecfbematechcv0909.cc:752-761 | after a restart the number is right exactly if the first payment is linked, and the whole round exactly if it is the only one |
| `TaxTable.FieldsOfJoin` | src/ecfbematech.cc:1655-1715 | splitting at commas undoes joining |
| `TaxTable.MarkIss` | src/ecfbematechcv0909.cc:84-114 | the loop marks ISS exactly the slots the list names, shifted by the offset |
| `TaxTable.LoadRates` | src/ecfbematechcv0909.cc:116-142 | entry x carries rate x and flag x, for every x of the list |
| `TaxTable.TaxCache.Load` | src/ecfbematech.cc:1640-1717 | keys 0..n-1, slot by slot the table that the two answers describe |
| `TaxTable.TaxCache.GetIdxAliquota` | src/ecfbematech.cc:1622-1739 | one more than the greatest slot of that type and rate, or -1; a refusal leaves the cache alone |
| `TaxTable.TaxCache.AliqIsIcms` | src/ecfbematech.cc:1559-1582 | whether the slot is ICMS, the cache growing by one ICMS 0% entry when asked just past its end |
| `TaxTable.TaxCache.AliqIsIss` | src/ecfbematech.cc:1590-1613 | the same for ISS |
| `TaxTable.TableDescribed` | src/ecfbematech.cc:1640-1717 | a filled cache has contiguous keys and no other types than ICMS and ISS |
| `ZReport.GrownKeys` | src/ecfbematech.cc:1559-1613 | what looking at the first n slots adds to the cache |
| `ZReport.EachSlotInOneBlock` | src/ecfbematech.cc:2335-2476 | with a non-empty cache each of the 16 slots is in exactly one block |
| `ZReport.GrowingKeepsLookups` | src/ecfbematech.cc:1559-1613 | growing leaves the lookup of every rate but ICMS 0% as it was |
| `ZReport.ZeroRateStaysIff` | src/ecfbematech.cc:1559-1613 | the lookup of ICMS 0% stays what it was exactly if the table has 16 entries at least |
| `ZReport.ZeroRateMoves` | src/ecfbematech.cc:1559-1613 | otherwise it is found in the last slot after the report, where it was not before |
| `ZReport.BlocksConserveTotals` | src/ecfbematech.cc:2335-2476 | the two blocks add up to the 16 totals |
| `ZReport.BlocksConserveTotalsIff` | src/ecfbematech.cc:2335-2476 | for any table the blocks add up to the 16 totals exactly if the cache was not empty or the totals are zero |
| `ZReport.ReportHas83Bars` | src/ecfbematech.cc:2283-2509 | 83 separators when no field contains one |
| `ZReport.AddBlock` | src/ecfbematech.cc:2335-2476 | one block, slot by slot, while the cache grows under it |
| `ZReport.DadosUltReducao` | src/ecfbematech.cc:2283-2509 | cut at its bars the text shows, slot by slot and field by field, the characters of the printer's answer: slot k of a tax its rate and total at 4k and 14k, zeros where the slot is of the other tax in the table after the look, and the single fields in between |
| `ZReport.ReportShows` | src/ecfbematech.cc:2283-2509 | the same of the report's fields for any table |
| `Rates.AliquotaObject.Set` | src/aliquota.cc:204-221 | which error, and what is stored in each case |
| `Rates.AliquotaObject.GetRaw` | src/aliquota.cc:132-153 | the loop leaves the formatted rate without its blanks |
| `Rates.AliquotaObject.GetRawNumbers` | src/aliquota.cc:161-179 | the four digits of the rate |
| `Rates.AliquotaObject.GetSerialized` | src/aliquota.cc:186-195 | type, CST and digits |
| `Rates.AliquotaObject.Parse` | src/aliquota.cc:231-261 | malformed, out of range, unknown type or the parsed rate |
| `Rates.RateRoundTrip` | src/aliquota.cc:186-261 | for every valid type, every CST and every rate 0..9999 hundredths parsing undoes serialising |
| `Rates.ParsedOf` | src/aliquota.cc:231-261 | any text with two colons in reach: the character before the first, the number between them modulo 65536, the decimal number behind the last |
| `Rates.MalformedIff` | src/aliquota.cc:236-243 | malformed exactly without two colons |
| `Rates.AtoiReads` | src/aliquota.cc:249 | blanks, a sign, digits and anything behind them are read as the number |
| `Rates.AtofReads` | src/aliquota.cc:253 | blanks, digits, a point, digits and anything behind them are read as the decimal number |
| `Rates.SerializedAt` | src/aliquota.cc:186-195 | the text character by character: type, two places of CST, four digits of the rate |
| `Rates.HundredsAreNearest` | src/aliquota.cc:132-153 | the hundredths shown are the nearest, with two places on either side of the point |
| `Rates.TableOfPrinted` | src/ecfbematech.cc:1640-1717 | when the printer's two answers list ISS indices and rates, the table has one entry for each rate, ISS exactly where the index, shifted by the offset, is listed |
| `Report.ChunksOfText` | src/ecfbematech.cc:2909-2939 | the chunks concatenate to the text, have 1..480 bytes, and all but the last have 480 |
| `Report.Printer.TxtRelGerencial` | src/ecfbematech.cc:2909-2939 | the chunks of the text, in order, stopping at the first refusal |
| `Report.Printer.TxtRelGerencialTag` | src/ecfbematech.cc:2945-2988 | the nested loops terminate for every non-empty tag; chunks and cuts in order, stopping at the first refusal |
| `Report.SplitIsUnique` | src/ecfbematech.cc:2945-2988 | the slices are the one way to write the text with leftmost tags |
| `Report.NoSliceHoldsTheTag` | src/ecfbematech.cc:2945-2988 | no slice contains the tag |
| `Report.SheetsHoldGoodChunks` | src/ecfbematech.cc:2909-2988 | every chunk of the trace has 1..480 bytes, and there is one cut between two slices |
| `Report.PaperShowsTheText` | src/ecfbematech.cc:2909-2988 | putting the tag for each cut and concatenating gives the text back, exactly if it has no NUL |
| `Report.PaperShowsSlices` | src/ecfbematech.cc:2909-2988 | the paper shows every slice up to its first NUL, with the tag in between |
| `Packets.GetParamValueByName` | src/ecfbroker.cc:94-110 | the first value of what the lookup finds |
| `ReportBroker.JoinMessage` | src/ecfbroker.cc:2299-2330 | the loop joins the first value and the following ones up to the first empty one |
| `ReportBroker.AbreGerencial` | src/ecfbroker.cc:2286-2344 | success, a missing parameter or a refusal, and for each the exact trace: open, chunks and cuts, close |
| `ReportBroker.MessageIsWhole` | src/ecfbroker.cc:2299-2330 | a message is printed whole exactly if no text follows a blank line other than the first |
| `ReportBroker.MessageStopsAt` | src/ecfbroker.cc:2299-2330 | what is printed are the lines up to the first blank one, the first line apart |
| `ReportBroker.ReportIsClosedIff` | src/ecfbroker.cc:2286-2344 | closed exactly if title and message can be found, left open exactly if the title alone can |
| `ReportBroker.PaperShowsTheMessage` | src/ecfbroker.cc:2286-2344 | the paper shows all lines exactly if no text follows a blank line and there is no NUL |
| `ReportBroker.FileToPaper` | src/ecfbroker.cc:2286-2344 | from the characters of a command file to the trace of a whole report, and when the paper shows the lines |

## Left out

- The vendor library and `check`: a call is accepted or refused. Warning bits that make an accepted call raise an exception are not modelled.
- Packets.Packet.FirstParam: an element handed out is a new object whose cursor stands anywhere, as every copy of an element resets the cursor before using it; aliasing of elements is not captured.
- Packets.GetParamByName: asked for a non-blank name only, as all its callers do; a blank name would make the search run for ever.
- Packets.GetParamValueByName: the same.
- Collector.Broker.Trade: the commands themselves are not modelled, only which requests let a foreign exception out and that the answers have one value each; what the printer answers is arbitrary, and running out of memory is left out.
- Collector.Session.Generate: the random number is an arbitrary text, so nothing is said about how it is drawn or shuffled.
- Collector.TxtCollector.Accept: opening, closing and deleting the command file always succeed.
- EscapingCommands.SetAliquota: what the printer says to the rate is a choice.
- EscapingCommands.VendeItem: the same; the formatting of amounts is not modelled.
- EscapingCommands.MemoriaFiscal: the same.
- Progress.CommandsAreAnswered: about a process that goes on; one that a command ends stops there, and its later commands wait.
- Reader.ReadPacket: a new packet has an uninitialised type in the code; here it is an arbitrary value.
- Tags.TypeFromString: the enumerator past the last type has no tag and is not modelled.
- Writer.WritePacket: the server identification line is a parameter.
- Serializer.Serialize: file errors are not modelled.
- FileQueue.FileQueue.KernelScan: errors of the kernel calls, overflow of the event queue and a read that splits a record are not modelled.
- Protocol.ClientsReadTheirOwnAnswer: a client clears old answer and lock before it submits again; drafts show up in events only, and renaming one in does not remove it.
- OnDisk.ClientsReadFromDisk: no other program makes files under the names of the protocol.
- Protocol.StepKeepsInv: the answer texts are arbitrary there; that the methods of `Collector`, `Serializer` and `FileQueue` run as its steps is not proved, only what each does, so session codes are not followed through interleaved runs.
- Driver.Driver.LoadForms: the buffer is one the printer made from a well-formed table.
- Driver.Driver.SetFormaPgto: stated for a usable name (not blank, not one of the two words that mark free and missing slots, without comma or NUL, which would damage the table); on a full table the driver asks for slot 0, which the printer refuses.
- Driver.Driver.SetTotalizador: the same.
- Driver.Driver.ProgramForma: the same names.
- Driver.Driver.Drive: programming commands name usable names.
- Driver.Driver.Pagamento: the amount goes to the printer unchanged and is not modelled.
- TaxTable.MarkIss: indices are those of existing slots; the 16-bit index type is unbounded here, as it never passes 60.
- TaxTable.LoadRates: every rate has four digits; an empty list, which would reuse the work buffer, is a malformed answer.
- ZReport.DadosUltReducao: the fields that the vendor library fills are parameters of the right width.
- Rates.AliquotaObject.Parse: exponents, hexadecimal and special numbers of `atof` are not modelled.
- Rates.AliquotaObject.GetRaw: the text that `strfmon` makes is taken to be the rate with two places on either side of the point, with blanks anywhere.
- Rates.AliquotaObject.Set: a percentage is a real number, without the rounding of `float`.
- Report.Printer.TxtRelGerencialTag: the tag is a C string and not empty; the broker's is a constant.
- ReportBroker.AbreGerencial: the search for the report's title in the printer's table is part of opening it, which may be refused.
- The `fake` mode, logging, signals, forking, configuration and the command table: no logic the properties depend on.
- One-call wrappers, report files, MFD download and conversion, `reducao_z`, cheques and drawer: they only forward.
- The cipher of `utils/`: it is OpenSSL's.
