# Matrix Whale adapters and web client: verified models

Five stateful cores of the system, modelled in Dafny and proved for all inputs, runs and crashes.

- **BUFR decoder** (`Bits`, `BitReading`, `Bufr*`). A bit cursor, a message framer, and two recursive
  interpreters of the FM 94 BUFR template language (WMO-No. 306, Volume I.2), one for row-wise and one for
  column-compressed data. The imperative decoders, with their state object, their shared cursor and the
  subsets they append to in place, are proved against one interpreter that is charged for every descriptor.
  Main results: every template decodes to its flat list of elements, compressed and row-wise data mean the same
  (regulation 94.6.3), the work is bounded for every table, truncation is graceful, messages between junk are cut
  out exactly.
- **JMA acquisition** (`Jma*`). Spool, history, byte budget and feed schedule on disk and in memory, the HTTP
  client that pays from the budget, and the controller. Every durable write, request and acknowledgement is an
  event of a log. The methods are proved to extend the log legally whatever the disk, JMA, core and the clock
  do, and to spool whatever was received; legal logs are proved to lose nothing, to ask for nothing twice and to
  be polite, cut off anywhere.
- **Polyline rings** (`Polyline`, `PolylineRoundTrip`). The ring decoder with every rounding of its doubles
  written out, proved equal to integer arithmetic, and the exact set of rings that survive the round trip.
- **Earthquake store** (`Earthquakes`). Snapshots, cached snapshots, stream events and filter changes race;
  the newest version of an event wins, and a snapshot shows what it lists.
- **Host limiter, dedup cache, live delivery** (`HostLimiter`, `Dedup`, `LiveDelivery`). Politeness under any
  interleaving, a swept cache that answers like its whole history, batches and pages that lose nothing.

## How to read it

Code that changes state is a class or a method with loops; what it computes is a function, and lemmas say what
that function means. The interpreter of BUFR templates has three sources of values: row-wise bits, column bits,
and the matrix of values itself. The last is no decoder. It is what an encoder has in mind, and both decoders
are related to it, leaf by leaf and then through sequences, replication, depth and budget.

Where the model meets the world it takes what it is given: tables B and D are any maps, an answer of core or a
failed write is any boolean, time is any non-decreasing number, the outcomes of sends and fetches are any list.
A parameter `live` says that the context is not cancelled while a method runs.

## What the code promises and does not quite keep

- Two requests to one JMA feed are not always a floor interval apart across a restart. The planned instant is
  persisted, but the request leaves only after the rate limiter has let it go, and a stop before the outcome is
  recorded forgets that wait. `JmaLedger.FloorBetweenRequests` says exactly when: some legal run polls too early
  if and only if the last request left later than its planned instant and its outcome was never recorded.
  `JmaController.StopAfterPoll` takes the code there, and `JmaController.Controller.ProcessFeed` shows that
  short of a stop or a failed write no outcome stays unrecorded.
- In-range deltas do not make a polyline ring decodable, because coordinates add up
  (`PolylineRoundTrip.DeltasAloneAreNotEnough`). `PolylineRoundTrip.RoundTrip` has the exact condition.
- The two decoders do not accept the same delayed replication factors. In row-wise data a factor must be left
  with 1 to 64 bits by operator 201. In compressed data its width is not checked first, so a factor left with no
  bits, or with any number of them on a payload too short for it, is taken (`BufrGuarantees.FactorWidths` for
  every width and payload, `BufrGuarantees.DecodersPart` for whole templates). The equivalence is proved for
  counts of 1 to 64 bits, which are all that a layout of a matrix can have.

- A snapshot that lists an event twice can show an old version: the newest is refused by the filter, and an older
  one behind it is merged as if nothing had been known (`Earthquakes.RefusedThenOlder`). `Earthquakes.SnapshotShows`
  has the exact condition; a body that lists each event once never does that (`Earthquakes.ListedOnceShows`).

## Model

| member | source | states |
|---|---|---|
| BitReading.BitReader.ReadBits | wis2_adapter/app/bufr/bitreader.go:44-74 | A read of 0 to 64 bits gives the big-endian number of exactly those bits and moves the cursor past them; a bad count or too few bits is an error and leaves the cursor where it was |
| BitReading.BitReader.ReadSignedBits | wis2_adapter/app/bufr/bitreader.go:76-91 | Sign and magnitude of the next bits; one bit or none is zero and is not read |
| BitReading.BitReader.ReadString | wis2_adapter/app/bufr/bitreader.go:93-114 | The octets at the cursor, or the missing flag exactly if there are some and all are 0xFF |
| BitReading.BitReader.SkipBits | wis2_adapter/app/bufr/bitreader.go:33-42 | Moves the cursor if that many bits are left, and otherwise not at all |
| BitReading.BitReader.BitsRemaining | wis2_adapter/app/bufr/bitreader.go:25-31 | The number of bits between the cursor and the end |
| BitReading.ReadTwice | wis2_adapter/app/bufr/bitreader.go:44-74 | Two reads of a and b bits, at any alignment, are one read of a + b bits |
| BitReading.ReadSplit | wis2_adapter/app/bufr/bitreader.go:44-74 | The one read splits at b into the two by shift and mask |
| BitReading.TakeChunk | wis2_adapter/app/bufr/bitreader.go:56-72 | One round of the read loop, a shifted and masked byte entering a 64-bit register, extends the number by the next bits and loses none |
| BitReading.AllOnesMeansMissing | wis2_adapter/app/bufr/bitreader.go:116-124 | On a read of 1 to 64 bits IsAllOnes holds exactly when every bit is set |
| BitReading.SignAndMagnitude | wis2_adapter/app/bufr/bitreader.go:84-90 | Shifting out the sign and masking the magnitude give the first bit and the number of the others |
| BufrState.DecoderState.Reset | wis2_adapter/app/bufr/decoder.go:246-258 | A new subset starts with neutral operators and an unexhausted stream; the depth, the budget and the width of operator 206 carry over |
| BufrState.SkipLocalField | wis2_adapter/app/bufr/decoder.go:288-304 | A local descriptor is skipped by its announced width, or exhausts the stream, and is refused if none was announced |
| BufrState.ApplyOperator | wis2_adapter/app/bufr/decoder.go:308-339 | Operators 201 to 204 and 206 to 208 bring the state to what Table C says; any other operator changes nothing |
| BufrState.ReadNewReference | wis2_adapter/app/bufr/decoder.go:493-507 | Under operator 203 an element defines a new reference value and emits nothing |
| BufrOperators.OperatorsAdd | wis2_adapter/app/bufr/decoder.go:533-577 | Operator 201 changes only the width, 202 only the scale, 203 only references defined before, and 207 with operand Y adds Y digits to scale and reference and (10 Y + 2) / 3 bits to the width; no other operator touches a number |
| BufrOperators.OperatorsCancel | wis2_adapter/app/bufr/decoder.go:308-339 | An operator that is cancelled by operand 0 leaves the width, reference and scale of Table B |
| BufrOperators.ReferenceReplaced | wis2_adapter/app/bufr/decoder.go:533-538 | A reference defined under 203 takes the place of the one in Table B, for its own element and no other |
| BufrOperators.ReferenceDefined | wis2_adapter/app/bufr/decoder.go:493-507 | While 203 is defining, an element reads its reference from the bits, sign first, and emits nothing |
| BufrOperators.BitmapInOrder | wis2_adapter/app/bufr/decoder.go:383-400 | The presence bits of 237 are the next bits, first for first, and the cursor is behind them |
| BufrOperators.PresenceDecides | wis2_adapter/app/bufr/decoder.go:509-523 | The next presence bit decides about an element: set, it is read as without presence bits; not set, it is missing and takes no bits |
| BufrOperators.AssociatedPassed | wis2_adapter/app/bufr/decoder.go:525-531 | In front of every element but 031021 exactly the bits announced by 204 are passed over |
| BufrOperators.LocalPassedOnce | wis2_adapter/app/bufr/decoder.go:288-304 | After 206 one local descriptor is passed over by exactly the width announced, and the next is refused |
| BufrOperators.PrecisionLosesNothing | wis2_adapter/app/bufr/decoder.go:540-577 | Under operator 207 every number of a field still fits, scaled by the digits added, and stands for the same decimal value |
| BufrOperators.CountRange | wis2_adapter/app/bufr/decoder.go:444-455 | A count of 1 to 64 bits is a signed 64-bit integer, the field modulo 2^64, negative only if all 64 bits are used; all ones is zero except for 031000 |
| BufrTypes.DigitsDetermine | wis2_adapter/app/bufr/bufr.go:13-23 | A six-digit code and its F, X, Y parts determine each other |
| BufrMachine.TextsKept | wis2_adapter/app/bufr/decoder.go:37-39 | For any octets: a text is missing exactly if every character is NUL, blank or U+FFFD, as which octets outside valid UTF-8 read; otherwise it is one stretch of the field, only NULs and Unicode white space are cut off, and no white space is left at its ends |
| BufrMachine.VisibleKept | wis2_adapter/app/bufr/decoder.go:351-354 | An octet between 0x21 and 0x7F keeps a text from being missing and is kept in it |
| BufrTexts.PaddingIsAllPad | wis2_adapter/app/bufr/decoder.go:37-39 | Trimming padding character by character from the right and then from the left leaves nothing exactly if every character is padding |
| BufrTexts.TrimmedEnds | wis2_adapter/app/bufr/decoder.go:351-354 | Trimming NULs and then white space takes only those off the two ends and leaves what is between untouched |
| BufrRowDecoder.ReadBitmap | wis2_adapter/app/bufr/decoder.go:383-400 | The presence bits of operator 237, absent from where the stream runs out |
| BufrRowDecoder.DecodeOperatorRow | wis2_adapter/app/bufr/decoder.go:307-402 | Every operator on row-wise data has the effect and the values of the interpreter |
| BufrRowDecoder.DecodeFieldRow | wis2_adapter/app/bufr/decoder.go:533-603 | One element of row-wise data: its value, missing if all ones or cut off, or a refused width |
| BufrRowDecoder.DecodeElementRow | wis2_adapter/app/bufr/decoder.go:487-605 | New references, presence bits and associated fields are obeyed before an element is read |
| BufrRowDecoder.DecodeFactorRow | wis2_adapter/app/bufr/decoder.go:427-457 | A delayed count in row-wise data, its value and its error cases |
| BufrRowDecoder.ObeyUncompressed | wis2_adapter/app/bufr/decoder.go:286-607 | One round of the row loop takes the interpreter's step, whatever the descriptor |
| BufrRowDecoder.ReplicateUncompressed | wis2_adapter/app/bufr/decoder.go:420-485 | Fixed and delayed replication repeat the right block the right number of times, with the interpreter's errors in its order |
| BufrRowDecoder.DecodeDescriptorsUncompressed | wis2_adapter/app/bufr/decoder.go:268-609 | For every table and payload it ends, and gives exactly the values, cursor, operators and budget, or the error, of the interpreter, which are those of the template's flat list (BufrExpansion.CallSpells) |
| BufrRowDecoder.DecodeUncompressed | wis2_adapter/app/bufr/decoder.go:241-266 | The subsets one after the other, with one budget for all; the first failing subset decides |
| BufrRowDecoder.RowsStop | wis2_adapter/app/bufr/decoder.go:259-262 | An error in one subset is the result of the whole decode |
| BufrColumnDecoder.AppendTexts | wis2_adapter/app/bufr/decoder.go:737-760 | Each subset gets the text of its own increment; from where the stream runs out all are missing |
| BufrColumnDecoder.AppendNumbers | wis2_adapter/app/bufr/decoder.go:1020-1043 | Each subset gets reference plus its own increment; from where the stream runs out all are missing |
| BufrColumnDecoder.DecodeTextColumn | wis2_adapter/app/bufr/decoder.go:698-760 | A column of texts: reference, NBINC, increments, appended to every subset in place |
| BufrColumnDecoder.DecodeNumberColumn | wis2_adapter/app/bufr/decoder.go:972-1045 | A column of numbers: reference, NBINC, increments, appended to every subset in place |
| BufrColumnDecoder.DecodeElementColumn | wis2_adapter/app/bufr/decoder.go:871-1046 | One element of compressed data has the effect of the interpreter's leaf on all subsets |
| BufrColumnDecoder.DecodeFactorColumn | wis2_adapter/app/bufr/decoder.go:800-853 | One delayed count for all subsets, its increments read and dropped |
| BufrColumnDecoder.DropIncrements | wis2_adapter/app/bufr/decoder.go:833-841 | The increments of a count are read to the end or the data is too short |
| BufrColumnDecoder.ReplicateCompressed | wis2_adapter/app/bufr/decoder.go:793-869 | Replication in compressed data repeats the right block for all subsets and keeps them aligned |
| BufrColumnDecoder.DecodeDescriptorsCompressed | wis2_adapter/app/bufr/decoder.go:622-1051 | It ends for every table and payload with the interpreter's subsets, cursor and budget or its error, which are those of the flat list (BufrExpansion.CallSpells); aligned subsets stay aligned even on an error |
| BufrColumnDecoder.DecodeCompressed | wis2_adapter/app/bufr/decoder.go:611-620 | All subsets of compressed data are those of the interpreter, and they are aligned |
| BufrExpansion.CallSpells | wis2_adapter/app/bufr/decoder.go:268-609 | Every sequence, replication and nesting, in either decoder: the machine, the error or the overdrawn budget are those of obeying, one after the other, the flat list in which sequences are replaced by their members and blocks by as many copies as the operand or the count read says |
| BufrExpansion.ColumnsSpelled | wis2_adapter/app/bufr/decoder.go:611-620 | Compressed data decodes to what its flat list gives for all subsets, at the cost of the descriptors met, and fails with the first error of the list or of its end |
| BufrExpansion.RowsSpelled | wis2_adapter/app/bufr/decoder.go:241-266 | So does each subset of row-wise data, from the cursor and the total the one before has left |
| BufrExpansion.OneListForAll | wis2_adapter/app/bufr/decoder.go:420-425 | Without delayed replication a template stands for one flat list, whatever payload, subsets and kind of data |
| BufrExpansion.MembersAreNested | wis2_adapter/app/bufr/decoder.go:404-418 | A Table D sequence stands for its members in order, each code split into F, X and Y |
| BufrExpansion.DatesStandForMembers | wis2_adapter/app/bufr/decoder.go:779-791 | For example 301011 stands for 004001, 004002, 004003, and replicated twice for these twice |
| BufrBounds.RunEvolves | wis2_adapter/app/bufr/decoder.go:268-609 | Through every list the cursor never goes back, stays where it is once the stream ran out, values are paid for by the budget, and alignment is kept |
| BufrBounds.StepEvolves | wis2_adapter/app/bufr/decoder.go:622-1051 | The same for each single descriptor, through nested sequences and replications |
| BufrBounds.CallEvolves | wis2_adapter/app/bufr/decoder.go:622-629 | The same one level deeper |
| BufrBounds.RepeatEvolves | wis2_adapter/app/bufr/decoder.go:855-869 | The same for a repeated block |
| BufrBounds.LeafEarns | wis2_adapter/app/bufr/decoder.go:871-1046 | A leaf or count emits at most what was charged for it, and the same label in every subset |
| BufrGuarantees.RowsBounded | wis2_adapter/app/bufr/decoder.go:12-18 | All values of all row-wise subsets together are within the budget of 100 000, for any tables, template and payload |
| BufrGuarantees.ColumnsBounded | wis2_adapter/app/bufr/decoder.go:634-642 | All values of all compressed subsets together are within the same budget, and the subsets are aligned |
| BufrGuarantees.CyclesAreRefused | wis2_adapter/app/bufr/decoder.go:268-284 | Table D sequences that begin with one another, round and round, are over the limit at the head of a template, for any payload |
| BufrGuarantees.CyclesNeverDecode | wis2_adapter/app/bufr/decoder.go:403-418 | A template that enters a cycle of Table D at any place every complete run gets to, also behind or inside replications, decodes from no payload, row-wise or compressed |
| BufrGuarantees.FactorWidths | wis2_adapter/app/bufr/decoder.go:805-843 | Which delayed factors each decoder takes, for every width and payload, and exactly when the two part |
| BufrGuarantees.DecodersPart | wis2_adapter/app/bufr/decoder.go:437-440 | One template on an empty payload, for every Table B width and every operand of operator 201: row-wise it decodes exactly with 1 to 64 bits left, compressed exactly with more than -6 |
| BufrTransposition.LeafMirrors | wis2_adapter/app/bufr/decoder.go:487-605 | Any element or operator read from either layout of a matrix gives what the matrix holds and ends where the next field begins |
| BufrTransposition.RowCountMirrors | wis2_adapter/app/bufr/decoder.go:432-457 | A delayed count laid out in a row is read back |
| BufrTransposition.ColumnCountMirrors | wis2_adapter/app/bufr/decoder.go:805-853 | A delayed count laid out as a column is read back, its increments skipped |
| BufrTransposition.ColumnNumberReadsBack | wis2_adapter/app/bufr/decoder.go:993-1044 | Any reference and NBINC an encoder may choose give back every subset's number or missing value |
| BufrTransposition.ColumnTextReadsBack | wis2_adapter/app/bufr/decoder.go:923-971 | Any choice of repeated or separate texts gives back every subset's text |
| BufrEquivalence.RunTracks | wis2_adapter/app/bufr/decoder.go:280-607 | Whatever the matrix gives under a template, the decoder of its layout gives too, or it runs over its budget at exactly the computed cost |
| BufrEquivalence.RowsDecoded | wis2_adapter/app/bufr/decoder.go:241-266 | The first subsets of the row layout decode to the first rows of the matrix |
| BufrEquivalence.ColumnsDecoded | wis2_adapter/app/bufr/decoder.go:611-620 | The column layout decodes to the matrix |
| BufrEquivalence.CompressedMeansTheSame | wis2_adapter/app/bufr/decoder.go:241-1051 | Decoding the row layout and the column layout of any matrix gives the same subsets; both are refused exactly when n times the expanded template is over 100 000 |
| BufrTruncation.LeafShadows | wis2_adapter/app/bufr/decoder.go:340-400 | One leaf on a cut payload: the same value if all bits it needs are before the cut, and otherwise the stream has run out and the value is missing |
| BufrTruncation.RunShadows | wis2_adapter/app/bufr/decoder.go:487-604 | A whole list on a cut payload succeeds where it succeeds on the full one, and falls behind exactly at the first descriptor that needs a bit past the cut |
| BufrTruncation.TruncationIsGraceful | wis2_adapter/app/bufr/decoder.go:288-302 | Without delayed replication a cut subset decodes whenever the full one does, at the same cost, to the same descriptors: equal up to the values emitted before the first descriptor that needs a bit past the cut, missing after them, and altogether equal exactly if no descriptor needs one |
| BufrSections.ParseUndoesBuild | wis2_adapter/app/bufr/decoder.go:111-239 | Every message built from header octets, optional section 2, template and payload in edition 3 or 4 reads back with exactly its header, template, number of subsets and payload |
| BufrSections.HeaderBack | wis2_adapter/app/bufr/decoder.go:137-165 | Each header field is taken from the octet the edition assigns to it |
| BufrSections.DescriptorsBack | wis2_adapter/app/bufr/decoder.go:200-209 | The 2-6-8 bit packing of descriptors is undone |
| BufrSections.AcceptedLiesWithin | wis2_adapter/app/bufr/decoder.go:132-222 | In whatever is accepted sections 1 to 4 stand in a row within the message, each as long as it says; template, number of subsets and payload are what stands in sections 3 and 4, and the edition is 3 or 4 with 1 to 10 000 subsets |
| BufrSections.InARowIsAccepted | wis2_adapter/app/bufr/decoder.go:132-222 | And whatever has its sections in a row and a permitted number of subsets is accepted, with that body |
| BufrMessages.DecodeSingleMessage | wis2_adapter/app/bufr/decoder.go:111-239 | Any bytes at all give a message or an error without a panic: what Single says, which BuiltTells and HeaderOfAny state in terms of the bytes |
| BufrMessages.BuiltTells | wis2_adapter/app/bufr/decoder.go:126-238 | Every built message is decoded to its header with exactly the subsets of its payload, or to its header without any and the error |
| BufrMessages.HeaderOfAny | wis2_adapter/app/bufr/decoder.go:118-165 | Of any bytes, accepted or not, the message has as much of the header as stands in them, and no subsets if there is an error |
| BufrMessages.StreamTells | wis2_adapter/app/bufr/decoder.go:41-109 | A stream of built messages between junk is decoded to the header and subsets, or the error, of each, in order |
| BufrMessages.FalseMarkersSkipped | wis2_adapter/app/bufr/decoder.go:69-95 | Every false marker gets one error slot with its edition, and the message behind them is still handed over |
| BufrMessages.CutOffEndsScan | wis2_adapter/app/bufr/decoder.go:60-80 | A marker whose header or message is cut off gives the one error Truncated and ends the scan |
| BufrMessages.Decode | wis2_adapter/app/bufr/decoder.go:41-109 | The scan ends on any input, with one message slot and one error slot for each marker reached, or with the single error for empty input or no marker |
| BufrMessages.NoMarkerInJunk | wis2_adapter/app/bufr/decoder.go:52-58 | Junk without a marker stays without one in front of a message: the marker does not overlap itself |
| BufrMessages.ScanFrames | wis2_adapter/app/bufr/decoder.go:52-102 | Over junk and framed messages in turn, the scan hands over exactly the messages, in order |
| BufrMessages.JunkIsSkipped | wis2_adapter/app/bufr/decoder.go:41-109 | Each message between junk is decoded as if it were alone, in order, and nothing else is |
| BufrMessages.BuiltIsFramed | wis2_adapter/app/bufr/decoder.go:66-95 | Every built message carries its length and terminator where the scanner looks for them |
| BufrMessages.SameEitherWay | wis2_adapter/app/bufr/decoder.go:224-236 | From bytes to messages: one matrix sent row-wise in one message and compressed in another decodes to the two headers with the same subsets, or to the two headers and the limit error |
| JmaLedger.LegalKeeps | jma_adapter/app/state/state.go:285-341 | At every point of every legal log nothing spooled is lost and every schedule is at least its floor ahead |
| JmaLedger.NothingIsLost | jma_adapter/app/controller/controller.go:699-751 | Cut a run off anywhere and restart: every document ever spooled is in the spool or the history, and in the spool or acknowledged; every URL in the history is still spooled or was acknowledged |
| JmaLedger.NeverAgain | jma_adapter/app/controller/controller.go:529-535 | A document once spooled is never requested from JMA again, through any crashes and restarts |
| JmaLedger.QuietAfterFailure | jma_adapter/app/controller/controller.go:54-70 | After the first failed write a process sends JMA nothing more |
| JmaLedger.PollsArePolite | jma_adapter/app/controller/controller.go:304-317 | A poll leaves at least the floor after the last planned instant, and after the last request itself once its outcome was recorded |
| JmaLedger.FloorBetweenRequests | jma_adapter/app/controller/controller.go:311-324 | The floor between two requests can be undercut exactly when the first left later than planned and was never recorded; the shortest such run is given |
| JmaLedger.RequestsAreSpaced | jma_adapter/app/client/jma_client.go:137-157 | Any two requests of one process are the serial interval apart |
| JmaLedger.PausesAreKept | jma_adapter/app/client/jma_client.go:107-135 | While a pause that JMA asked for and that was written runs, no document and no feed is requested, through any crashes and restarts |
| JmaStore.Store.SaveSpool | jma_adapter/app/state/state.go:496-507 | An item is spooled whole or the write fails and nothing changed |
| JmaStore.Store.DeleteSpool | jma_adapter/app/state/state.go:509-517 | Only what core has and the history lists is removed |
| JmaStore.Store.MarkFetched | jma_adapter/app/state/state.go:317-341 | The history gets the URL, or the append fails, in which case the file may have it but memory does not |
| JmaStore.Store.ListSpool | jma_adapter/app/state/state.go:537-570 | Every spooled item once, or a failure |
| JmaStore.Store.Reserve | jma_adapter/app/state/state.go:207-238 | An estimate is set aside, in memory and on disk, exactly if the day's limit allows it; a new day starts from nothing |
| JmaStore.Store.Commit | jma_adapter/app/state/state.go:240-274 | A reservation is replaced by what was used; overflow guard and clamp never take effect; the figure stays between what was committed and the limit, in memory and on disk |
| JmaStore.Store.PersistFeedState | jma_adapter/app/state/state.go:365-372 | Schedule and pause on disk become those in memory, or stay; the disk is in order before and after |
| JmaStore.Store.RecordFeedAttempt | jma_adapter/app/state/state.go:381-394 | The planned minimum is durable before the request, or the process has failed; nothing else of the feed state changes |
| JmaStore.Store.RecordFeedSuccess | jma_adapter/app/state/state.go:396-409 | A new schedule is at least the floor ahead of its writing, with it the poll is settled, and validators stay |
| JmaStore.Store.RecordFeedFailure | jma_adapter/app/state/state.go:411-425 | So is the schedule after a failure, with the errors in a row |
| JmaStore.Store.SaveFeedValidator | jma_adapter/app/state/state.go:427-441 | Validators change no schedule |
| JmaStore.Store.SetGlobalBackoff | jma_adapter/app/state/state.go:450-459 | A pause ends no earlier than the one on disk, is logged when it is written, and changes no schedule |
| JmaStore.Store.Reopen | jma_adapter/app/state/state.go:113-151 | Whatever the memory of the old process was, a new one finds the disk as it was, and its memory is loaded from it |
| JmaStore.Store.LoadByteBudget | jma_adapter/app/state/state.go:165-196 | The figure of the day covers what was committed, and a reservation that was never settled stays spent |
| JmaStore.Store.PersistBudget | jma_adapter/app/state/state.go:198-205 | The figure on disk covers what was committed before and after every write of it, also while memory is ahead |
| JmaClient.Client.WaitRateLimit | jma_adapter/app/client/jma_client.go:107-157 | A request is let go no earlier than the interval after the last one, and after every Retry-After on disk or in memory has run out; it is refused only while one runs, and cancelled only while it waits |
| JmaClient.Client.SetGlobalRetry | jma_adapter/app/client/jma_client.go:124-135 | Disk and memory hold a pause of at least what the reply asks for or its status deserves, none earlier than before, or the process has failed; without either nothing changes |
| JmaClient.Client.Open | jma_adapter/app/client/jma_client.go:182-208 | A turn and a reservation, or an error that is fatal exactly if a write failed |
| JmaClient.Client.Close | jma_adapter/app/client/jma_client.go:306-309 | The reservation is settled once, within what was reserved |
| JmaClient.Client.FetchData | jma_adapter/app/client/jma_client.go:322-425 | On every path one reservation and one commit or neither, at most one request, a fatal error exactly if a write failed; a document that came down or was refused with 400, 404 or 410 is logged as received, and no other is |
| JmaClient.Client.Settle | jma_adapter/app/client/jma_client.go:367-422 | The reservation is settled once, and the receipt of the document stands or falls with that write |
| JmaClient.Client.FetchFeed | jma_adapter/app/client/jma_client.go:176-320 | On every path one reservation, one commit and exactly one logged poll of this feed, dated when it was let go and at least the interval after the last request, or none of them; a refused reservation sends nothing |
| JmaController.ParseAtomFeed | jma_adapter/app/parser/atom.go:90-135 | A feed lists each document once |
| JmaController.Controller.ReplayItem | jma_adapter/app/controller/controller.go:183-228 | One item is put to core, then recorded and forgotten in that order if core took it, or kept with one more attempt |
| JmaController.Controller.ReplaySpool | jma_adapter/app/controller/controller.go:126-230 | Unless a write fails or the context is cancelled it goes on until core refuses an item, which is kept with one more attempt, or until the spool is empty and all of it in the history and acknowledged |
| JmaController.Controller.IngestItem | jma_adapter/app/controller/controller.go:699-751 | Spool, then history, then core, then forget; unless a write fails the document has been spooled, is in the history and was put to core, which has it, or it is kept with one more attempt |
| JmaController.Controller.FetchAndIngestItem | jma_adapter/app/controller/controller.go:554-753 | The document is tried; unless a write fails, whatever was received, terminal refusals included, is spooled, in the history and put to core when it ends, and otherwise nothing has changed, so that it can be asked for again; at most one request, none after a failure |
| JmaController.Controller.ComputeExponentialBackoff | jma_adapter/app/controller/controller.go:755-769 | The floor after one error, doubled with each further one up to six times and six hours, plus jitter |
| JmaController.Controller.FailureDelay | jma_adapter/app/controller/controller.go:339-350 | The wait after a failure is Retry-After or the backoff, at least the floor, plus less than the jitter |
| JmaController.Controller.FilterNew | jma_adapter/app/controller/controller.go:392-398 | Exactly the entries that are neither spooled nor in the history, each once |
| JmaController.Controller.FetchDirectly | jma_adapter/app/controller/controller.go:412-417 | If core refuses the index every new item is tried, each requested at most once and nothing else, and validators and schedules stay |
| JmaController.Controller.ProcessFeed | jma_adapter/app/controller/controller.go:293-375 | A feed that is due is attempted, and asked for unless a pause runs; at most one poll, of this feed, besides documents at most once each; if none was sent the reason is one of those before sending; unless a write fails the outcome of the poll is on record when it ends; nothing happens after a failure |
| JmaController.Controller.PlanAttempt | jma_adapter/app/controller/controller.go:308-317 | The attempt is on record, with the floor as the planned minimum, before anything is sent, or the process stops |
| JmaController.Controller.AskFor | jma_adapter/app/controller/controller.go:324-453 | One request for the feed and what follows from its outcome; other feeds keep their schedules |
| JmaController.Controller.HandleFailure | jma_adapter/app/controller/controller.go:324-356 | A poll that failed gets its schedule written, the errors in a row counted and the wait exactly what was asked for or the backoff, at least the floor, plus jitter, unless the day's bytes were spent before it was sent or a write failed |
| JmaController.Controller.HandleResult | jma_adapter/app/controller/controller.go:357-453 | The outcome is put on record unless a write fails, with no errors in a row and the next poll after the floor or what the headers ask for, Retry-After only if the answer was taken; the validators change only if the document parsed and core took its index or all it lists is known |
| JmaController.Controller.HandleIndex | jma_adapter/app/controller/controller.go:392-453 | Core gets the index of what is new; if it refuses, the items are fetched directly and the validators stay |
| JmaController.Controller.DrainBatch | jma_adapter/app/controller/controller.go:502-542 | One batch tries every document seen for the first time that is not known, requests no other, and counts them; it stops early only for a pause, a failure or cancellation |
| JmaController.Controller.DrainPending | jma_adapter/app/controller/controller.go:455-552 | The drain ends whatever core answers over a finite set of documents, requests no document twice, has spooled whatever it received, and short of deadline, pause, failure and cancellation ends only when core names nothing that has not been tried or spooled |
| JmaController.Controller.PollCycle | jma_adapter/app/controller/controller.go:238-291 | Unless cut short, a cycle attempts every feed that is due and drains the queue of core; it keeps the log legal, and a latched process logs nothing |
| JmaController.Boot | jma_adapter/app/controller/controller.go:78-87 | Wherever a process stopped, also between a change in memory and its write, a new one over its disk is in order and not latched |
| JmaController.StopAfterPoll | jma_adapter/app/controller/controller.go:311-324 | A process stopped after a poll leaves it unrecorded; if the rate limiter held the request back it left later than planned, and the next process may poll from the planned instant plus the floor on |
| Polyline.RoundingKeepsTheVerdict | web/app/src/lib/chart/geometryTransport.ts:94-111 | Rounding a sum to the nearest double neither makes an unsafe integer safe nor changes a safe one |
| Polyline.RunBounded | web/app/src/lib/chart/geometryTransport.ts:65-115 | In every run of any string the accumulator is below 2^50, deltas are within 2^49 and coordinates are safe integers |
| Polyline.ChunkFits | web/app/src/lib/chart/geometryTransport.ts:78-86 | Below the multiplier limit a chunk never overflows the accumulator: its guard never fires |
| Polyline.AddChunk | web/app/src/lib/chart/geometryTransport.ts:75-86 | The accumulator computed with doubles is the exact sum; only the multiplier guard can refuse |
| Polyline.NextCoordinate | web/app/src/lib/chart/geometryTransport.ts:94-111 | The coordinate summed as doubles is the exact sum, or is refused exactly if that is unsafe |
| Polyline.DecodeRing | web/app/src/lib/chart/geometryTransport.ts:47-142 | The decoder on doubles gives for every string the ring or the first fault of the same computation on integers |
| Polyline.DecodeRings | web/app/src/lib/chart/geometryTransport.ts:162-170 | All rings in order, or the fault of the first that has one |
| Polyline.FirstFaultDecides | web/app/src/lib/chart/geometryTransport.ts:162-170 | The first faulty ring decides the polygon |
| Polyline.DecodePolygon | web/app/src/lib/chart/geometryTransport.ts:144-177 | Precision and emptiness are refused first, then the rings decide |
| Polyline.DecodeMultiPolygon | web/app/src/lib/chart/geometryTransport.ts:179-227 | Every polygon with all its rings, or the fault of the first polygon that is empty or has a faulty ring |
| PolylineRoundTrip.NatRuns | web/app/src/lib/chart/geometryTransport.ts:65-86 | Reading back five bits at a time: a number below 2^50 is delivered whole, a larger one is refused |
| PolylineRoundTrip.RingRuns | web/app/src/lib/chart/geometryTransport.ts:47-115 | The decoder follows the encoder to the end exactly if all deltas fit and all coordinates are safe, and is refused otherwise |
| PolylineRoundTrip.RoundTrip | web/app/src/lib/chart/geometryTransport.ts:47-142 | The rings that come back unchanged are exactly the closed ones of at least four points with deltas in [-2^49, 2^49) and safe coordinates |
| PolylineRoundTrip.AcceptedComesBack | web/app/src/lib/chart/geometryTransport.ts:47-142 | The ring of any accepted string, written anew, decodes to itself |
| PolylineRoundTrip.GlobeComesBack | web/app/src/lib/chart/geometryTransport.ts:56-115 | Rings within 180 and 90 degrees come back at every precision up to 9 |
| PolylineRoundTrip.DeltasAloneAreNotEnough | web/app/src/lib/chart/geometryTransport.ts:94-99 | A closed ring of in-range deltas that is refused because its coordinates add up beyond the safe integers |
| PolylineRoundTrip.LongWaysAreAccepted | web/app/src/lib/chart/geometryTransport.ts:71-89 | A delta written with a needless zero chunk decodes the same, so accepted strings need not be the encoder's |
| Earthquakes.BoundedFilter | web/app/src/lib/earthquakes/store.svelte.ts:25-35 | The window is always between 1 and 168 hours |
| Earthquakes.FilterFields | web/app/src/lib/earthquakes/store.svelte.ts:119-121 | Fields left out of a new filter stay, usable ones within bounds are taken over |
| Earthquakes.FilterIsMonotone | web/app/src/lib/earthquakes/store.svelte.ts:292-302 | A wider filter shows more, time alone only takes rows away, a deleted event is never shown |
| Earthquakes.FilterEdges | web/app/src/lib/earthquakes/store.svelte.ts:292-302 | An event is shown up to the millisecond it is as old as the window, at the threshold of magnitude, of unknown magnitude only without one, never deleted, and of another type only if all types are asked for |
| Earthquakes.NeverOlder | web/app/src/lib/earthquakes/store.svelte.ts:240-262 | No snapshot, fresh or cached, brings back a version older than one the stream has delivered |
| Earthquakes.NewestWins | web/app/src/lib/earthquakes/store.svelte.ts:240-262 | After the newest version came over the stream, any snapshot with an earlier baseline leaves it shown exactly when it passes the filter |
| Earthquakes.ForgettingIsHarmless | web/app/src/lib/earthquakes/store.svelte.ts:156-167 | An event older than 168 hours is not shown after any snapshot, whether the stream's memory of it was kept or trimmed |
| Earthquakes.StillRemembered | web/app/src/lib/earthquakes/store.svelte.ts:160-166 | Trimming leaves the newest delivery of every event that has not expired in memory |
| Earthquakes.OneMoreRemembered | web/app/src/lib/earthquakes/store.svelte.ts:349-353 | A stream event that is accepted is the newest of its key, or the event has expired |
| Earthquakes.SnapshotIsUpToDate | web/app/src/lib/earthquakes/store.svelte.ts:242-249 | A snapshot row that is merged is as new as all the stream delivered, or the filter drops it |
| Earthquakes.EarthquakeStore.Merge | web/app/src/lib/earthquakes/store.svelte.ts:316-325 | The newer version is taken and shown if the filter lets it; other rows stay |
| Earthquakes.EarthquakeStore.ApplySnapshot | web/app/src/lib/earthquakes/store.svelte.ts:240-262 | Row by row: merged from the snapshot, dropped if left out, overlaid by what the stream delivered after the baseline; what is shown then is stated by Earthquakes.SnapshotShows |
| Earthquakes.SnapshotShows | web/app/src/lib/earthquakes/store.svelte.ts:240-262 | After any snapshot an event is shown in the newest version of what was shown and what is listed, or of what was shown and what the stream delivered after the baseline, exactly if that passes the filter; not listed it is not shown; the one exception, an older version listed behind a refused newest, is stated exactly |
| Earthquakes.ListedOnceShows | web/app/src/lib/earthquakes/store.svelte.ts:242-249 | A body that lists an event once shows its newest version exactly if that passes the filter |
| Earthquakes.RefusedThenOlder | web/app/src/lib/earthquakes/store.svelte.ts:316-323 | A body that lists it twice can bring back an older version behind a refused newest one |
| Earthquakes.BodyShows | web/app/src/lib/earthquakes/store.svelte.ts:242-249 | Merging a body keeps the shown version if none listed is newer, and otherwise shows exactly a version that stays |
| Earthquakes.EarthquakeStore.Trim | web/app/src/lib/earthquakes/store.svelte.ts:156-167 | Exactly the rows the filter refuses go, and exactly the expired memory of the stream |
| Earthquakes.EarthquakeStore.HandleEvent | web/app/src/lib/earthquakes/store.svelte.ts:344-368 | A newer version enters the stream's memory and meets what is shown; a stale one changes nothing; nothing older is ever shown |
| Earthquakes.EarthquakeStore.LoadSnapshot | web/app/src/lib/earthquakes/store.svelte.ts:169-189 | A request captures the stream position of its start and is not doubled |
| Earthquakes.EarthquakeStore.FinishSnapshot | web/app/src/lib/earthquakes/store.svelte.ts:193-237 | An overtaken response changes nothing shown and no cache; a fresh body is cached and shown, each event in its newest version that passes; an unchanged snapshot is applied so with the baseline it had when cached; a broken one changes nothing shown |
| Earthquakes.EarthquakeStore.Remember | web/app/src/lib/earthquakes/store.svelte.ts:217-225 | The cache holds what was received; all others stay, in their order, but for the one least recently renewed if there would be more than 16 |
| Earthquakes.EarthquakeStore.SetFilter | web/app/src/lib/earthquakes/store.svelte.ts:119-125 | The new filter is bounded and applied at once, older requests are overtaken, and a new one leaves |
| Earthquakes.EarthquakeStore.HandleOpen | web/app/src/lib/earthquakes/store.svelte.ts:385-393 | A snapshot on its way from before a reconnect no longer counts |
| Earthquakes.EarthquakeStore.Disconnect | web/app/src/lib/earthquakes/store.svelte.ts:127-139 | Requests on their way are overtaken |
| HostLimiter.Politeness | cap_adapter/app/adapter/limiter.go:74-113 | Under any interleaving, cancellations included: one request in flight per host, at most the limit in all, and each start at least the interval after every earlier end on its host |
| HostLimiter.DoneFindsItsSlots | cap_adapter/app/adapter/limiter.go:115-135 | Neither default of Done is ever taken, and a cancelled wait gives back the host slot it held |
| HostLimiter.NothingLeaks | cap_adapter/app/adapter/limiter.go:74-135 | When nobody waits or requests, every slot is free |
| HostLimiter.NoDeadlock | cap_adapter/app/adapter/limiter.go:74-135 | While anyone waits or requests, some caller can move on after some time without a cancellation |
| HostLimiter.HostSlotsStep | cap_adapter/app/adapter/limiter.go:79-109 | Every step keeps a host's slot taken exactly when one caller has it |
| HostLimiter.GlobalSlotsStep | cap_adapter/app/adapter/limiter.go:104-123 | Every step keeps as many global slots taken as requests are in flight |
| HostLimiter.SpacedStep | cap_adapter/app/adapter/limiter.go:86-102 | Every step keeps a caller past its check rested since the last end on its host |
| Dedup.Cache.CheckOrAdd | wis2_adapter/app/dedup/dedup.go:34-65 | A call is a duplicate exactly if an earlier admitted call shares its notification or data id within that id's time to live |
| Dedup.Cache.Cleanup | wis2_adapter/app/dedup/dedup.go:67-82 | Sweeping keeps every answer |
| Dedup.MapIsHistory | wis2_adapter/app/dedup/dedup.go:42-52 | The expiry map and a search through the whole history agree on every id |
| Dedup.SweptIsHistory | wis2_adapter/app/dedup/dedup.go:67-82 | A map without expired entries answers as before |
| Dedup.OneMoreAdmitted | wis2_adapter/app/dedup/dedup.go:58-63 | Writing the expiry of an admitted call keeps the map in step with the history |
| Dedup.Sweep | wis2_adapter/app/dedup/dedup.go:69-73 | Exactly the entries that have expired go |
| LiveDelivery.RunBatcher | emsc_adapter/app/adapter/batch.go:19-65 | It is done exactly at the first input that closes or cancels, with the buffer flushed; while flushes get through, batches and buffer are what was received, in order; the timer empties the buffer, and a batch cut neither by it nor by the end is full |
| LiveDelivery.ReceivedInPlace | emsc_adapter/app/adapter/batch.go:41-56 | Every message is received once, between what came before it and what comes after |
| LiveDelivery.SendLive | emsc_adapter/app/controller/controller.go:177-198 | The accepted batches are the first ones, exactly one for each attempt that succeeds before one gives up, until all are sent, and the high-water mark covers exactly what was accepted |
| LiveDelivery.RunLive | emsc_adapter/app/controller/controller.go:160-201 | What core accepted is a prefix of what was received, one batch for each attempt that succeeds, and all of it exactly if the input has ended and enough attempts succeed |
| LiveDelivery.RunFDSNSync | emsc_adapter/app/controller/controller.go:105-158 | Accepted pages tile the result list from offset 1 without gap or overlap, exactly one for each attempt that succeeds before one gives up, until the first page that is not full ends the sync with the whole list |
| LiveDelivery.AttemptsAfter | emsc_adapter/app/controller/controller.go:125-144 | Once an attempt has given up none counts any more, and before every further one can only add |
| LiveDelivery.OnePageMore | emsc_adapter/app/controller/controller.go:147-156 | The page at the next offset continues the list, and a short page ends it |
| LiveDelivery.MaxLastUpdate | emsc_adapter/app/controller/controller.go:183-185 | The high-water mark becomes the latest update among the accepted messages |
| LiveDelivery.LatestAppend | emsc_adapter/app/controller/controller.go:148-150 | Raising the mark batch by batch is raising it over all messages at once |
| LiveDelivery.LatestIsLargest | emsc_adapter/app/controller/controller.go:148-150 | The mark is the largest update among all messages and the start |

## Left out

- Numbers are kept as an exact integer and a decimal scale; the conversion to a floating-point value and the 64-bit overflow of a reference times a power of ten (operator 207) are not part of this model.
- Operators 203, 204, 206 and 237 are modelled in both decoders, but the equivalence leaves them out: the compressed decoder skips no associated fields and has no presence bits.
- Loading of Tables B and D; entries have a non-negative width.
- BufrMessages.Decode: error texts, and the check for messages over 16 MiB, which a 24-bit length cannot reach.
- BufrTruncation.TruncationIsGraceful: templates with delayed replication, where a cut changes how often a block repeats; and further subsets, because each subset of row-wise data starts anew where the cursor stands, so one after the cut may read bits that were left in front of it.
- JMA: HTTP, XML and JSON, URL allowlists, quarantine of corrupted spool files, torn history lines, and collisions of the spool key. Core is a nondeterministic acknowledger.
- JmaClient.Receive: a reply is taken to cost no more than was reserved for it; the code does not enforce that for compressed bodies on the wire or for error bodies of a very small limit.
- JmaController.Controller.PollCycle: the endless loop around cycles and its sleep; a run is any sequence of cycles, crashes and starts.
- Polyline.DecodeRing: the division by the power of ten. Closedness is decided on quantised coordinates, which for coordinates on the globe is the same as on the quotients.
- Polyline: values of the wrong JavaScript type, and geometry that is not encoded.
- Earthquakes: blink states and timers, sources, the watchdog and the raw listeners. `new` and `update` events differ only in these, and are one handler here. Requests before an address is set are not modelled; addresses are told apart by their filter.
- HostLimiter: the map that creates host states on first use and the mutexes around single reads and writes; steps are atomic where the original holds a lock.
- LiveDelivery.RunLive: batcher and sender run one after the other; they are connected by a channel only, so that order does not show in what is delivered.
- LiveDelivery: backoff delays and the reconnect loop with its lookback window.
