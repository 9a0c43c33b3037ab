# Verified models of the node

This project models four parts of a Lightning chat node in Dafny and proves what they are for.

* **QR symbols** (`public/js/qrious.js`): arithmetic in GF(256) by tables, the Reed-Solomon generator and
  its in-place division, the bit stream, the block table, interleaving, the function patterns, the zigzag walk,
  the eight masks and the choice among them. Each in-place pass is a method over arrays, proved against a short
  definition; the passes compose to `QrFrame.CreateSymbol`: for every value and level, whoever reads the finished
  symbol learns level, pattern and value from it. The requirements are those of sections 7.4.5, 7.4.9, 7.4.10,
  7.5.2, 7.6, 7.7.3, 7.8.2, 7.9 and 7.10 of ISO/IEC 18004:2015. What the error-correction bits are for is proved of
  blocks, of the format and version words, and of whole symbols (`Correcting.SymbolCorrectable`).
* **The wire**: a signed text is cut into numbered chunks, paid for chunk by chunk, woven together by the
  receiver in any order and with repetitions, and split at its last brace. Around it are the codecs: zbase32,
  URL-safe base64, UTF-8, data access tokens, block-wise RSA, signed time stamps and short channel ids.
* **Tribe owners**: escrow rows and their timeouts, the broadcast that pays one contact, the split of an
  incoming payment, the leaderboard. Runs are sequences of steps; the laws hold over all of them.
* **Jobs and caches**: cron jobs of subscriptions, the merge of database and cache, reconnecting.

State that the code changes step by step is a class whose methods are tied to a function on states
(`View() == Apply(old(View()), ...)`); the laws over runs are lemmas about that function. Code that only
computes is a function. Each method of the QR encoder is tied directly to the property it is for.

## Assumptions

* A timeout does not fire before its time, one longer than 2^31 - 1 ms or shorter than 1 ms is set to 1 ms as
  Node.js does, and the clock does not go back behind the time escrow was added.
* Each step of a state machine is atomic: a callback that awaits the database or a payment finishes before
  the next step. Whether a payment, an attempt or a send goes through is a parameter.
* A cipher inverts on blocks of at most 245 bytes and yields 256 bytes; signing and verifying are parameters;
  so is JSON parsing, and no chunk parses as an unencrypted keysend payload. In tokens JSON parsing is taken
  to give back what was printed.
* Texts are sequences of Unicode characters: lone surrogates do not occur.
* Contexts drawn for reconnecting are fresh. Messages told apart by uuid, chat, sender and number are assumed
  where a lemma requires `Apart`, and nowhere else.
* The penalty of a mask is an abstract number for each matrix.
* `parseInt` rounds exactly; ECMA-262 leaves digits from the 21st on to the implementation.

## Where the code differs from what one would expect

* A mask of penalty 30000 or more is never chosen over pattern 0 (`Finishing.ChosenIsLeast`,
  `Finishing.NotAlwaysLeast`).
* Escrow is held for rejected messages as well (`Ledger.NeverGivesMore`).
* A timeout in the second stage of a restart cannot be cancelled (`TimerCancel.CancelledUnlessSecondStage`).
* Escrow with a delay of more than 2^31 - 1 ms can be paid back after a millisecond (`TimerTimes.EarlyInRuns`).
* A tribe payment whose payee has left ends without any callback (`Payees.AbsentPayee`, `Payees.CallbackRuns`).
* Escrow that is cancelled stays with the owner (`Ledger.Conservation`, `Ledger.NoEscrowKept`).
* Repaid escrow below the minimum costs the minimum (`Ledger.Conservation`), and counts as earned by its
  receiver (`Leaderboard.EscrowIsEarned`).
* A subscription made before initialisation gets two jobs (`SubscriptionRuns.InitializeKeepsOrder`,
  `SubscriptionJobs.TwoJobs`), an ended one that is edited loses its job in a crash
  (`SubscriptionPayments.CrashRecovers`, `SubscriptionJobs.EditedIsLost`), a request to delete the subscription
  of another tenant stops its job (`SubscriptionJobs.JobsRun`), and the first payment ignores the end date
  (`SubscriptionPayments.PaidPastTheEnd`).
* Text whose characters are cut by the borders of cipher blocks comes back longer (`Rsa.ComesBack`).
* A time stamp whose text was signed is verified as if its bytes had been (`SignedTimestamps.VerifyGenerated`).
* The expiry of a token loses a digit when it has an odd number of them (`Ldat.ExpirySurvives`), a text value
  that begins with a number is read as that number, and a number of 22 digits or more as its first digit
  (`Meta.ValueComesBack`, `Meta.LargeNumber`).
* Block heights from 2^23 on are misprinted, although ids come back (`ShortChannelIds.HeightIs`).
* Verifying a signature does not decide whether a payload is handed on (`Payloads.HandedOnIfAttributed`,
  `Payloads.ForgedIsHandedOn`).
* Messages of the database that repeat a uuid, or have none, are dropped (`MessageCache.DatabaseIsKept`).
* A stream that ends without starting over leaves the node without a stream (`ReconnectRuns.NeverStuck`,
  `ReconnectRuns.StuckHappens`).
* One stream that ends with two events leads to two open streams (`Reconnect.OneStream`, `Reconnect.TwoStreams`).

## Model

| member | source | states |
|---|---|---|
| Galois.ModN | public/js/qrious.js:681-684 | folding high bits into low ones ends below 255 with the same remainder modulo 255 |
| Galois.EveryUnitIsAPower | public/js/qrious.js:171-208 | the 255 nonzero bytes are exactly the powers of alpha, so every nonzero byte has a logarithm |
| Galois.MulDistributes | public/js/qrious.js:292-294 | multiplication through the tables distributes over exclusive or: the bytes form GF(256) |
| Galois.MulAssociates | public/js/qrious.js:292-294 | multiplication through the tables is associative |
| Galois.MulNonzero | public/js/qrious.js:292-294 | a product is zero exactly if a factor is |
| Galois.LookupLog | public/js/qrious.js:190-208 | the LOG table is the inverse of the powers of alpha, with 255 for zero |
| ReedSolomon.GeneratorRoots | public/js/qrious.js:375-388 | the generator vanishes at alpha^t for every t below its degree |
| BlockCode.PowersIndependent | public/js/qrious.js:375-388 | a sum of at most n distinct powers that vanishes at n consecutive powers of alpha has no nonzero coefficient |
| BlockCode.LightCodewordIsZero | public/js/qrious.js:282-296 | a codeword with at most n nonzero bytes is zero |
| BlockCode.MinimumDistance | public/js/qrious.js:282-296 | two different codewords of a block differ in more than n places |
| BlockCode.ErrorsCorrectable | public/js/qrious.js:282-296 | at most one codeword is within n/2 errors of a received word: what the error-correction codewords are for |
| BlockCode.GeneratorHasNoZero | public/js/qrious.js:375-388 | no coefficient of the generator is zero, so taking logarithms of all of them is sound |
| BlockCode.Division | public/js/qrious.js:282-296 | data times x^n plus the shift register is a multiple of the generator, for all data and every length |
| BlockCode.RegisterMakesCodeword | public/js/qrious.js:282-296 | data followed by the register is divisible by the product of (x + alpha^t) |
| BlockCode.ParityIsUnique | public/js/qrious.js:282-296 | n bytes behind the data make a codeword if and only if they are the register |
| ErrorCorrection.MultiplyByRoot | public/js/qrious.js:380-386 | one turn of the in-place loop multiplies the polynomial by (x + alpha^t) |
| ErrorCorrection.TakeLogs | public/js/qrious.js:387 | the array ends as the logarithms of the coefficients |
| ErrorCorrection.AppendData | public/js/qrious.js:282-296 | the in-place shift register leaves behind the data the remainder of the division, and nothing else changes |
| QrFrame.Frame.CalculatePolynomial | public/js/qrious.js:375-388 | the polynomial field holds the logarithms of the generator of degree eccBlock |
| SymbolData.AppendEccToData | public/js/qrious.js:297-307 | every block gets its own remainder, and the data stay |
| QrFrame.Frame.AppendEccToData | public/js/qrious.js:297-307 | the same on the buffers of the frame |
| BlockLayout.LayoutOf | public/js/qrious.js:127-162 | the block table of all 160 symbols: each row fills the data modules of its version, its blocks are short enough for GF(256), and the codewords that can be corrected are the share of its level: 7, 15, 23 and 30 percent at least, less than the next at most |
| BlockLayout.LevelsFall | public/js/qrious.js:127-162 | a higher level leaves less room for data, for every version |
| QrFrame.ChooseVersion | public/js/qrious.js:232-246 | the least version whose room is enough, or 40 |
| QrFrame.Frame.constructor | public/js/qrious.js:217-250 | version, block layout and buffers of a new frame |
| BitStream.CodewordBits | public/js/qrious.js:430-450 | the codewords read as bits are mode 0100, the 8- or 16-bit count, the bytes, a zero nibble and the pad bytes 236 and 17 in turn |
| BitStream.DecodeCodewords | public/js/qrious.js:430-450 | reading mode, count and bytes back gives the value |
| SymbolData.MoveNibbles | public/js/qrious.js:439-446 | the backward loop moves the bytes up by a nibble in place |
| SymbolData.WritePadding | public/js/qrious.js:449 | the padding alternates up to the capacity and one byte beyond |
| SymbolData.ConvertBitStream | public/js/qrious.js:430-450 | the whole in-place pass yields exactly those codewords, for long and short versions and truncated values |
| QrFrame.Frame.ConvertBitStream | public/js/qrious.js:430-450 | the same on the fields of the frame |
| Interleaving.SourceOnto | public/js/qrious.js:496-515 | every data and error-correction codeword gets a place in the symbol |
| Interleaving.SourceInjective | public/js/qrious.js:496-515 | no two places hold the same codeword |
| Interleaving.InterleavedInjective | public/js/qrious.js:496-515 | two codeword sequences that interleave to the same are the same |
| Correcting.BlockInData | public/js/qrious.js:496-515 | the blocks take the data codewords in order, the shorter blocks first |
| Correcting.BlockInSymbol | public/js/qrious.js:496-515 | where in the symbol each codeword of each block is |
| SymbolData.InterleaveBlocks | public/js/qrious.js:496-515 | the nested loops compute that permutation |
| QrFrame.Frame.InterleaveBlocks | public/js/qrious.js:496-515 | the string buffer becomes the interleaved codewords |
| MaskPattern.MaskBitInjective | public/js/qrious.js:671-680 | the triangular index is the same for two pairs exactly if they are equal or mirrored |
| MaskPattern.MaskBitInBounds | public/js/qrious.js:671-680 | the index is inside the mask array |
| Drawing.SetMask | public/js/qrious.js:651-654 | marks a module and its mirror image and no other |
| Drawing.InsertFinder | public/js/qrious.js:541-566 | exactly the frame and the core of a finder get dark, exactly its light ring is reserved |
| Drawing.AddAlignment | public/js/qrious.js:267-281 | exactly the frame and centre of an alignment pattern get dark, exactly its light ring is reserved |
| Drawing.SpacingFits | public/js/qrious.js:120-124 | the table of distances ends the loops at the coordinate nearest to column 6, for all versions |
| Drawing.InsertAlignments | public/js/qrious.js:516-533 | the nested loops with their breaks draw exactly the patterns of the grid of centres, on column 6 and row 6 too, the finders excepted |
| Drawing.InsertTimingGap | public/js/qrious.js:568-580 | exactly the separators of the finders are reserved |
| Drawing.ReverseMask | public/js/qrious.js:642-650 | exactly the modules of the format information are reserved |
| Drawing.InsertTimingRowAndColumn | public/js/qrious.js:581-589 | dark and light timing modules in turn, on row and column |
| Drawing.InsertVersion | public/js/qrious.js:590-606 | the eighteen bits of the version information at both their places, dark or reserved |
| Drawing.SyncMask | public/js/qrious.js:655-662 | every dark module on or below the diagonal is reserved |
| FunctionPatterns.Draw | public/js/qrious.js:251-258 | after all drawing routines exactly the modules of the patterns are dark and exactly the reserved ones are in the mask |
| FunctionPatterns.DarkIsReserved | public/js/qrious.js:655-662 | every dark module is reserved, those above the diagonal through their mirror images |
| FunctionPatterns.ReservedIs | public/js/qrious.js:251-258 | exactly the places of function patterns are reserved |
| FunctionPatterns.Rings | public/js/qrious.js:541-566 | finders and alignment patterns as rings around their centres |
| ModuleCount.ModulesLeft | public/js/qrious.js:127-162 | for every version the patterns leave exactly the modules the block table reckons with |
| DrawnPatterns.PatternsDrawn | public/js/qrious.js:251-258 | what packing, masking and formatting need of the drawn patterns |
| DrawnPatterns.VersionShown | public/js/qrious.js:590-606 | the version information is dark where a bit of the version word is set, at both its places |
| DrawnPatterns.TimingShown | public/js/qrious.js:581-589 | timing patterns are dark at even places and, alignment patterns apart, light at odd ones |
| QrFrame.Frame.DrawPatterns | public/js/qrious.js:251-258 | the same on the fields of the frame |
| Masking.ApplyMask | public/js/qrious.js:308-368 | the running counters flip exactly the unmasked modules given by the formula of the pattern, for all eight patterns |
| MaskPattern.MaskedTwice | public/js/qrious.js:308-368 | applying a pattern twice changes nothing |
| MaskPattern.Pictures | public/js/qrious.js:308-368 | the eight masks as chessboard, rows, columns and diagonals |
| Zigzag.RankInjective | public/js/qrious.js:627-639 | a place of the walk is determined by its rank |
| Zigzag.WalkBegins | public/js/qrious.js:611-626 | the walk begins at the lower right module |
| Zigzag.WalkGoesOn | public/js/qrious.js:627-639 | it goes up and down pairs of columns, right module first, and leaves out column 6 |
| Packing.Move | public/js/qrious.js:628-638 | one step of the walk with its flags is the next place by rank, jumps over column 6 included |
| Packing.NextModule | public/js/qrious.js:627-639 | the inner loop ends at the next module that is not masked |
| Packing.Pack | public/js/qrious.js:611-641 | the walk ends, writes no masked module and none twice, and leaves bit k in the k-th free module |
| QrFrame.Frame.Pack | public/js/qrious.js:611-641 | the same on the fields of the frame |
| Zigzag.ReadPacked | public/js/qrious.js:611-641 | walking the symbol again reads the packed bits |
| Finishing.SearchMask | public/js/qrious.js:468-484 | the search with its early exit leaves the matrix with one mask applied once: the first of least penalty, or pattern 0 when none is below 30000 |
| Finishing.ChosenIsLeast | public/js/qrious.js:468-484 | the chosen mask has the least penalty of all if and only if pattern 0 has least penalty, or some penalty is below 30000 |
| Finishing.NotAlwaysLeast | public/js/qrious.js:468-484 | penalties at which the chosen mask is not least exist whenever patterns 0 and 1 treat some free module differently |
| Finishing.WriteFormat | public/js/qrious.js:484-494 | the fifteen format bits are written at both their places and nothing is cleared |
| Finishing.FormatPath | public/js/qrious.js:484-494 | the path of each copy of the format bits, from end to end |
| QrFrame.Frame.Finish | public/js/qrious.js:468-495 | the final matrix is the masked one with the format information of its pattern |
| FormatReading.FormatShown | public/js/qrious.js:484-494 | the finished symbol shows exactly the format word, packing and masking having left its modules alone |
| FormatReading.ReservedIsKept | public/js/qrious.js:484-494 | packing, masking and formatting leave every reserved module as it was drawn, but for the set bits of the format word |
| DrawnPatterns.PatternsRemain | public/js/qrious.js:251-264 | so in the finished symbol a reserved module is dark exactly if it belongs to a pattern or to a set bit of the format |
| FormatReading.FormatTells | public/js/qrious.js:163-167 | a symbol shows the format information of one level and pattern only |
| Reading.UnmaskedAgrees | public/js/qrious.js:468-495 | removing the mask from the finished symbol gives the packed one on all data modules |
| Reading.FinishedCarries | public/js/qrious.js:255-264 | interleaving, packing, masking and formatting together carry the codewords |
| Reading.ReadingIsUnique | public/js/qrious.js:259-264 | a finished symbol carries one value only |
| FormatReading.SymbolTells | public/js/qrious.js:259-264 | a symbol of a version tells level, mask pattern and value by itself |
| QrFrame.Frame.Encode | public/js/qrious.js:259-264 | after all passes the symbol, read with its pattern, gives back the value (or the part a version 40 symbol keeps), every block being a codeword, and shows the format of that pattern |
| QrFrame.CreateSymbol | public/js/qrious.js:217-265 | for every value, level and penalty: the least version with room, a symbol that carries the value and shows its format, whose reserved modules are dark exactly where a pattern or a set bit of the format is, and whose blocks can correct the share of that level |
| QrFrame.KeptPrefix | public/js/qrious.js:425-450 | the part a version 40 symbol keeps is the value, or its first bytes up to three below the capacity |
| Correcting.ValueCorrectable | public/js/qrious.js:282-307 | a received symbol in which at most half as many codewords of each block are wrong as it has for error correction has one possible value |
| InformationWords.FormatsApart | public/js/qrious.js:163-167 | the format words of different levels or patterns differ in at least seven bits |
| InformationWords.FormatFields | public/js/qrious.js:163-167 | a format word is level, pattern and their remainder, masked |
| InformationWords.VersionsApart | public/js/qrious.js:212-214 | the version words of different versions differ in at least eight bits |
| InformationWords.FormatCorrectable | public/js/qrious.js:163-167 | a format word with at most three wrong bits tells level and pattern |
| InformationWords.VersionCorrectable | public/js/qrious.js:212-214 | version information with at most three wrong bits tells the version |
| Correcting.SymbolCorrectable | public/js/qrious.js:259-307 | a received symbol with at most three wrong modules in one copy of its format information and at most half as many wrong codewords in each block as it has for error correction has one level, one mask pattern and one value |
| InformationWords.DrawnBit | public/js/qrious.js:590-606 | the bits that are drawn are those of the version word |
| InformationWords.VersionPlaces | public/js/qrious.js:590-606 | the place of each bit of the version information |
| Weave.BodyWithinLimit | src/grpc/lightning.ts:555-563 | no chunk body is longer than 972 characters |
| Weave.ChunksAreFew | src/grpc/lightning.ts:555-563 | there are no more chunks than the limit asks for |
| Weave.BodiesJoin | src/grpc/lightning.ts:555-563 | the chunk bodies are the message cut into pieces |
| Weave.ParsePacketInverts | src/network/receive.ts:731-736 | time stamp, number, count and body are recovered, underscores in the body included |
| Weave.PacketFields | src/network/receive.ts:731-736 | a packet is time stamp, number, count and body, in this order |
| Weave.PacketStartsWithDigit | src/network/receive.ts:710-720 | a chunk is never taken for a plain JSON message |
| Weave.SortAscending | src/network/receive.ts:742-747 | sorting puts numbered chunks into strictly ascending order |
| Weave.AscendingUnique | src/network/receive.ts:742-747 | there is one such order of a set of chunks |
| Weave.Isolation | src/network/receive.ts:730-751 | what is stored and returned for one time stamp does not depend on packets of others |
| Weave.Reassembly | src/network/receive.ts:730-751 | for every order of arrival and every interleaving the message is returned once, at its last chunk, and no entry is left |
| Weave.Incomplete | src/network/receive.ts:730-751 | while a chunk is missing nothing is returned, and the chunks that came stay in the store |
| Keysend.KeysendMessage | src/grpc/lightning.ts:529-587 | the payments tried, their amounts and chunks, and success exactly if all go through |
| Keysend.TotalPaid | src/grpc/lightning.ts:555-575 | a message in n parts costs the amount once and the minimum n - 1 times |
| Keysend.AmountsAre | src/grpc/lightning.ts:561-575 | the amount is paid with the last chunk, the minimum with each of the others |
| Receiver.Node.WeaveChunk | src/network/receive.ts:730-752 | the map of chunks after one packet, and the text it completes |
| Receiver.Node.ParseKeysendInvoice | src/network/receive.ts:632-728 | a known hash is ignored, a plain message handed on, a chunk woven; a text handed on is parsed and verified |
| Receiver.ArrivalIs | src/network/receive.ts:632-728 | what an invoice leads to, case by case |
| Receiver.Follows | src/network/receive.ts:632-728 | the run of the node is the run of the store over the packets that get through |
| Delivery.ExactlyOnce | src/network/receive.ts:632-751 | however the payments of a long message are reordered, repeated and mixed with other invoices, its text is handed on exactly once and no chunk is kept |
| Payloads.SignatureSplitsOff | src/network/receive.ts:561-566 | the split at the last brace gives back the JSON object and its signature |
| Payloads.WhoIsAsked | src/network/receive.ts:567-580 | who is asked about a signature of which length, about what text, with which key |
| Payloads.HandedOnIfAttributed | src/network/receive.ts:561-592 | whatever the verifiers answer or throw, a text is handed on if and only if it parses to a payload that names its sender |
| Payloads.ForgedIsHandedOn | src/network/receive.ts:574-582 | a payload whose signature is asked about and rejected, and which is handed on |
| Delivery.SignedTextArrives | src/network/receive.ts:560-728 | a signed text sent in chunks arrives exactly once, comes apart into the same object and signature, and is taken once if and only if it names its sender |
| Delivery.ShortMessage | src/grpc/lightning.ts:540-548 | a text below the limit is one payment and is handed on as it is |
| Grouping.GroupComesBack | src/utils/zbase32.ts:11-24 | a group of bytes regrouped into digits and back is the same, partial groups included |
| Grouping.DigitsComeBack | src/utils/zbase32.ts:32-49 | a group of digits comes back exactly if it has the length of a group of bytes and no spare bit is set |
| Zbase32.EncodeBuffer | src/utils/zbase32.ts:8-27 | the loops over groups and digits compute the encoding |
| Zbase32.LettersAre | src/utils/zbase32.ts:3-7 | the alphabet |
| Zbase32.OnesAre | src/utils/zbase32.ts:8-27 | a byte of ones is encoded high bits first, padded with zeros |
| Zbase32.DecodeGroup | src/utils/zbase32.ts:34-47 | one group of letters, or an exception for an unknown letter or a single one |
| Zbase32.DecodeString | src/utils/zbase32.ts:29-52 | the loop over groups computes the decoding, exceptions included |
| Zbase32.DecodeEncode | src/utils/zbase32.ts:8-52 | decoding an encoding gives back the bytes, for every byte string |
| Zbase32.EncodeDecode | src/utils/zbase32.ts:8-52 | a text is the encoding of what it decodes to if and only if it has only letters of the alphabet, the length of an encoding and no spare bit set |
| Zbase32.WholeGroupsReturn | src/utils/zbase32.ts:8-52 | every alphabet text whose length is a multiple of eight comes back |
| Base64.FromUrl | src/utils/ldat.ts:225-233 | the URL-safe form of a buffer reads back to it |
| Base64.UrlIsSafe | src/utils/ldat.ts:225-227 | it consists of letters, digits, dash, underscore and padding, so a dot separates terms |
| Base64.LettersAre | src/utils/ldat.ts:225-233 | the alphabet, and the letters replaced in a URL |
| Base64.VectorF | src/utils/ldat.ts:225-227 | the first test vector of section 10 of RFC 4648 |
| Hex.BytesOfNumber | src/utils/ldat.ts:76 | the bytes of a number in hexadecimal have its value, or a sixteenth of it when the number of digits is odd |
| Hex.LettersAre | src/utils/ldat.ts:76 | the digits |
| Hex.FromToHex | src/utils/ldat.ts:106 | a printed buffer reads back |
| SignedTimestamps.VerifyGenerated | src/utils/tribes.ts:691-724 | verifying a generated text asks the node about exactly the four bytes of the stamp with exactly the signature it gave; these are what was signed if and only if the node does not sign texts |
| Percent.DecodeEncode | src/utils/ldat.ts:196-213 | percent-encoding of text is undone by decoding |
| Percent.MarksAreEscaped | src/utils/ldat.ts:200 | what marks the parts of a section is escaped |
| Numbers.FewestDigits | src/utils/ldat.ts:200 | a number is printed with the fewest digits of all decimals that are read as it |
| Numbers.LeadingOfShown | src/utils/ldat.ts:219 | an integer, rounded to 53 bits as it is read, is read back from its printed form if and only if it is less than 10^21; from there on it is printed with an exponent and read as one digit |
| Meta.SerializeMeta | src/utils/ldat.ts:196-205 | the loop builds the sorted, joined pieces |
| Meta.SortSorts | src/utils/ldat.ts:203 | the pieces are in ascending order |
| Meta.DeserializeMeta | src/utils/ldat.ts:207-223 | the loop collects the fields, exceptions included |
| Meta.PieceReads | src/utils/ldat.ts:196-223 | one key and value is read back, the value percent-encoded in between |
| Meta.DeserializeSerialize | src/utils/ldat.ts:196-223 | reading a section gives exactly the keys written, each with its value as it is read |
| Meta.NumbersComeBack | src/utils/ldat.ts:196-223 | a section of unreserved keys and nonzero integers below 10^21 comes back as it was written |
| Meta.ValueComesBack | src/utils/ldat.ts:219 | a value is read as it was written if and only if it is a nonzero integer below 10^21 or a text that does not begin with a nonzero integer; values of other kinds never are |
| Meta.NoBreakSpace | src/utils/ldat.ts:219 | a text of a no-break space and a number, which is read as the number |
| Meta.LargeNumber | src/utils/ldat.ts:219 | 10^21 is read as 1 |
| Meta.DimensionsAreLost | src/utils/ldat.ts:219 | the dimensions the repository puts into a token are read as their first number |
| Ascii.ComesBack | src/utils/ldat.ts:73-86 | a text put into a token as ascii comes back if and only if it is ASCII |
| Ldat.ParseStart | src/utils/ldat.ts:65-132 | parsing the terms of a token gives back host, media id, key, expiry and section |
| Ldat.TermsAre | src/utils/ldat.ts:65-91 | a token is host, media id, key, expiry and section, in this order |
| Ldat.ParseSigned | src/utils/ldat.ts:95-132 | the same with the signature term |
| Ldat.ExpirySurvives | src/utils/ldat.ts:76 | the expiry survives if and only if its hexadecimal form has an even number of digits |
| Ldat.SameFieldsComeBack | src/utils/ldat.ts:65-132 | a token with all its fields, a section of nonzero integers below 10^21 and an expiry of an even number of digits comes back with the same fields |
| Rsa.Encrypt | src/crypto/rsa.ts:11-31 | the loop over blocks of 245 bytes, and the empty text on an exception |
| Rsa.Decrypt | src/crypto/rsa.ts:33-53 | the loop over blocks of 256 bytes, and the empty text on an exception |
| Utf8.DecodeBytes | src/crypto/rsa.ts:46 | text comes back from its bytes |
| Utf8.Examples | src/crypto/rsa.ts:46 | a letter of each length |
| Utf8.PartLength | src/crypto/rsa.ts:46 | a part of the bytes of a text is read as one character for each that begins in it and one more for each continuation byte at its front |
| Rsa.DecryptEncrypt | src/crypto/rsa.ts:11-53 | what is decrypted is the text read block by block, given a block cipher that inverts |
| Rsa.ComesBack | src/crypto/rsa.ts:11-53 | a text of any length comes back if and only if no border between two blocks cuts a character; otherwise it comes back longer |
| Rsa.CutHappens | src/crypto/rsa.ts:46 | a text of 245 characters that comes back longer |
| Rsa.SmallCharactersComeBack | src/crypto/rsa.ts:11-53 | a text of ASCII characters always comes back |
| GroupMessages.RecipientReads | src/utils/msg.ts:51-192 | text and media key under the group key, decrypted and personalised by the owner, are for every recipient the same text and key, if and only if no border between blocks cuts a character |
| GroupMessages.EachGetsItsOwn | src/utils/msg.ts:51-192 | outside tribes every recipient gets text and key under its own name, in tribes those of the group |
| ShortChannelIds.ComposeFields | src/grpc/interfaces.ts:730-759 | block height, transaction and output put together again are the id, although the shift keeps the sign bit |
| ShortChannelIds.Example | src/grpc/interfaces.ts:730-739 | an id taken apart into block, transaction and output |
| ShortChannelIds.HeightIs | src/grpc/interfaces.ts:732 | the printed block height is right if and only if it is below 2^23 |
| ShortChannelIds.ShortChanIdToInt64 | src/grpc/interfaces.ts:741-759 | the separator loop, malformed ids and exceptions |
| ShortChannelIds.IdComesBack | src/grpc/interfaces.ts:730-759 | every 64-bit id comes back from its printed form |
| Timers.Node.AddTimer | src/utils/timers.ts:31-54 | a row is created and armed, or paid back at once when it is due |
| Timers.Node.SetNamedTimer | src/utils/timers.ts:55-63 | fires at once when the time has passed, otherwise stores the handle under the name |
| Timers.Node.ClearTimers | src/utils/timers.ts:7-29 | clears the timeouts stored under the names of the rows |
| Timers.Node.RemoveTimerByMsgId | src/utils/timers.ts:11-15 | clears the first row of a message and destroys all its rows |
| Timers.Node.RemoveTimersByContactId | src/utils/timers.ts:16-22 | clears and destroys the rows of a receiver |
| Timers.Node.RemoveTimersByContactIdChatId | src/utils/timers.ts:23-29 | clears and destroys the rows of a receiver in a chat |
| Timers.Node.ReloadTimers | src/utils/timers.ts:69-80 | after a restart every row gets a named first-stage timeout, or a nameless second-stage one when it is due |
| Timers.Node.PayBackRow | src/utils/timers.ts:81-123 | pays if the chat exists, and destroys the row in any case |
| Timers.Node.FireTimeout | src/utils/timers.ts:51-80 | a timeout fires: payment, or the second stage |
| TimerTimes.AddWaits | src/utils/timers.ts:31-63 | escrow with a delay is not paid back at once: a timeout for its row is set, due after the delay, or after a millisecond when that is longer than 2^31 - 1 ms |
| TimerTimes.AddPaysAtOnce | src/utils/timers.ts:55-63 | escrow with a negative delay is paid back at once if and only if its chat exists, and leaves no row and no timeout |
| TimerTimes.FireWaits | src/utils/timers.ts:60-62 | a timeout that is not due does nothing |
| TimerTimes.FirePays | src/utils/timers.ts:81-123 | a timeout that is due pays its row back once if and only if the chat exists |
| TimerTimes.FireStaggers | src/utils/timers.ts:72-78 | the first stage after a restart sets a second one and pays nothing |
| TimerTimes.RestartTimes | src/utils/timers.ts:69-80 | after a restart nothing is paid at once, and the row at place i is due at its time, or i times 999 ms from now when that has passed |
| TimerTimes.RowsRemoved | src/utils/timers.ts:11-29 | which rows each cancellation removes |
| TimerTimes.NotBeforeItsTime | src/utils/timers.ts:31-123 | over every run, restarts included, escrow with a delay of at most 2^31 - 1 ms is not paid back before the delay has passed |
| TimerTimes.LongDelayIsCut | src/utils/timers.ts:31-63 | a longer delay is cut to a millisecond |
| TimerTimes.EarlyInRuns | src/utils/timers.ts:31-123 | after every run, escrow with a delay can be paid back too early if and only if the delay is longer than 2^31 - 1 ms |
| TimerRuns.OnceStep | src/utils/timers.ts:6-123 | every step keeps: each row armed at most once, a repaid row neither stored nor armed |
| TimerRuns.AtMostOnce | src/utils/timers.ts:6-123 | over every run no row is repaid twice, and what is repaid is a row that was added, for its amount and receiver |
| TimerCancel.GoneStays | src/utils/timers.ts:6-123 | a row that is neither stored nor armed is never repaid again |
| TimerCancel.RestartArmsAll | src/utils/timers.ts:69-80 | after a restart every surviving row is armed, whatever happened before |
| TimerCancel.NameInjective | src/utils/timers.ts:64-67 | the name of a timer determines chat, receiver and message |
| TimerCancel.RemoveIs | src/utils/timers.ts:7-29 | cancelling takes away exactly the matching rows and their timeouts, second stages excepted |
| TimerCancel.TrackedRun | src/utils/timers.ts:6-123 | as long as messages are told apart, every stored row is armed and every first-stage timeout is found under its name |
| TimerCancel.StoredUnderName | src/utils/timers.ts:55-78 | a pending timeout is stored under its name if and only if it has not reached the second stage |
| TimerCancel.CancelledUnlessSecondStage | src/utils/timers.ts:7-80 | a cancelled row can still be repaid if and only if its timeout is in the second stage |
| TimerCancel.SecondStageHappens | src/utils/timers.ts:69-80 | a run that reaches that state |
| Broadcast.InitiateReversal | src/network/send.ts:586-633 | to whom the sats are given back, and when it throws |
| Broadcast.SendToAll | src/network/send.ts:220-298 | the loop over the contacts with its skips, attempts, reversal and callbacks |
| Broadcast.SendInOrder | src/network/send.ts:200-219 | an absent payee ends the call with a reversal, a present one is moved to the front |
| Broadcast.SendMessage | src/network/send.ts:77-298 | the whole call, early returns included |
| Broadcast.MovedToFront | src/network/send.ts:217-219 | the order of processing is a permutation of the contacts with the payee first |
| Payees.OwnerPaysPayee | src/network/send.ts:239-271 | the owner of a tribe pays by keysend the payee, once, the larger of amount and minimum, and nobody else |
| Payees.FailedPaymentStops | src/network/send.ts:281-296 | if that payment throws nobody else gets the message, and unless the reversal throws only the failure callback runs |
| Payees.EveryoneServed | src/network/send.ts:214-298 | otherwise everybody who is not skipped gets the message once and in order, and the success callback runs exactly if every send goes through |
| Payees.OthersPayEveryone | src/network/send.ts:239-280 | who does not own a tribe pays whoever gets the message |
| Payees.AbsentPayee | src/network/send.ts:200-210 | with a payee who has left, nobody gets the message and no callback runs |
| Payees.CallbackRuns | src/network/send.ts:200-298 | a callback runs if and only if the payee is 0 or present, and no reversal throws |
| BroadcastLog.LogIsProper | src/network/send.ts:220-298 | each event of a call is the right one: who pays by keysend, who publishes, to whom, and the larger of amount and minimum |
| BroadcastLog.QuietCalls | src/network/send.ts:77-199 | which calls send nothing |
| BroadcastLog.WhoGets | src/network/send.ts:214-298 | exactly the contacts it is meant for get the message, those skipped by the proxy or as sender apart |
| BroadcastLog.GivenBackIs | src/network/send.ts:586-633 | sats are given back exactly when the payee is absent or its payment fails: once, to the stored sender, the larger of amount and minimum, if and only if that is a contact and not the tenant |
| TribeOwner.Owner.Check | src/network/receive.ts:141-224 | whether a message is acted on and whether escrow is held |
| Admission.UnderpaidIsRefused | src/network/receive.ts:173-177 | a message below the price is not acted on: nothing is sent or booked but repayments |
| Admission.StrangerIsRefused | src/network/receive.ts:167-172 | nor is one whose sender is no member |
| Admission.JoinIsRefused | src/network/receive.ts:191-210 | nor a join below its price, or of a closed tribe without approval |
| Admission.DeletionIsRefused | src/network/receive.ts:212-224 | nor a deletion by somebody else |
| Admission.PaidIsHeard | src/network/receive.ts:167-177 | a message of a member that pays the price is acted on |
| Admission.PaidJoinIsHeard | src/network/receive.ts:191-210 | so is a join that pays its price and is approved where that is needed |
| Admission.LeavingIsHeard | src/network/receive.ts:212-224 | so are leaving and a deletion by the poster |
| Admission.EscrowIsHeld | src/network/receive.ts:178-189 | whose escrow is held, with which amount, due time and receiver |
| Admission.CostsAreCovered | src/network/receive.ts:173-313 | over every run the sats received cover the prices of all messages acted on |
| Admission.PricesAreReceived | src/network/receive.ts:173-313 | over every run of priced messages at least the price is received for each one acted on |
| TribeOwner.Owner.Split | src/network/receive.ts:226-257 | what is forwarded to whom, and the amount the message goes on with |
| Admission.PassedOn | src/network/receive.ts:226-257 | who is paid how much of a message, without reference to the split |
| TribeOwner.Owner.Spend | src/network/receive.ts:260-305 | what counts as spent by the sender |
| Admission.SpentIs | src/network/receive.ts:260-299 | what counts as spent, kind by kind |
| Admission.WhoIsBooked | src/utils/msg.ts:217-240 | only the first member of that contact is booked |
| TribeOwner.Owner.OnReceive | src/network/receive.ts:136-319 | escrow, leaderboard and broadcast of one message |
| Admission.MembersHear | src/network/receive.ts:443-510 | every other member gets a message that is acted on |
| Admission.JoinsAreSkipped | src/network/receive.ts:458-462 | joining and leaving are not broadcast where they are skipped |
| TribeOwner.Owner.SendRepayments | src/utils/timers.ts:93-120 | each row paid back is sent to its receiver as a tribe payment, and counts as earned |
| TribeOwner.Owner.OnTimeout | src/utils/timers.ts:51-123 | a timeout fires, and what it pays back is sent |
| TribeOwner.Owner.RecordScores | src/utils/msg.ts:217-240 | what a broadcast adds to the earnings of its payee |
| Ledger.FairSplits | src/network/receive.ts:174-250 | the amount of a fair message is price, escrow and the part forwarded |
| Ledger.Conservation | src/network/receive.ts:174-313 | over every run of fair messages, firing timeouts, cancellations and restarts the sats received are the prices kept, the escrow held, the escrow kept after cancellations and the sats that leave by keysend, forwarded or paid back, if and only if escrow is not below the least amount of a keysend or nothing was paid back; the exact excess otherwise |
| Ledger.EscrowIs | src/utils/timers.ts:6-123 | in every state that runs reach, the escrow of all rows ever added is held, paid back, or kept |
| Ledger.NoEscrowKept | src/utils/timers.ts:6-123 | none is kept in a run in which nothing is cancelled and no chat of a firing timeout is gone |
| Ledger.RepaymentPays | src/utils/timers.ts:93-104 | a repayment is one keysend to the receiver of the row, of the larger of amount and minimum |
| Ledger.NeverGivesMore | src/network/receive.ts:173-190 | the owner gives away no more than was received if and only if escrow is not held for an amount that does not cover it |
| Ledger.RejectedMessageIsRepaid | src/network/receive.ts:173-190 | a message rejected because it pays nothing still gets escrow back |
| Leaderboard.BoardAfter | src/network/receive.ts:260-313 | what one message adds to the totals of members |
| Leaderboard.CreditNeedsSender | src/network/receive.ts:260-313 | repayments apart, one message credits no more than it charges if and only if the sender of a credited one is listed |
| Leaderboard.EarnedWithinSpent | src/network/receive.ts:244-299 | over every run with known senders members together earn no more than they spend and repayments add |
| Leaderboard.EarnedIsSpent | src/network/receive.ts:244-299 | they earn exactly that when every message acted on credits a listed member |
| Leaderboard.EscrowIsEarned | src/network/send.ts:264-269 | in such a run members earn no more than they spend if and only if no escrow is paid back to a listed member |
| Leaderboard.EscrowEarned | src/network/send.ts:264-269 | a run in which they have earned more |
| Subscriptions.Node.OnTick | src/controllers/subscriptions.ts:42-75 | a due cron job: missing, paused or ended subscriptions stop it, others are paid |
| Subscriptions.Node.SendSubscriptionPayment | src/controllers/subscriptions.ts:131-183 | a payment and, if it goes through, count, total and end |
| SubscriptionTicks.TickPays | src/controllers/subscriptions.ts:42-75 | a tick of a due subscription tries exactly one payment of it, counted if it goes through |
| SubscriptionTicks.TickPaysNothing | src/controllers/subscriptions.ts:42-75 | any other tick pays nothing |
| SubscriptionTicks.TickEnds | src/controllers/subscriptions.ts:57-67 | a tick past the end date or number ends the subscription and its job |
| SubscriptionTicks.TickStops | src/controllers/subscriptions.ts:46-56 | a tick of a missing or paused subscription stops its job |
| SubscriptionTicks.PaymentsAreMade | src/controllers/subscriptions.ts:17-412 | over every run the payments tried are as many as due ticks and creations |
| Subscriptions.Node.CreateSubscription | src/controllers/subscriptions.ts:370-412 | a new row, its job, and a first payment at once |
| SubscriptionTicks.CreatePays | src/controllers/subscriptions.ts:370-412 | a creation tries one payment of the amount asked for |
| SubscriptionTicks.CreateIs | src/controllers/subscriptions.ts:370-412 | and starts a job of the new row unless that payment ends it |
| Subscriptions.Node.PauseSubscription | src/controllers/subscriptions.ts:245-264 | pauses the row and stops its job |
| Subscriptions.Node.RestartSubscription | src/controllers/subscriptions.ts:267-286 | resumes the row and starts its job |
| Subscriptions.Node.EditSubscription | src/controllers/subscriptions.ts:414-466 | changes the row and starts a new job, or ends it |
| SubscriptionTicks.EditIs | src/controllers/subscriptions.ts:414-466 | which fields an edit sets, and when it ends the subscription |
| SubscriptionTicks.EditInvalid | src/controllers/subscriptions.ts:414-466 | a malformed edit, or one of a missing row, changes nothing |
| SubscriptionTicks.EditedIsPaid | src/controllers/subscriptions.ts:414-466 | the next tick after an edit pays the new amount |
| Subscriptions.Node.DeleteSubscription | src/controllers/subscriptions.ts:333-349 | stops and forgets the job and destroys the row |
| SubscriptionTicks.PauseIs | src/controllers/subscriptions.ts:245-264 | pausing: the flag, the tenant and the job |
| SubscriptionTicks.RestartIs | src/controllers/subscriptions.ts:267-286 | going on: the flag, the tenant and the job |
| SubscriptionTicks.DeleteIs | src/controllers/subscriptions.ts:333-349 | deleting: the row, the tenant and the job |
| Subscriptions.Node.InitializeCronJobs | src/controllers/subscriptions.ts:21-37 | starts a job for every row that has not ended |
| SubscriptionRuns.OrderlyStep | src/controllers/subscriptions.ts:39-110 | every step but initialisation keeps every running job the stored one |
| SubscriptionRuns.InitializeKeepsOrder | src/controllers/subscriptions.ts:21-37 | initialisation keeps it if and only if no job runs yet for a row it starts one for |
| SubscriptionRuns.RunningJobsAreStored | src/controllers/subscriptions.ts:17-110 | over every run that initialises first, every running job is the one stored for its subscription |
| SubscriptionRuns.OneJobEach | src/controllers/subscriptions.ts:39-79 | no subscription has two running jobs then |
| SubscriptionPayments.PaymentsAreCounted | src/controllers/subscriptions.ts:57-181 | over every run no payment is tried for a paused subscription or one at its number, and every row counts exactly its payments and their amounts |
| SubscriptionPayments.LastPaymentEnds | src/controllers/subscriptions.ts:166-178 | the payment that reaches the number ends the subscription and leaves no job |
| SubscriptionPayments.CrashRecovers | src/controllers/subscriptions.ts:21-37 | after a crash a subscription has a running job again if and only if its row is not ended |
| SubscriptionPayments.PaidPastTheEnd | src/controllers/subscriptions.ts:57-71 | over every run a payment is tried past the end of its subscription if and only if it is the first one of a subscription asked for with an end date already past |
| SubscriptionPayments.FirstPaymentIgnoresEndDate | src/controllers/subscriptions.ts:404-406 | such a payment is made |
| SubscriptionJobs.ServedStep | src/controllers/subscriptions.ts:39-466 | every step keeps, for each row that has not ended, a running job or, while it is paused, a stored one, if and only if it does not delete the subscription of another tenant |
| SubscriptionJobs.JobsRun | src/controllers/subscriptions.ts:17-466 | so over every run of processes that initialise when they start: at all times while a process is up |
| SubscriptionJobs.TwoJobs | src/controllers/subscriptions.ts:21-37 | a run that initialises after the first subscription and has two jobs for it |
| SubscriptionJobs.EditedIsLost | src/controllers/subscriptions.ts:450-457 | a run that ends with a running job of an ended row, which a restart loses |
| SubscriptionJobs.ForeignDeleteStops | src/controllers/subscriptions.ts:333-349 | a run in which the request of another tenant stops a job and leaves the row |
| MessageCache.RemoveDuplicateMsg | src/controllers/messages.ts:976-1005 | the loop with its splice, its table and its counter |
| MessageCache.LengthsAgree | src/controllers/messages.ts:982-995 | for every input the number taken off the length is the number of messages dropped |
| MessageCache.MergeIsUnion | src/controllers/messages.ts:948-1005 | database messages followed by cached ones, repeated ones included, merge to the cached ones and the database messages no cacheable one replaces; no uuid is repeated if and only if none is in the cache and the shared ones are cacheable |
| MessageCache.EveryUuidOnce | src/controllers/messages.ts:948-1005 | if the cache repeats none and the shared ones are cacheable, every uuid is there once, the cached copy winning, and the length falls by the number of shared uuids |
| MessageCache.DatabaseIsKept | src/controllers/messages.ts:976-1005 | messages of the database alone are all kept if and only if no cacheable one repeats an earlier uuid |
| Reconnect.Node.ReconnectToLightning | src/grpc/subscribe.ts:83-92 | an attempt takes over the context |
| Reconnect.Node.Failed | src/grpc/subscribe.ts:95-108 | a failed attempt sets a retry for its context |
| Reconnect.Node.Timeout | src/grpc/subscribe.ts:77-107 | a timer starts over, or retries if its context is still the latest |
| Reconnect.Node.OnStatusOrEnd | src/grpc/subscribe.ts:40-79 | an event of a stream ends it and starts over, or settles its attempt |
| ReconnectRuns.CallAttempts | src/grpc/subscribe.ts:83-94 | a call makes an attempt in a new context |
| ReconnectRuns.RetryAttempts | src/grpc/subscribe.ts:102-108 | a retry of the latest context makes another attempt in it, a superseded one does nothing |
| ReconnectRuns.StartOverAttempts | src/grpc/subscribe.ts:77-94 | a timer that starts over makes an attempt in a new context |
| ReconnectRuns.OpenIs | src/grpc/subscribe.ts:40-46 | an attempt that succeeds makes a stream |
| ReconnectRuns.FailSetsRetry | src/grpc/subscribe.ts:95-108 | one that fails sets a retry of its context |
| ReconnectRuns.EventIs | src/grpc/subscribe.ts:40-79 | which events of a stream start over |
| Reconnect.OneRetryPasses | src/grpc/subscribe.ts:77-109 | over every run at most one pending retry passes its guard, and none while the latest attempt has not settled or its stream is open |
| Reconnect.SupersededStays | src/grpc/subscribe.ts:81-109 | a superseded chain never makes another attempt |
| Reconnect.OneStream | src/grpc/subscribe.ts:40-109 | over every run there is at no time more than one attempt that can make a stream or open stream, if and only if calls and timers that start over come when there is none |
| Reconnect.OneEventOneStream | src/grpc/subscribe.ts:40-79 | a node that is started once and whose streams each end with one event has one stream at a time |
| Reconnect.TwoStreams | src/grpc/subscribe.ts:40-79 | a run in which one stream ends with two events and two streams are open |
| ReconnectRuns.NeverStuck | src/grpc/subscribe.ts:40-109 | over every run, as long as no stream ends without starting over and no attempt gives up, a node once started has an attempt, a stream or a timer that makes one |
| ReconnectRuns.StuckHappens | src/grpc/subscribe.ts:40-79 | a run after which a node never tries again |

## Left out

- Finishing.SearchMask: the penalty is an abstract number of a matrix; the counting at `public/js/qrious.js:389-467` is not modelled.
- QrFrame.Frame.LoadBytes: values are bytes; characters above 255 are not modelled.
- Weave.Reassembly: texts are sequences of characters; a surrogate pair cut by a chunk border is not modelled, and chunk numbers that are no decimal digits (blanks, signs, exponents) compare as equal.
- Receiver.Node.ParseKeysendInvoice: the owner lookup is one flag, saving an anonymous keysend is one effect, and the amount and network written into the payload are not modelled.
- Keysend.KeysendMessage: the pause between two payments, fees and route hints are not modelled.
- Broadcast.SendMessage: bots, mentions and hidden commands are reduced to the flag that ends the call early; whether personalising and sending go through is one parameter for each contact. On a proxy a contact without a route hint throws before its score is recorded; the model records score and attempt of it too.
- Meta.DeserializeMeta: a section with a backslash counts as an exception, although JSON has valid escapes; none is written by serializing.
- TribeOwner.Owner.OnReceive: only the kinds a tribe owner forwards are modelled; aliases, media of attachments and purchases are not, and an amount is always a number.
- Ledger.Conservation: of boosts and direct payments that are acted on; forwarded parts are at least the minimum and payments go through, one keysend each.
- Timers.Node.PayBackRow: the payment and the destruction of the row are one step; whether the payment goes through is part of TribeOwner.Owner.OnTimeout, and the message written on success is not modelled.
- Subscriptions.Node.SendSubscriptionPayment: a payment settles before the next step on its subscription; the messages it writes are not modelled.
- Subscriptions.Node.EditSubscription: that a request is malformed is one flag, and responses are not modelled.
- SignedTimestamps.VerifyGenerated: stamps of eight hexadecimal digits and signatures of 65 bytes.
- ShortChannelIds.ShortChanIdToInt64: parts that are no decimal numbers count as an exception.
- MessageCache.RemoveDuplicateMsg: fetching from the cache is not modelled; both lists are given.
- Reconnect.Node.ReconnectToLightning: unlocking a locked node is the step that gives up; a stream is made and an attempt settles at steps of the run.
- The class, option, service and canvas parts of the QR library, gRPC, MQTT, HTTP, sockets, files and certificates: input and output without semantics of their own.
- Built-in bots, notifications, hub pings, migrations, invites, node information and list queries: they would only add easy members.
