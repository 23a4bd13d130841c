# Proofs about zlib and the actor runtime

Dafny models of three parts of the firmware, with proofs of what they promise:

* **zlib 1.2.11** as vendored under `curl/lib/zlib`. The Huffman table builder compiles any
  set of code lengths into a two-level table that decodes the canonical code. The decoding
  states of `inflate`, resumable at every byte of input and output and going on from block to
  block, and the fast loop `inflate_fast` both follow one definition of a deflate block, so
  that the output does not depend on how calls were cut. The string matching of `deflate`
  keeps its hash chains true over sliding and circular overwrites; its tokens are exactly
  those that rules over the input make, and always expand to it. The CRC-32 and Adler-32
  checksums, with their fast forms and combine formulas, equal their definitions.
* **The actor runtime** under `actor_model/src`: links and exit signals. Links between live
  processes are symmetric in every reachable state, a link to a dead process always has a
  signal on its way, and a death spreads to exactly those its signals are fatal for.
* **Two stream automata**: `syncsearch` and the base64 decoder, whose answers do not depend
  on how their input is split.

`dafny verify dfyconfig.toml` checks the project.

## Main results

* `InflateTable.Build`, `SymbolDecode.DecodeSymbol`: every acceptable set of code lengths gets
  a table, in exactly the space computed, that decodes its canonical code; the lookups with
  too few bits accept only the true symbol and pull no byte it does not need.
* `InflateFast.DecodeFast`, `InflateStream.Inflater.Inflate`, `InflateRuns.OneOutcome`: both
  loops decode the same items, calls stop only for a reason, and runs that differ in how input
  and room were cut end alike.
* `InflateRuns.WhenEnded`, `Verdicts.InOneCall`, `Verdicts.InTwoCalls`, `Verdicts.FarMatch`:
  the one exception, a match that reaches further back than the window is wide, and that it
  is one.
* `HashChain.Insert`, `HashChain.Slide`, `MatchSearch.LongestMatch`: the chains stay true, so
  that the third byte need not be compared, and the search finds exactly the first of the longest
  matches of the strings it may look at, or the first nice one.
* `Deflate.Deflater.FastStep`, `Deflate.Deflater.SlowStep`, `Deflate.Deflater.RleStep`,
  `WhatIsTold.TokenInPlace`, `WhatIsTold.GreedyMeans`, `WhatIsTold.LazyMeans`, `WhatIsTold.RunMeans`:
  every token is the one that rules make at its place from the input that had arrived and the
  strings known, and these say when it is a literal and which match it is otherwise.
* `Deflate.Deflater.Deflate`, `Deflate.Compress`, `Deflate.DecompressesToInput`: the tokens of all
  four compressors stand for the input, they never stall, and any blocks they are written as
  decode to it.
* `Deflate.Deflater.AfterFlush`, `WhatIsTold.NoneReachesBack`: a flush adds its empty block, and no
  match told after a full flush reaches back before it.
* `RoundTrip.InflateUndoesDeflate`, `RoundTrip.Decompress`, `RoundTrip.Compressible`: inflate gives
  back what deflate was given and comes to the end, and there is always a stream for this to hold
  of.
* `Crc32.Crc32Little`, `Crc32.CombineParts`, `Adler32.Adler32Z`, `Adler32.CombineParts`: the fast
  forms and the combine formulas equal the definitions.
* `ActorState.DeliveredKeeps` and its companions, `ActorNode.Node.ExitAndSpread`,
  `ActorNode.Node.DeliverAll`, `ActorNode.CancelledTooSoon`: what holds in every reachable state,
  what a death leads to, that it comes to an end, and the one call that breaks it.
* `SyncSearch.Search`, `Base64Decode.Decoder.DecodeBlock`: the automata, in any number of pieces.

## How it is put together

| files | what they hold |
|---|---|
| `Arith` | powers of two, bit fields as numbers, bit reversal |
| `CanonicalCode`, `DecodeTable` | the canonical code of a set of lengths; tables, lookups and what it means that a table decodes a code |
| `TableOrder`, `TableFill`, `InflateTable` | `inflate_table` |
| `BitReader`, `DeflateFormat`, `Lz77` | the bit stream; what it spells out and what that appends to the output; tokens |
| `SymbolDecode`, `InflateItems`, `InflateWindow`, `MatchCopy` | lookups with too few bits; entries as items; the circular window; copying matches |
| `InflateProgress`, `InflateFast`, `InflateBlock` | where decoding stands; `inflate_fast`; the states of `inflate` inside a coded block |
| `BlockRuns`, `InflateStream`, `InflateRuns` | where a decoder of a block that ends can be; `inflate` over the blocks of a stream, in any number of calls; that it does not matter how these were cut |
| `HashKey`, `HashChain`, `MatchSearch` | the rolling hash; the chains; `longest_match` |
| `Choices`, `Deflate`, `WhatIsTold` | the rules of the compressors over the input alone; the compressors; what the rules mean, and what holds of every run |
| `Encoding`, `RoundTrip`, `Verdicts`, `HeldBits` | that there are streams; `deflate` and then `inflate`; when the verdict depends on how calls are cut; how many bits may be held between calls |
| `Crc32`, `Adler32`, `SyncSearch`, `Base64Decode` | the checksums and automata |
| `ActorState`, `ActorSpread`, `ActorNode` | the state of a node as a value; how a death spreads; the classes that change the state |

Bytes are numbers below 256, and words are natural numbers whose 32-bit bounds are stated
where they matter; only the CRC uses bit-vectors. Streams that have not arrived yet are ghost
parameters: the methods read `avail`, what has arrived, and are right for every `input` that
begins with it. Everything output, read or supplied since the beginning is a ghost sequence,
and positions in the sliding window are relative to the ghost number of bytes that have left
it. A compressor keeps a ghost log of its steps, each with how much of the input had arrived; the
rules make all its tokens from the input and that log. What counts in these rules is which strings
are known and how far back a match may reach, never the window or the tables.

## Where code, comments and intent differ

* `inffast.c:292` says that fewer than 8 bits are held on entry. When `inflate` ran out of
  input inside the LEN state, it holds what has arrived of the next code at the next call, which
  may be 8 bits and more (`HeldBits.Cut`, `HeldBits.NineBits`); what holds is that at most 7 of
  them lie beyond that code, and this suffices (`InflateFast.DecodeFast`).
* `deflate.c:1224-1227` says that a search without success returns `prev_length`; it returns
  the smaller of `prev_length` and the lookahead (`MatchSearch.LongestMatch`).
* When the window slides while a match waits in `deflate_slow`, `match_start` may become -1
  modulo 2^32; the distance computed from it is still right (`Deflate.PendingSlid`).
* `adler32` of a single byte reduces fully only from a start that is nearly reduced, as every
  checksum is (`Adler32.Adler32Z`).
* A process killed by a signal passes on the empty reason, not the one it was killed for.
* `cancel_signal` is public. Cancelling the one signal a live process waits for leaves it
  linked to a dead one for good (`ActorState.CancelSignal`, `ActorNode.CancelledTooSoon`).
* `terminate` erases from `timed_messages` and `timed_signals` while it iterates over them. It
  takes the pid by reference, and when a signal kills (`node.cpp:521-526`) that reference is
  to the entry of the signal, which `terminate` erases (`node.cpp:635-647`) before it goes on
  to use the pid (`node.cpp:649-664`). The model takes the pid by value and removes every
  entry for it, which is what the code is for.
* With a window of less than 32K, `inflate` may refuse in a second call what it accepts in one
  (`Verdicts.InTwoCalls`). No stream whose distances the window covers is concerned
  (`RoundTrip.NeverBad`).
* The base64 table is of plain `char`. Where that is unsigned, `base64_decode_value` returns
  254 or 255 for the characters from 43 to 122 that are not in the alphabet, and only the
  conversion in `base64_decode_block` makes them negative; for all others it returns -1 as it
  should (`Base64Decode.DecodeValue`, `Base64Decode.UnsignedTable`).

## Model

| member | source | states |
|---|---|---|
| CanonicalCode.KraftIsEnd | curl/lib/zlib/inftrees.c:130-138 | the Kraft sum of the code lengths, scaled to any length, is where the codes of that length end: the running `left` measures over-subscription |
| CanonicalCode.FitsEveryLength | curl/lib/zlib/inftrees.c:130-138 | if the lengths over-subscribe at any length they do at the longest, so the early exit and the final test agree |
| CanonicalCode.CodeOrder | curl/lib/zlib/inftrees.c:75-104 | codes of one length are in symbol order, and the code of a longer symbol lies at or above every string that extends the code of a shorter one |
| CanonicalCode.WorkedExample | curl/lib/zlib/inftrees.c:75-104 | the codes of the worked example in section 3.2.2 of RFC 1951 |
| CanonicalCode.PrefixFree | curl/lib/zlib/inftrees.c:75-104 | of a set that is not over-subscribed at most one symbol's code starts any bit stream |
| CanonicalCode.CompleteCovers | curl/lib/zlib/inftrees.c:130-138 | of a complete set some symbol's code starts every bit stream |
| Arith.BackIncIsRev | curl/lib/zlib/inftrees.c:239-248 | incrementing the bit-reversed code at the top end is incrementing the code, and gives 0 after the last one |
| TableOrder.NextStreamCode | curl/lib/zlib/inftrees.c:239-258 | the incremented reversed code is the stored code of the next symbol in sorted order, across changes of length |
| TableOrder.FitsBlockIsLen | curl/lib/zlib/inftrees.c:266-274 | if every code under a sub-table prefix fits in l bits and one needs them all, l is the length of that block and 2^(l-root) its size |
| InflateTable.CountLengths | curl/lib/zlib/inftrees.c:106-110 | `count[l]` is the number of symbols of length `l` |
| InflateTable.Offsets | curl/lib/zlib/inftrees.c:140-143 | `offs[l]` is the number of used symbols shorter than `l` |
| InflateTable.SortSymbols | curl/lib/zlib/inftrees.c:145-147 | `work` lists exactly the used symbols, by length and then by symbol |
| InflateTable.LongestLength | curl/lib/zlib/inftrees.c:112-116 | `max` is the longest length that occurs |
| InflateTable.ShortestLength | curl/lib/zlib/inftrees.c:126-128 | `min` is the shortest |
| InflateTable.SpaceLeft | curl/lib/zlib/inftrees.c:130-136 | negative exactly for over-subscribed lengths, and zero exactly for complete ones |
| InflateTable.BackwardsIncrement | curl/lib/zlib/inftrees.c:239-248 | the loop over the bits is the backwards increment |
| InflateTable.Replicate | curl/lib/zlib/inftrees.c:230-237 | fills exactly the indices whose low bits are the code, and nothing else |
| InflateTable.SizeSubTable | curl/lib/zlib/inftrees.c:266-274 | the sub-table gets just the index bits its longest code needs |
| InflateTable.OpenSubTable | curl/lib/zlib/inftrees.c:276-287 | reserves the space of the next sub-table, or finds that it exceeds the limit, and links the root entry to it |
| InflateTable.NextSymbol | curl/lib/zlib/inftrees.c:250-255 | after the last symbol the loop ends, otherwise code, length and symbol are the next in order |
| InflateTable.EnterCodes | curl/lib/zlib/inftrees.c:213-288 | after the loop every symbol is placed, every link set and exactly the computed space used |
| InflateTable.Build | curl/lib/zlib/inftrees.c:32-304 | for every array of lengths 0..15: -1 exactly for over-subscribed sets, and incomplete ones other than a lone 1-bit code outside CODES; otherwise `root` is the index bits asked for if they lie between the shortest and the longest used length, and else the nearer of the two, and 1 says exactly that the table with that root exceeds 852 or 592 entries; otherwise the table decodes the canonical code of section 3.2.2 of RFC 1951 from every bit stream, fills exactly `used` entries and leaves the rest |
| InflateTable.RootNearest | curl/lib/zlib/inftrees.c:113-128 | the root lies between the shortest and the longest length of a used symbol, is the one asked for if that does, and the nearer of the two if it does not |
| InflateTable.EveryEntryRead | curl/lib/zlib/inftrees.c:276-287 | every one of the `used` entries is read for some stream: none is reserved in vain |
| InflateTable.CodeLengthSpace | curl/lib/zlib/inftrees.c:276-280 | the code-length code never needs more than its 128 entries |
| TableFill.PlacedDecodes | curl/lib/zlib/inftrees.c:230-237 | a table in which every symbol is replicated at its place decodes every stream |
| TableFill.LoneDecodes | curl/lib/zlib/inftrees.c:290-298 | a lone 1-bit code with its invalid-code marker decodes |
| TableFill.EmptyDecodes | curl/lib/zlib/inftrees.c:117-125 | the two-entry table for no symbols answers invalid for every stream |
| DeflateFormat.LengthTables | curl/lib/zlib/inftrees.c:60-65 | the length tables are the ranges of section 3.2.5 of RFC 1951 |
| DeflateFormat.DistTables | curl/lib/zlib/inftrees.c:66-73 | the distance tables are, too |
| DeflateFormat.LengthsFollow | curl/lib/zlib/inftrees.c:60-65 | the ranges of the length symbols follow on from one another from 3 on, and 258 has a symbol of its own |
| DeflateFormat.LengthExtras | curl/lib/zlib/inftrees.c:60-65 | how many extra bits each length symbol takes |
| DeflateFormat.DistsFollow | curl/lib/zlib/inftrees.c:66-73 | the ranges of the distance symbols follow on from one another, from 1 to 32768 |
| DeflateFormat.DistExtras | curl/lib/zlib/inftrees.c:66-73 | how many extra bits each distance symbol takes |
| DeflateFormat.LengthBound | curl/lib/zlib/inffast.c:123-133 | lengths stay within 3..258 with at most 5 extra bits |
| DeflateFormat.DistBound | curl/lib/zlib/inffast.c:148-158 | distances stay within 1..32768 with at most 13 extra bits |
| InflateItems.LitEntry | curl/lib/zlib/inflate.c:1073-1092 | the tests on `op` tell literal, length, end of block and invalid code as the format does |
| InflateItems.DistEntry | curl/lib/zlib/inflate.c:1122-1129 | the same for distances |
| BitReader.Pulled | curl/lib/zlib/inflate.c:506-512 | a pulled byte extends the bits held by the next eight of the stream |
| BitReader.Dropped | curl/lib/zlib/inflate.c:526-531 | dropping bits moves the stream position by as many |
| BitReader.Peeked | curl/lib/zlib/inflate.c:522-524 | the low bits held are the next bits of the stream |
| BitReader.HoldFits | curl/lib/zlib/inflate.c:1044-1145 | the accumulator fits 32 bits while at most 32 are held |
| SymbolDecode.PartialLookup | curl/lib/zlib/inflate.c:1054-1058 | a lookup with missing bits read as zero is right as soon as its answer fits the bits held, and answers as soon as the right answer fits |
| SymbolDecode.DecodeSymbol | curl/lib/zlib/inflate.c:1053-1072 | the lookup loops accept only the symbol the stream starts with, whatever is still to come, pull no byte it does not need, and stop only when no byte is left |
| InflateWindow.Window.Update | curl/lib/zlib/inflate.c:396-444 | the circular buffer read in order is always the last min(total, wsize) bytes supplied, and `whave < wsize` implies `wnext == whave`; 1 if there is no memory |
| InflateWindow.Window.Circulate | curl/lib/zlib/inflate.c:421-442 | the three ways of copying in keep the last bytes of history and new output |
| InflateWindow.Window.GetDictionary | curl/lib/zlib/inflate.c:1303-1310 | the dictionary is the last bytes supplied, oldest first |
| InflateWindow.LastOfLast | curl/lib/zlib/inflate.c:383-395 | keeping the last bytes at every call keeps the last bytes of the whole |
| MatchCopy.CopyBackSplit | curl/lib/zlib/inflate.c:1183-1189 | a match may be copied in parts |
| MatchCopy.CopyBackPlain | curl/lib/zlib/inffast.c:200-238 | a part no longer than the distance is a plain copy |
| MatchCopy.CopyBackSuffix | curl/lib/zlib/inflate.c:1149-1182 | what lies before the bytes copied from does not matter |
| MatchCopy.MatchStep | curl/lib/zlib/inflate.c:1146-1190 | each round appends the bytes `offset` back in window and output; bad exactly if the distance exceeds `whave` and the output so far |
| MatchCopy.CopyFast | curl/lib/zlib/inffast.c:169-264 | all four copy cases append the same bytes, each equal to the one `dist` back, overlaps included |
| InflateProgress.Remembered | curl/lib/zlib/inflate.c:1146-1190 | a match copied from the window is the match in all output there ever was |
| InflateProgress.SameStop | curl/lib/zlib/inflate.c:605-616 | two decodings of the same stream that come to a stop come to the same one |
| InflateFast.Ensure15 | curl/lib/zlib/inffast.c:104-109 | 15 bits are held without ever exceeding 32 |
| InflateFast.FastSymbol | curl/lib/zlib/inffast.c:110-115 | with 15 bits held at most two lookups give the symbol the stream starts with |
| InflateFast.FastItem | curl/lib/zlib/inffast.c:103-168 | the item read is the one the stream spells out; at most 6 bytes are read, and the position is conserved |
| InflateFast.Emit | curl/lib/zlib/inffast.c:116-264 | a literal or match appends at most 258 bytes, and a distance beyond the history is refused |
| InflateFast.DecodeFast | curl/lib/zlib/inffast.c:50-307 | decodes whole items of the stream until end of block, bad data, fewer than 6 bytes of input or 258 of room; exits with fewer than 8 bits held, gives back no byte it did not take and never reads past the input; the precondition on the bits held is the weaker one that `inflate` meets |
| InflateFast.GivenBack | curl/lib/zlib/inffast.c:292-296 | returning whole unused bytes keeps the position |
| InflateBlock.BuildTables | curl/lib/zlib/inflate.c:1010-1040 | tables for a block exactly if there is an end-of-block code and both sets of lengths are acceptable, and then they decode both codes |
| InflateBlock.SlowLength | curl/lib/zlib/inflate.c:1044-1092 | the LEN state enters the state of the item the stream spells out, or waits for input |
| InflateBlock.SlowDistance | curl/lib/zlib/inflate.c:1103-1129 | the same for DIST |
| InflateBlock.ExtraBits | curl/lib/zlib/inflate.c:1093-1102 | the LENEXT and DISTEXT states add just the extra bits |
| InflateBlock.CopyMatch | curl/lib/zlib/inflate.c:1146-1190 | a round of MATCH leaves a match partly copied, or completes the item; it is refused exactly if it reaches beyond what is remembered |
| InflateBlock.Write | curl/lib/zlib/inflate.c:1146-1196 | LIT and MATCH put out what the item says, or wait for room |
| InflateBlock.DecodeBlock | curl/lib/zlib/inflate.c:1042-1196 | slow and fast path together: output and position are those of whole items of the stream, plus part of a match; it stops only at the end of the block, on bad data, or for want of input or room; every match that is completed was in reach when it was begun, and one that is refused was not |
| InflateBlock.SameOutcome | curl/lib/zlib/inflate.c:605-616 | runs that differ only in how input and output were split end with the same output, position and verdict |
| InflateBlock.OutputIsPrefix | curl/lib/zlib/inflate.c:605-616 | what has been put out at any time is the beginning of what the block decodes to |
| InflateBlock.BadIsStop | curl/lib/zlib/inflate.c:1149-1156 | data are found bad where the stream is, if and only if it is not for a distance wider than the window but within the output; always with a window of 32K |
| BlockRuns.WhereItIs | curl/lib/zlib/inflate.c:1042-1196 | a decoder of a block that ends after so many items is at one of them: every earlier item leads on, and the last is the end of the block |
| BlockRuns.NotWaiting | curl/lib/zlib/inflate.c:1044-1145 | with all of a block there, no state waits for more: what it needs to go on lies within the item in hand |
| InflateStream.Begin | curl/lib/zlib/inflate.c:848-862 | once the input up to the content of a block is there, the LEN state starts with the bits left of the last byte, and the COPY state at its byte; otherwise it waits |
| InflateStream.Decode | curl/lib/zlib/inflate.c:1042-1196 | a coded block from wherever it is, after any output of the same call: it is passed, or the call stops for want of input or room or on bad data; what is refused was out of reach, and what was completed within it |
| InflateStream.Copy | curl/lib/zlib/inflate.c:903-922 | as much of a stored block goes out as input and room allow, and it is passed at its last byte |
| InflateStream.Inflater.Inflate | curl/lib/zlib/inflate.c:1042-1196 | one call, over as many blocks as it comes to: what has been put out is what the blocks passed decode to and the beginning of the one in hand; it returns only at the end of the stream, on bad data, or for want of input or of room; no block is passed before its end has arrived; a match is refused exactly if it reaches beyond the window and the output of the call; afterwards the window holds the last of all output |
| InflateRuns.WhenEnded | curl/lib/zlib/inflate.c:1149-1156 | an Inflater that is done or has found the data bad is where the stream ends or is bad, if and only if it was not for a distance wider than its window but not than the output; always with a window of 32K |
| InflateRuns.OneOutcome | curl/lib/zlib/inflate.c:605-616 | two Inflaters of one stream, called in whatever ways: as long as neither finds the data bad, the output of one is the beginning of that of the other; and where both have come to such an end, it is at the same block, with the same output and verdict |
| Verdicts.InOneCall | curl/lib/zlib/inflate.c:1149-1156 | whatever the size of the window, a block is decoded to its end when all of it is there in one call, with nothing required after it |
| Verdicts.InTwoCalls | curl/lib/zlib/inflate.c:1149-1156 | a block with a match that reaches further back than the window is wide is found bad when the calls are cut in front of that match |
| Verdicts.FarMatch | curl/lib/zlib/inflate.c:1149-1156 | for every window of less than 32K there is such a block |
| Verdicts.FixedTables | curl/lib/zlib/inflate.c:287-311 | the tables built for the fixed codes decode them |
| HeldBits.Cut | curl/lib/zlib/inffast.c:292-296 | a call that has the first items of a block and a part of the code of the next, a literal, returns in the LEN state holding as many bits as have arrived of that code |
| HeldBits.NineBits | curl/lib/zlib/inffast.c:292-296 | there is such a block with 8 bits held, and with enough input after them for the fast loop to be entered in the next call |
| HashKey.Forgets | curl/lib/zlib/deflate.h:147-152 | after three updates the oldest byte no longer takes part in the key |
| HashKey.ThirdByte | curl/lib/zlib/deflate.c:1335-1342 | with at least 8 hash bits, equal keys and equal first two bytes make the third byte equal |
| HashKey.ShiftIsLeast | curl/lib/zlib/deflate.c:319 | the shift is the least by which three updates move a byte out of the key |
| HashKey.RollOn | curl/lib/zlib/deflate.c:157-163 | the running key is the key of the three bytes it has just seen |
| HashKey.RollStart | curl/lib/zlib/deflate.c:1537-1541 | two bytes start the running key |
| HashChain.Insert | curl/lib/zlib/deflate.c:165-186 | entering a string keeps every chain right, circular overwrites of `prev` included: `head` has the latest string of every key, and `prev` leads from each to the one before it of its key |
| HashChain.Slide | curl/lib/zlib/deflate.c:196-225 | sliding the tables with the window keeps every chain right |
| HashChain.NextCandidate | curl/lib/zlib/deflate.c:1372-1373 | from a string within reach the chain leads to an earlier one of the same key, or to a place out of reach |
| HashChain.StringsMean | curl/lib/zlib/deflate.c:1372-1373 | the strings of one key from a place down: all that are known, the latest first, up to the number asked for |
| HashChain.NextString | curl/lib/zlib/deflate.c:1372-1373 | following `prev` from a string goes through just these strings |
| HashChain.CandidateMatches | curl/lib/zlib/deflate.c:1330-1342 | a string on the chain whose first two bytes match need not have its third compared |
| MatchSearch.Scan | curl/lib/zlib/deflate.c:1344-1357 | the scan by rounds of eight finds how far two strings agree, up to 258 bytes, without leaving the window |
| MatchSearch.Compare | curl/lib/zlib/deflate.c:1330-1357 | the quick checks only skip strings that do not beat the best match |
| MatchSearch.LongestMatch | curl/lib/zlib/deflate.c:1236-1377 | the result is exactly what a search of the strings of this key within MAX_DIST finds, the latest first and as many as the chain length (a quarter of it after a good match) allows: the first of the longest agreements beyond `prev_length`, or the first that is nice; its length is all the two strings agree in, within 258 bytes and the lookahead; otherwise the result is min(prev_length, lookahead) |
| MatchSearch.BestMeans | curl/lib/zlib/deflate.c:1359-1369 | of a list of strings: the one found beats the bound and every string before it, agrees in just so many bytes, none before it that beat the bound was nice, and unless it is nice no string after it beats it; none is found only if none beats the bound |
| Lz77.RepeatsCopy | curl/lib/zlib/deflate.c:1440-1463 | a stretch that repeats bytes a distance back is what a match of that distance reproduces |
| Lz77.DecodeOfItems | curl/lib/zlib/inflate.c:1042-1196 | decoding any stream that spells out items, after whatever was decoded before, appends the bytes they stand for |
| Lz77.DecodeOfBlocks | curl/lib/zlib/trees.c:911-990 | however the tokens are divided into blocks, and each block coded with codes of its own or stored: decoding them one after the other gives the bytes of all tokens |
| Encoding.ItemFirst | curl/lib/zlib/trees.c:1075-1101 | codes that have the symbols a token needs can spell it out: a stream begins with it and goes on at will |
| Encoding.StreamExists | curl/lib/zlib/trees.c:1064-1108 | whatever the tokens of each block, and whatever codes that cover them, there is a stream of these blocks |
| Encoding.EncodableSpellable | curl/lib/zlib/trees.c:255-286 | every length from 3 to 258 and every distance up to 32768 has a symbol |
| Encoding.FixedFull | curl/lib/zlib/inflate.c:293-303 | the fixed codes are complete, and have a code for every symbol |
| Encoding.FixedLengths | curl/lib/zlib/inflate.c:293-303 | their lengths, symbol by symbol |
| RoundTrip.Compressible | curl/lib/zlib/deflate.c:996-1036 | for every finished compressor there is a stream of the blocks it handed on, and it decodes to the input |
| RoundTrip.NeverBad | curl/lib/zlib/inflate.c:1149-1156 | an Inflater never finds a stream bad whose distances its window covers, however the calls are cut |
| RoundTrip.KeepsGoing | curl/lib/zlib/inflate.c:1042-1196 | nor does it stop before the end when all of the stream is there, and room |
| RoundTrip.InflateUndoesDeflate | curl/lib/zlib/deflate.c:996-1036 | for every input, however compressed and flushed, for all codes, and wherever an Inflater has come in whatever calls: it has put out the beginning of that input, stops only for want of input or room, and at the end has put out all of it |
| RoundTrip.Decompress | curl/lib/zlib/inflate.c:1042-1196 | any calls with any input and room, and then calls with all the stream and some room: they come to the end, and what they put out is what the compressor was given |
| Deflate.Deflater.InsertString | curl/lib/zlib/deflate.c:182-186 | keeps the chains right, makes just this string known, and returns the latest string known before it of the same key, or none |
| Deflate.Deflater.SlideHash | curl/lib/zlib/deflate.c:201-225 | every entry of both tables moves down by the window size, or to nothing |
| Deflate.Deflater.MoveWindow | curl/lib/zlib/deflate.c:1507-1518 | the window moves without losing data or chains; `match_start` wraps around modulo 2^32 |
| Deflate.Deflater.ReadBuf | curl/lib/zlib/deflate.c:1164-1189 | takes as much input as there is and fits, to the end of the data |
| Deflate.Deflater.HashStart | curl/lib/zlib/deflate.c:1537-1556 | the running key and the strings left over are caught up with |
| Deflate.Deflater.ZeroAfter | curl/lib/zlib/deflate.c:1563-1595 | zeroing up to 258 bytes after the data touches no data, and covers all longest_match looks at |
| Deflate.Deflater.FillWindow | curl/lib/zlib/deflate.c:1472-1599 | reads until there is enough lookahead or no input, slides at most once, loses nothing, and leaves room for a search |
| Deflate.Deflater.TallyLit | curl/lib/zlib/deflate.h:326-332 | a literal is stored with distance 0, and the buffer is full at its last place but one |
| Deflate.Deflater.TallyDist | curl/lib/zlib/deflate.h:333-342 | length and distance fit the buffers' types, and read back the same |
| Deflate.Deflater.FlushBlock | curl/lib/zlib/deflate.c:1605-1620 | the block handed on holds the tokens told since the last one, and they stand for the bytes since the block start |
| Deflate.Deflater.Search | curl/lib/zlib/deflate.c:1853-1863 | the match found repeats earlier input at the distance about to be told |
| Deflate.Deflater.PassMatch | curl/lib/zlib/deflate.c:1870-1900 | moving past a match keeps chains and running key right, whether its strings are entered or not |
| Deflate.Deflater.FastStep | curl/lib/zlib/deflate.c:1845-1908 | one string of deflate_fast: it is told, and it leads to, exactly what the rules say of the input and the strings known, a match as soon as there is one; the tokens stand for all input before the new position |
| Deflate.Deflater.DeflateFast | curl/lib/zlib/deflate.c:1824-1918 | every step tells what the rules say and is recorded, with at least MIN_LOOKAHEAD bytes to look at or all there will be; whenever deflate_fast returns, expanding all tokens gives exactly the input before `strstart`; it needs more only with all input taken and less than MIN_LOOKAHEAD of it left, or with the output full, and then only full blocks were handed on; otherwise all of it is told and handed on |
| Deflate.Deflater.LazySearch | curl/lib/zlib/deflate.c:1956-1982 | the lazy evaluation keeps a match only if it beats the one a byte before |
| Deflate.Deflater.PassPrevious | curl/lib/zlib/deflate.c:2000-2009 | the strings of the match that began a byte before are entered up to the last two bytes of data |
| Deflate.Deflater.TakePrevious | curl/lib/zlib/deflate.c:1983-2011 | the match put out is the one found a byte before, its distance right even after the window slid in between |
| Deflate.Deflater.PassByte | curl/lib/zlib/deflate.c:2013-2033 | without a match the byte before goes out and this one waits |
| Deflate.Deflater.FillSlow | curl/lib/zlib/deflate.c:1940-1946 | a match waiting to be put out stays one when the window slides |
| Deflate.Deflater.SlowStep | curl/lib/zlib/deflate.c:1948-2033 | one string of deflate_slow: the match held back goes out, or the byte held back, or nothing, and what is held back instead, exactly as the rules say; the tokens stand for all input before the byte in waiting |
| Deflate.Deflater.DeflateSlow | curl/lib/zlib/deflate.c:1926-2049 | the same for deflate_slow, up to the byte in waiting: every step is recorded and tells what the rules say |
| Deflate.Deflater.Run | curl/lib/zlib/deflate.c:2078-2096 | how often the byte before is repeated, at most 258 times and within the data |
| Deflate.Deflater.RleStep | curl/lib/zlib/deflate.c:2076-2111 | one step of deflate_rle: a match of distance one exactly if a run was found, of its length, and a literal otherwise |
| Deflate.Deflater.DeflateRle | curl/lib/zlib/deflate.c:2057-2124 | the same for runs: every step is recorded and tells what the rules say, and at most 258 bytes of the input are left for later |
| Deflate.Deflater.DeflateHuff | curl/lib/zlib/deflate.c:2130-2162 | the same for literals only, with nothing left for later |
| Deflate.Deflater.EmptyBlock | curl/lib/zlib/deflate.c:1022-1025 | a flush adds a block of no tokens |
| Deflate.Deflater.ForgetHistory | curl/lib/zlib/deflate.c:1029-1036 | a full flush clears the chains and restarts the window without losing input, and is recorded as the place behind which nothing will be looked at |
| Deflate.Deflater.AfterFlush | curl/lib/zlib/deflate.c:1021-1036 | every flush but Z_BLOCK is followed by one empty block after the data, and that one by none; a full flush, and no other, leaves no string known and the window beginning anew |
| Deflate.Deflater.constructor | curl/lib/zlib/deflate.c:240-317 | a fresh compressor for levels 1 to 9 and every strategy: empty chains and nothing told, and the rules, sizes and lookahead that level, strategy, window bits and memory level stand for |
| Deflate.LevelsAre | curl/lib/zlib/deflate.c:137-150 | the configuration table, column by column |
| Deflate.Deflater.Deflate | curl/lib/zlib/deflate.c:996-1036 | over any sequence of calls, arrivals of input and flushes, every token is told by a recorded step of the rules, with enough to look at, and the tokens stand for the beginning of the input; a call that needs more has taken all input but for what its compressor may leave, or has handed on a full block; a flush that is done has handed on everything and an empty block after it unless it is Z_BLOCK, and a full flush, and no other call, has forgotten every string; told to finish it finishes unless the output is full |
| Deflate.Deflater.FinishStream | curl/lib/zlib/deflate.c:996-1036 | calls to finish come to the end of the stream, however often the output is full |
| Deflate.Compress | curl/lib/zlib/deflate.c:996-1036 | data in any pieces with any flushes, and the end: a finished compressor whose input is the data |
| Deflate.DecompressesToInput | curl/lib/zlib/deflate.c:996-1036 | the blocks of a finished compressor, each coded with any codes or stored, decode to exactly the input |
| Deflate.PendingSlid | curl/lib/zlib/deflate.c:1510-1518 | the waiting match keeps its distance and length over the slide |
| WhatIsTold.SearchedMeans | curl/lib/zlib/deflate.c:1247-1249 | the strings a search looks at: strings known of the same key and within reach, the latest first, and all there are unless there are more than the chain length |
| WhatIsTold.AgreesSearched | curl/lib/zlib/deflate.c:1845-1863 | every known string within reach that agrees in three bytes is one of them, unless as many later ones have its key |
| WhatIsTold.GreedyMeans | curl/lib/zlib/deflate.c:1853-1908 | deflate_fast tells a literal exactly if no string searched agrees in three bytes or there are no three bytes, and otherwise the longest match, or the first nice one, with its length and distance |
| WhatIsTold.GreedyKnows | curl/lib/zlib/deflate.c:1872-1900 | it enters the string at the position, and the others of a match only if that is no longer than max_lazy |
| WhatIsTold.LazyMeans | curl/lib/zlib/deflate.c:1959-2033 | deflate_slow tells the match held back exactly if the search at the next byte, if it is made, finds none longer, or one of at most 5 bytes that is filtered out or of 3 bytes too far back; otherwise the byte held back goes out and the new match is held |
| WhatIsTold.LazyKnows | curl/lib/zlib/deflate.c:1949-2009 | it enters all strings it passes that have three bytes |
| WhatIsTold.RunMeans | curl/lib/zlib/deflate.c:2076-2111 | deflate_rle tells a match exactly if three bytes repeat the one before, as long as the run up to 258 bytes and the data |
| WhatIsTold.RestMeans | curl/lib/zlib/deflate.c:2035-2040 | when all data is told the byte held back goes out too, and the strings of the last two bytes are left over by the compressors that look for strings |
| WhatIsTold.LeftOver | curl/lib/zlib/deflate.c:1537-1556 | when more input is there, just the strings left over whose three bytes have come become known, and the others are still left over |
| WhatIsTold.Conserved | curl/lib/zlib/deflate.c:996-1036 | in every run of the rules the lengths of all tokens add up to the position, but for the byte held back |
| WhatIsTold.WhoTold | curl/lib/zlib/deflate.c:996-1036 | every token of a run was told by one step, which stood where the tokens before it end |
| WhatIsTold.TokenInPlace | curl/lib/zlib/deflate.c:996-1036 | whatever calls a compressor had, each of its tokens is the one its rules make at the place in the input up to which the tokens before it stand |
| WhatIsTold.NeverBefore | curl/lib/zlib/deflate.c:1029-1036 | in every run, no match told or held back after a full flush reaches back before it |
| WhatIsTold.NoneReachesBack | curl/lib/zlib/deflate.c:1029-1036 | so it is for every compressor, whatever calls it had |
| Crc32.FeedByte | curl/lib/zlib/crc32.c:62-80 | eight message bits one by one are one exclusive or and eight shifts |
| Crc32.MakeCrcTable | curl/lib/zlib/crc32.c:88-137 | entry `n` of table `k` is the register after byte `n` and `k` zero bytes |
| Crc32.WordBytes | curl/lib/zlib/crc32.c:260-262 | a word at once is its four bytes one by one |
| Crc32.Crc32Little | curl/lib/zlib/crc32.c:266-297 | equals the bit-at-a-time CRC of section 8 of RFC 1952 for every message, starting value and alignment |
| Crc32.CrcInParts | curl/lib/zlib/crc32.c:202-227 | checking a message in parts is checking it whole |
| Crc32.FeedXor | curl/lib/zlib/crc32.c:372-425 | what was in the register before only shifts along with the message |
| Crc32.Times | curl/lib/zlib/crc32.c:344-358 | the matrix of `n` shifts times a register is the register after `n` shifts |
| Crc32.Square | curl/lib/zlib/crc32.c:361-369 | the square of the matrix of `n` shifts is that of `2n` |
| Crc32.OneZeroBit | curl/lib/zlib/crc32.c:386-392 | the first matrix is that of one shift |
| Crc32.Combine | curl/lib/zlib/crc32.c:372-425 | the first check shifted past the second length, plus the second check; the first check itself for lengths that are not positive |
| Crc32.CrcOfParts | curl/lib/zlib/crc32.c:372-425 | the CRC of two messages one after the other in terms of theirs |
| Crc32.CombineParts | curl/lib/zlib/crc32.c:428-434 | for all messages, the combined check of two is the check of both together |
| Adler32.Mod28 | curl/lib/zlib/adler32.c:27-37 | the reduction without division is the remainder, for all it is used on |
| Adler32.Mod | curl/lib/zlib/adler32.c:38-42 | the same for 32 bits |
| Adler32.Mod63 | curl/lib/zlib/adler32.c:43-55 | the same for 63 bits |
| Adler32.BlockFits | curl/lib/zlib/adler32.c:12-14 | NMAX bytes never make a sum reach 2^32, even from sums that are not reduced |
| Adler32.AddBytes | curl/lib/zlib/adler32.c:16-20 | the sums of a block, within 32 bits at every byte |
| Adler32.AddAllCongruent | curl/lib/zlib/adler32.c:102-127 | deferring the modulo does not change the sums modulo the base |
| Adler32.Adler32Z | curl/lib/zlib/adler32.c:63-131 | equals the definition in section 2.2 of RFC 1950 for every length and every 32-bit start, except for a single byte on a start it does not reduce: then exactly if one subtraction suffices |
| Adler32.KnownSums | curl/lib/zlib/adler32.c:63-131 | the checksum of no bytes is 1, and that of "abc" is 024D0127 |
| Adler32.UnreducedOneByte | curl/lib/zlib/adler32.c:76-83 | a start for which one subtraction does not suffice |
| Adler32.ReducedOneByte | curl/lib/zlib/adler32.c:76-83 | for every checksum it does |
| Adler32.AddAllFrom | curl/lib/zlib/adler32.c:156-163 | what a message does to any sums, from its own checksum |
| Adler32.CombinedIs | curl/lib/zlib/adler32.c:156-163 | the formula gives the checksum of both messages |
| Adler32.Combine | curl/lib/zlib/adler32.c:143-169 | within 32 bits, and fully reduced by the conditional subtractions; all ones for negative lengths |
| Adler32.CombineParts | curl/lib/zlib/adler32.c:172-178 | for all messages, the combined checksum of two is the checksum of both together |
| SyncSearch.NextBorder | curl/lib/zlib/inflate.c:1388-1393 | the three cases of the loop keep `have` the longest beginning of the pattern that ends the bytes seen |
| SyncSearch.FoundMeans | curl/lib/zlib/inflate.c:1388-1393 | what is found are the four bytes 00 00 FF FF |
| SyncSearch.Search | curl/lib/zlib/inflate.c:1377-1398 | `have` is that length, the search stops just after the first 00 00 FF FF, and reads everything otherwise |
| SyncSearch.OneAnswer | curl/lib/zlib/inflate.c:1366-1376 | the answer does not depend on how the bytes are split |
| Base64Decode.DecodeValue | base64/lib/libb64/src/cdecode.c:10-17 | the value of a character exactly if it has one; for every other character the result is negative once converted to signed char, and before that exactly if plain char is signed or the character is below 43 or above 122 |
| Base64Decode.DecodesAlphabet | base64/lib/libb64/src/cdecode.c:10-17 | a character decodes to `i` below 64 exactly if it is number `i` of the 64 characters of the alphabet in section 4 of RFC 4648 |
| Base64Decode.ValueMeans | base64/lib/libb64/src/cdecode.c:12 | and so for the values the bytes are put together from |
| Base64Decode.UnsignedTable | base64/lib/libb64/src/cdecode.c:12 | if it is not, some of them are 254 and 255 before the conversion |
| Base64Decode.OneValue | base64/lib/libb64/src/cdecode.c:37-83 | each step completes and starts bytes as the bits put together |
| Base64Decode.Decoder.DecodeBlock | base64/lib/libb64/src/cdecode.c:25-87 | after any blocks the bytes put out are the floor(6k/8) whole bytes of the k values of the text so far |
| Base64Decode.OneDecoding | base64/lib/libb64/src/cdecode.c:25-87 | these bytes are determined by the values alone, so no split of the text changes them |
| ActorState.LinkedKeeps | actor_model/src/process.cpp:148-170 | linking keeps links between live processes symmetric and everything else that holds in reachable states |
| ActorState.UnlinkedKeeps | actor_model/src/process.cpp:172-194 | so does unlinking |
| ActorState.SpawnedKeeps | actor_model/src/process.cpp:54-59 | so does a birth with a link |
| ActorState.TerminatedKeeps | actor_model/src/node.cpp:618-668 | so does a death: every live process linked to the dead one has a signal on its way, and no timed message targets it |
| ActorState.ProcessedKeeps | actor_model/src/node.cpp:534-601 | so does a signal, which leaves no link for it to be needed |
| ActorState.DeliveredKeeps | actor_model/src/node.cpp:515-532 | so does the firing of a signal's timer |
| ActorState.LinkedMeans | actor_model/src/process.cpp:148-170 | a link changes just the two sets of links |
| ActorState.UnlinkedMeans | actor_model/src/process.cpp:172-194 | and so does its removal |
| ActorState.SpawnedMeans | actor_model/src/process.cpp:54-59 | a new process traps no exits, has no messages, and is linked to the given one if that is live, which knows it |
| ActorState.ReceivedMeans | actor_model/src/node.cpp:148-163 | a message is the last one in the mailbox, and changes no more |
| ActorState.ProcessedMeans | actor_model/src/node.cpp:534-601 | a process that does not trap exits, or is killed, is gone unless the reason is normal; one that stays loses the link, and gets one message with the reason exactly if it traps exits |
| ActorState.TerminatedMeans | actor_model/src/node.cpp:618-668 | the process, its timed messages and its names are gone, and all others are as they were |
| ActorState.CancelSignal | actor_model/src/node.cpp:421-461 | cancelling a signal keeps the invariant if and only if it is not the last word a live process hears of a dead link |
| ActorNode.CancelledTooSoon | actor_model/src/node.cpp:421-461 | it can be: after a birth with a link and a crash the one signal is needed, and cancelling it leaves a link to a dead process for good |
| ActorNode.Node.CancelSignal | actor_model/src/node.cpp:421-461 | the signal is gone, and no other |
| ActorSpread.SpreadStart | actor_model/src/process.cpp:83-116 | the first death: every link is owed a signal |
| ActorSpread.SpreadsOn | actor_model/src/node.cpp:515-601 | each delivery kills only the doomed, whatever is delivered first; those it spares lose the link and are told of it if they trap exits |
| ActorSpread.SpreadOut | actor_model/src/node.cpp:515-668 | when no signal is left exactly the doomed are dead, and everybody else has lost just the links to them, has one message for each if it traps exits, and keeps its names and timed messages |
| ActorSpread.WholeComponent | actor_model/src/node.cpp:515-668 | if nobody traps exits, the doomed of an end that is not normal are the connected component, and the others are as they were |
| ActorSpread.NobodyElse | actor_model/src/node.cpp:585-590 | a normal end dooms nobody else, whoever traps exits |
| ActorNode.Node.Spawn | actor_model/src/node.cpp:80-128 | a fresh process, linked to the given one if that is live |
| ActorNode.Node.Send | actor_model/src/node.cpp:148-163 | a message reaches just the mailbox of a live process |
| ActorNode.Node.SendAfter | actor_model/src/node.cpp:183-326 | a timed message is kept exactly if its process is live |
| ActorNode.Node.TimerCallback | actor_model/src/node.cpp:481-513 | the target of a timer is always live; the message arrives, and stays only if it recurs |
| ActorNode.Node.Signal | actor_model/src/node.cpp:328-374 | a signal is put on its way |
| ActorNode.Node.Exit | actor_model/src/node.cpp:463-479 | an exit signal from one pid to another is put on its way |
| ActorNode.Node.SignalLinks | actor_model/src/process.cpp:83-100 | exactly one signal with the exit reason to every link, in any order |
| ActorNode.Node.Link | actor_model/src/process.cpp:148-170 | a link in both directions if the other process is live |
| ActorNode.Node.Unlink | actor_model/src/process.cpp:172-194 | no link in either direction; true exactly if there was one to another live process |
| ActorNode.Node.Terminate | actor_model/src/node.cpp:618-668 | timed messages, signals and names of the process are gone, no name stands for it, the process is gone if there was one, and its links are told |
| ActorNode.Node.ExitProcess | actor_model/src/process.cpp:102-116 | a process ends for the reason it gives |
| ActorNode.Node.ProcessSignal | actor_model/src/node.cpp:534-601 | unlinks first; then a message for a process that traps exits unless the reason is kill, nothing for a normal reason, and death otherwise, for no reason of its own |
| ActorNode.Node.SignalTimerCallback | actor_model/src/node.cpp:515-532 | the signal is processed and forgotten; processes get fewer, or signals do |
| ActorNode.Node.DeliverAll | actor_model/src/node.cpp:515-532 | delivery terminates in whatever order timers fire |
| ActorNode.Node.ExitAndSpread | actor_model/src/node.cpp:515-668 | with no signals on their way, an end for any reason kills exactly those reached through links whose signals are fatal: kill always, others but normal unless exits are trapped; in any order of delivery |

## Left out

- Block headers, code-length codes as they are transmitted, gzip and zlib headers and trailers: a block is given by its codes and the position of its first item, or by the bytes stored.
- Which codes `trees.c` chooses, and whether it stores a block: the results hold for all codes that cover the tokens, and for stored blocks.
- `deflate_stored`, which copies the input into stored blocks without any matching and so shares none of the state modelled here but the window.
- `deflateParams` and `deflateTune`: level, strategy and the limits of the search are chosen at the start, and the results hold for every choice, but a change between two calls is not modelled.
- `deflateBound`, which estimates sizes of output that is not written here, and `deflateCopy`, which duplicates the state.
- The frequency counters the tally macros increment, and the limits ENOUGH_LENS and ENOUGH_DISTS being maxima, which an exhaustive search established.
- FASTEST, UNALIGNED_OK, NOBYFOUR and big-endian variants, INFLATE_STRICT, INFLATE_ALLOW_INVALID_DISTANCE_TOOFAR_ARRR and assembler variants.
- `state->back` and `state->was`, which serve only inflateMark, the flush argument of `inflate`, and its return codes.
- InflateStream.Inflater.Inflate: takes from the header of a block only where its content begins and what its codes are or how long it is; it assumes that the window can be allocated, and the failure is modelled in `InflateWindow.Window.Update` only.
- InflateStream.Begin: the bits of the header count as read once the input before the content is there.
- Deflate.Deflater.constructor: level 0, which `deflate_stored` serves.
- Deflate.Deflater.Deflate: the output is full or not by the choice `FlushBlock` makes, so there is room for headers and for what is pending when the compressor is called; a compressor that has begun the last block takes no more input, which `deflate` reports as an error; and a call that brings nothing new and repeats the flush of the one before, which `deflate` refuses with Z_BUF_ERROR, is made here like any other.
- InflateBlock.BuildTables: keeps the two tables in two arrays instead of one after the other in `codes`.
- Deflate.Deflater.FlushBlock: that the output is full is a choice, and nothing is written.
- Deflate.Deflater.ZeroAfter: that no byte is read before it is written is stated through `high_water`, not tracked byte by byte.
- Crc32.MakeCrcTable: takes the polynomial as a constant, and makes the first four of the eight tables.
- Base64Decode.DecodeValue: gives the 80 table entries by ranges of characters.
- Base64Decode.Decoder.DecodeBlock: `|=` on bits that are known to be clear is written as addition.
- ActorNode.Node.Terminate: removes every entry for the process by value, as said above.
- ActorNode.Node.Send: mailboxes are never full.
- ActorNode.Node.SendAfter: timers can always be created and started.
- ActorNode.Node.Signal: timers can always be created and started.
- Names and flags that are only set or read (`RegisterName`, `Unregister`, `WhereIs`, `TrapExit`) have no row above.
- ActorNode.Node.Spawn: the pid is a parameter nobody is linked to, because fresh identifiers are assumed.
- Tasks, behaviours, ancestors, modules and functions of processes, and supervisors.
