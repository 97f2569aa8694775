# The media path of an on-demand MP4 packager, verified

The packager answers requests for parts of fragmented MP4 responses that it never stores: headers it
builds, followed by byte ranges of a source file, perhaps cut to a clip, decrypted, or encrypted
under `cbcs` on the way. This project models that byte-exact path in Dafny and proves what it is for.

| file | models |
|---|---|
| `Common.dfy` | bytes, results, concatenation, big-endian numbers |
| `Ranges.dfy`, `Plans.dfy`, `Streaming.dfy` | `src/http/range.rs`, `src/http/stream.rs`: an interval of a response, read with few reads, sent in order |
| `Bits.dfy`, `Syntax.dfy` | `src/cenc/bits.rs`: emulation prevention, the bit reader, exp-Golomb codes, and elements both video codecs share |
| `Avc.dfy`, `AvcSets.dfy`, `AvcTables.dfy`, `AvcLimits.dfy` | `src/cenc/avc.rs`: H.264 slice headers and parameter sets, with printers; the slice header table over the bits of the sets; how long headers get |
| `ReferenceSets.dfy`, `Hevc.dfy`, `HevcPrinter.dfy`, `HevcExact.dfy` | `src/cenc/hevc.rs`: H.265 reference picture sets and slice segment headers; all that is written is read, all that is read was written |
| `Cipher.dfy`, `Decryption.dfy`, `Subsamples.dfy`, `Segment.dfy` | `src/cenc/cipher.rs`, `src/cenc/source.rs`, `src/media/protection.rs`, `src/cenc/segment.rs`: Common Encryption in place |
| `SliceProtection.dfy` | `src/cenc/segment.rs`: which bytes of a sample are encrypted, in terms of the headers written in it |
| `SourceTables.dfy` | `src/mp4/protection.rs`, `src/media/protection.rs`: what a source's `senc` boxes say of each sample |
| `Schedule.dfy` | `src/cenc/keys.rs`, `src/cenc/schedule.rs`: key periods and their segments |
| `Samples.dfy` | `src/media/samples.rs`: the compact sample index |
| `Boxes.dfy`, `Fragment.dfy`, `Muxed.dfy`, `AuxInfo.dfy`, `SampleGroups.dfy` | `src/fmp4/fragment.rs`: fragment headers, their offsets, and readers that follow them |
| `Delivery.dfy` | a finished segment, read by a player that knows only its boxes and its key |
| `Clip.dfy`, `Sequence.dfy` | `src/clip.rs`, `src/sequence.rs`: clips placed on one timeline |

Three ideas recur. A bit reader holds the first bytes of a longer *tape* of bits, and every method of
it agrees with a function of the tape exactly as far as its bytes reach; two attempts on more and
fewer bytes can then be compared without comparing runs. Parsers come with printers, and an
*exactness* lemma says that a parser reads a value precisely where that value is written. Work done
in place on an array is specified by splicing a function of the old contents into it.

AES is an abstract pair of functions on 16-byte blocks with `decrypt(encrypt(b)) == b`. The file is a
sequence of bytes. A stream is allowed some number of reads and some number of sends, which stand for
the environment; those succeed and the next one fails. Error kinds and messages are not kept.

## Where the code does less than it may seem to

* `header_bits` of `src/cenc/avc.rs` looks at 4096 bytes of a NAL unit. The syntax table of section
  7.3.3 of ITU-T H.264 allows longer headers: `AvcLimits.SomeHeaderIsTooLong` gives one, with two
  reference lists each changed 64 times, 64 weights and 64 markings, and shows that it is refused whatever
  follows it. `Avc.HeaderBitsInvertsPrinter` and `Avc.WrittenReadsBack` say exactly when a header is
  found, which is when it fits the unescaped bytes of those 4096. That header's weights and picture
  numbers lie outside the ranges of section 7.4.3; `AvcLimits.InRangeReadsBack` says that every header
  within them is found.
* `clear_bytes` of `src/cenc/hevc.rs` looks at 64 KiB. `HevcExact.ClearBytesExact` says exactly when a
  header is found, and `HevcExact.SomeHeaderIsTooLong` gives one, with 16384 entry points, that is not.
* The H.265 parser takes a number that names none of the listed long-term pictures for a picture that
  is not used; the headers called written here include those.
* An empty segment plan leaves a rotating asset without periods, and `for_segment` then answers with
  the keys of the first encrypted period for any number: `Schedule.EmptyPlanHasFirstKeys`.
  `Schedule.KeysFollowTimeline` is about the segments a plan has, so it is not affected.
* `finish` of `src/mp4/protection.rs` expects the number of all subsamples to fit 32 bits because every
  `senc` entry was checked; the last entry's own subsamples were not. `SourceTables.AuxBuilder.Finish`
  fails, where the code would panic, exactly when there are more than 2^32 - 1.
* A `seig` entry keeps only four bits of each pattern number. The patterns in use, 1:9 and none, fit;
  `AuxInfo.SeigReads` says that reading back succeeds exactly when they do.

## Model

| member | source | states |
|---|---|---|
| `Ranges.AcceptedIsInside` | src/http/range.rs:30-73 | every interval a `Range` header is accepted for is non-empty and inside the response |
| `Ranges.PrintedRangeReads` | src/http/range.rs:30-73 | a printed `bytes=first-last` header reads back as that interval, cut to the response |
| `Ranges.AcceptedIsRange` | src/http/range.rs:30-73 | whatever is accepted reads `bytes=a-b` with the numbers of its interval, one of them perhaps left out |
| `Ranges.StaleIsWhole` | src/http/range.rs:30-48 | the whole response is sent exactly when no range is asked for, or one of another version; a list of ranges is refused |
| `Streaming.RequestedPieces` | src/http/stream.rs:145-159 | the pieces hold exactly the requested part of the ranges' bytes, in order, none of them empty |
| `Plans.Coalesce` | src/http/stream.rs:324-365 | the reads serve every piece once in order, each fits a chunk or is one larger piece, gaps and their budget are kept, and no read could have taken in the next piece |
| `Plans.CoalescedBudget` | src/http/stream.rs:210-216 | any such plan reads at most the payload and 256 KiB |
| `Plans.InterleavedWindows` | src/http/stream.rs:256-320 | windows hold every piece under its run, are as large as the limits allow, hold back at most 4 chunks, and read less than the coalesced plan |
| `Plans.InterleavedBudget` | src/http/stream.rs:256-320 | windows of disjoint runs read at most the payload and 256 KiB |
| `Plans.SortedOk` | src/http/stream.rs:256-300 | sorting by offset ascends, loses nothing, and keeps each run's order |
| `Plans.RunsAreDisjoint` | src/http/stream.rs:256-290 | the pieces of one run move forward without overlap |
| `Plans.EligibleIs` | src/http/stream.rs:256-288 | pieces may be read together exactly when they go back in the file one to three times, none is larger than a chunk, and at most 4 chunks follow the first way back |
| `Streaming.Joined` | src/http/stream.rs:43-110 | the pieces cut out of one read are their bytes in response order |
| `Streaming.Route` | src/http/stream.rs:111-143 | a window's members extend the held buffer of their own run, or go out at once when their run is the first |
| `Streaming.RunsInOrder` | src/http/stream.rs:256-290 | the runs one after another are the pieces in response order |
| `Streaming.StreamJob.SendSplit` | src/http/stream.rs:43-110 | a piece larger than a chunk goes out as its own bytes, a chunk at a time, reading no byte twice; an error means that every allowed read or send was made with bytes still to send |
| `Streaming.StreamJob.StreamCoalesced` | src/http/stream.rs:43-110 | what is sent grows by exactly the planned pieces' bytes; by a proper prefix of them exactly when the allowed reads or sends are used up before |
| `Streaming.StreamJob.StreamInterleaved` | src/http/stream.rs:111-143 | the same for windows out of file order, with at most 4 chunks held at any time |
| `Streaming.StreamJob.Stream` | src/http/stream.rs:43-110 | for every header, range list, chunk size and interval, the chunks sent are the requested slice of header and ranges, whichever plan is taken; every chunk and read fits the chunk size, at most 256 KiB more than the payload is read; an error means that all the reads or all the sends the environment allows were made and that a proper prefix is out, and cannot happen when it allows a send for every byte wanted and a read for each of those and of 256 KiB more, and one |
| `Bits.Rbsp.constructor` | src/cenc/bits.rs:14-33 | the loop computes the unescaped bytes and origins of the first `limit` NAL bytes |
| `Bits.UnescapeInvertsEscape` | src/cenc/hevc.rs:1196-1208 | unescaping undoes the escaping of section 7.3.1, for every byte string |
| `Bits.OriginMapsBack` | src/cenc/bits.rs:14-33 | origins increase strictly and name equal bytes of the NAL unit |
| `Bits.CoveringIsShortest` | src/cenc/bits.rs:46-53 | the covering count is the shortest NAL prefix that unescapes to all the bytes holding the bits, and exists exactly when there are that many |
| `Bits.UnescapedKeeps` | src/cenc/bits.rs:14-33 | at least two bytes of three survive unescaping |
| `Bits.UeExact` | src/cenc/bits.rs:96-109 | `ue` reads a value precisely where its code of section 9.1 lies; every value to 2^32 - 2 has one |
| `Bits.SeExact` | src/cenc/bits.rs:111-115 | `se` reads a value precisely where its code of section 9.1.1 lies |
| `Bits.BitsExact` | src/cenc/bits.rs:73-84 | fixed-width reads are exact |
| `Bits.PackedHolds` | src/cenc/bits.rs:66-71 | whole bytes packed from bits hold those bits, first bit highest |
| `Bits.BitReader.Bit` | src/cenc/bits.rs:66-71 | the reader agrees with its tape while its bytes reach, and fails after them |
| `Bits.BitReader.Bits` | src/cenc/bits.rs:73-84 | the same for several bits; more than 32 are refused |
| `Bits.BitReader.Skip` | src/cenc/bits.rs:86-93 | the same for skipping |
| `Bits.BitReader.Ue` | src/cenc/bits.rs:96-109 | the same for `ue` |
| `Bits.BitReader.Se` | src/cenc/bits.rs:111-115 | the same for `se` |
| `Syntax.OpsExact` | src/cenc/avc.rs:241-303 | runs of at most 64 list changes or markings, up to their terminator, read exactly |
| `Syntax.FlaggedSesExact` | src/cenc/avc.rs:259-276 | a flag and the weights it announces read exactly |
| `Avc.PictureExact` | src/cenc/avc.rs:167-180 | the picture fields read exactly, under any parameter sets |
| `Avc.OrderExact` | src/cenc/avc.rs:181-195 | the picture order count fields read exactly |
| `Avc.ReferencesExact` | src/cenc/avc.rs:196-211 | counts and list changes read exactly |
| `Avc.WeightsExact` | src/cenc/avc.rs:212-214 | the weight table over the active references reads exactly |
| `Avc.HeaderExact` | src/cenc/avc.rs:133-234 | a whole slice header reads exactly: the parser gives a header and stops at its end precisely where that header is written, before any bits |
| `Avc.HeaderBits` | src/cenc/avc.rs:133-234 | the reader, field by field over one moving cursor, finds the length of the header on the tape |
| `Avc.ListModification` | src/cenc/avc.rs:241-257 | the loop ends where the run of changes does, or refuses with it |
| `Avc.PredWeightTable` | src/cenc/avc.rs:259-276 | the loop ends where the table of that many references does |
| `Avc.DecRefPicMarking` | src/cenc/avc.rs:278-303 | the loop ends where the run of markings does |
| `Avc.HeaderBitsInvertsPrinter` | src/cenc/avc.rs:133-234 | of any NAL unit that starts with a written header, its exact length is found if it fits the bytes looked at, and an error is given otherwise |
| `Avc.HeaderBitsFindsHeader` | src/cenc/avc.rs:133-234 | a length found is that of a header the NAL unit does start with |
| `Avc.WrittenReadsBack` | src/cenc/avc.rs:125-234 | the same for escaped NAL units; every header of up to 21840 bits is found |
| `AvcLimits.SomeHeaderIsTooLong` | src/cenc/avc.rs:14 | a header written by the syntax table, out of range in section 7.4.3, that the limit of 4096 bytes refuses |
| `Avc.ClearBytes` | src/cenc/avc.rs:125-130 | computes the clear bytes of the header found |
| `Avc.ClearBytesCoverHeader` | src/cenc/avc.rs:125-130 | the clear bytes are the shortest start of the NAL unit that holds the header, never past its end; a header found is never reported as truncated |
| `AvcSets.ScalingExact` | src/cenc/avc.rs:413-424 | scaling lists, whose length depends on the values met, read exactly |
| `AvcSets.SpsExact` | src/cenc/avc.rs:305-372 | sequence parameter sets of every profile read exactly where they are written |
| `AvcSets.PpsExact` | src/cenc/avc.rs:374-411 | so do picture parameter sets without slice groups |
| `AvcSets.SkipScalingList` | src/cenc/avc.rs:413-424 | the loop, which runs on past the last coded entry, stops where the list ends |
| `AvcSets.ReadSps` | src/cenc/avc.rs:305-372 | the reader gives the fields of the set on the tape |
| `AvcSets.ReadPps` | src/cenc/avc.rs:374-411 | the reader gives the fields of the set on the tape |
| `AvcSets.Update` | src/cenc/avc.rs:105-122 | a parameter set replaces the one with its number, other NAL units change nothing |
| `AvcSets.SpsTakenIn` | src/cenc/avc.rs:105-122 | a sequence parameter set is taken in exactly when one is written there, with exactly its fields |
| `AvcSets.PpsTakenIn` | src/cenc/avc.rs:105-122 | the same for picture parameter sets |
| `AvcTables.TableIsHeader` | src/cenc/avc.rs:133-234 | under sets taken in, headers are those the table of section 7.3.3 writes, every condition being on the flags the sets were written with |
| `AvcTables.SliceUnderSets` | src/cenc/avc.rs:105-234 | a track that takes in a printed sequence and picture parameter set finds every slice header the table writes for them, with its exact length, and no other under that picture set |
| `AvcTables.HighProfiles` | src/cenc/avc.rs:305-330 | exactly the thirteen profiles of section 7.3.2.1.1 have chroma, depth and scaling fields |
| `AvcLimits.SetsStayInRange` | src/cenc/avc.rs:305-411 | field widths and reference counts that the parsers take in stay within sections 7.4.2.1.1 and 7.4.2.2 |
| `AvcLimits.InRangeIsShort` | src/cenc/avc.rs:133-303 | a header whose list changes, weights and markings are in the ranges of section 7.4.3 takes at most 18000 bits |
| `AvcLimits.InRangeReadsBack` | src/cenc/avc.rs:14 | so every such header is found within the 4096 bytes, whatever follows it |
| `AvcSets.H264IsValid` | src/cenc/segment.rs:442-495 | H.264, with its own parameter sets taken in on the way, meets what the subsample loop asks of a codec |
| `Avc.AvcCodecIsValid` | src/cenc/segment.rs:442-495 | H.264 meets what the subsample loop asks of a codec |
| `ReferenceSets.ExplicitIsOrdered` | src/cenc/hevc.rs:443-466 | an explicit set has at most 16 pictures a side, strictly ordered and on their own side unless saturated |
| `ReferenceSets.DerivedIsOrdered` | src/cenc/hevc.rs:489-525 | equations 7-61 and 7-62 keep a set ordered, strictly if nothing saturates, and add at most one picture |
| `ReferenceSets.DerivedHolds` | src/cenc/hevc.rs:492-525 | a derived set holds exactly the pictures flagged to be kept, moved, each on the side its new order count puts it |
| `ReferenceSets.DerivedUsed` | src/cenc/hevc.rs:42-48 | the number of pictures a slice may use of a derived set is that of the flags set for pictures that do not land on the current one |
| `ReferenceSets.Derive` | src/cenc/hevc.rs:489-525 | the loops compute the derived set; every flag index is in bounds |
| `ReferenceSets.ReadSet` | src/cenc/hevc.rs:436-525 | the reader agrees with the set on the tape, refusing a set that names none before it |
| `ReferenceSets.SetsAreOrdered` | src/cenc/hevc.rs:658-663 | set `k` has at most 32 + k pictures, all ordered, strictly while no set up to it saturates |
| `ReferenceSets.ReadSets` | src/cenc/hevc.rs:658-663 | the loop over a parameter set's sets keeps all of this |
| `ReferenceSets.SetIsOrdered` | src/cenc/hevc.rs:428-434 | a slice's own set is ordered too, whichever earlier set it names |
| `Hevc.CeilLog2Is` | src/cenc/hevc.rs:418-424 | `ceil_log2` gives the least power of two that is large enough |
| `Hevc.SliceFields` | src/cenc/hevc.rs:238-369 | the reader of an independent segment's fields agrees with the tape |
| `Hevc.HeaderBits` | src/cenc/hevc.rs:171-231 | a header's end, rounded up past its alignment, is found exactly when the reader's bytes hold the header |
| `Hevc.Attempt` | src/cenc/hevc.rs:157-162 | an attempt on any number of bytes finds the header that the whole NAL unit has, as far as its bytes reach |
| `Hevc.ClearBytes` | src/cenc/hevc.rs:156-167 | trying 1024 bytes first and 64 KiB only on failure gives for every NAL unit what one attempt on 64 KiB gives |
| `Hevc.ClearBytesCoverHeader` | src/cenc/hevc.rs:156-231 | the result never exceeds the NAL unit and is its shortest start with every byte of the header and its alignment |
| `HevcPrinter.SetWritten` | src/cenc/hevc.rs:436-525 | a reference picture set, explicit or derived, reads back as the set its syntax means |
| `HevcPrinter.UsedAsWritten` | src/cenc/hevc.rs:42-48 | of any set, explicit or derived, it is the number of written `used` flags; list changes are written or not by this number |
| `HevcPrinter.LongTermWritten` | src/cenc/hevc.rs:274-304 | long-term pictures, listed or not, are counted as written |
| `HevcPrinter.ListWeightsWritten` | src/cenc/hevc.rs:386-416 | a list's flags and weights are read to their end |
| `HevcPrinter.PredictionWritten` | src/cenc/hevc.rs:316-347 | so are the prediction fields, whose lists depend on how many pictures the written flags let the slice use |
| `HevcPrinter.SliceWritten` | src/cenc/hevc.rs:238-369 | so are all fields of an independent segment |
| `HevcPrinter.HeaderWritten` | src/cenc/hevc.rs:171-231 | whatever header is written, dependent or not, under any parameter sets and before any bits, the parser stops exactly at its end |
| `HevcExact.SetParsed` | src/cenc/hevc.rs:436-525 | whatever is taken for a reference picture set is one written there, explicit or derived |
| `HevcExact.SliceParsed` | src/cenc/hevc.rs:238-369 | whatever is taken for the fields of an independent segment is written there |
| `HevcExact.HeaderExact` | src/cenc/hevc.rs:171-231 | under any parameter sets that the source takes in, the parser finds a header, and its end, precisely where one is written |
| `HevcExact.ClearBytesExact` | src/cenc/hevc.rs:156-231 | clear bytes are found exactly when a header is written at the start of the NAL unit and the first 64 KiB hold it with its alignment, and are exactly the bytes of both |
| `HevcExact.ClearBytesOfWritten` | src/cenc/hevc.rs:156-231 | of any NAL unit that starts with a given header its bytes are found, or an error is given exactly when it runs past the first 64 KiB |
| `HevcExact.SomeHeaderIsTooLong` | src/cenc/hevc.rs:156-167 | a header written by the syntax table that the limit of 64 KiB refuses |
| `Hevc.HevcCodecIsValid` | src/cenc/segment.rs:498-551 | H.265 meets what the subsample loop asks of a codec |
| `Cipher.EncryptRange` | src/cenc/cipher.rs:30-44 | the loop encrypts the pattern's blocks in place, chaining only through them, and changes nothing else in the array |
| `Cipher.DecryptInvertsEncrypt` | src/cenc/cipher.rs:30-44 | pattern CBC decryption undoes encryption and ends with the same chain, for any block permutation |
| `Cipher.ClearBytesStay` | src/cenc/cipher.rs:30-44 | bytes outside the selected whole blocks are unchanged |
| `Cipher.SelectedBlock` | src/cenc/cipher.rs:30-44 | a selected block is encrypted chained to the selected block before it, or to the IV |
| `Cipher.OneInTen` | src/cenc/cipher.rs:14-22 | the video pattern encrypts every tenth block from the first on, each chained to the one ten before |
| `Cipher.EveryBlock` | src/cenc/cipher.rs:14-22 | the audio pattern encrypts every whole block, each chained to the one before |
| `Cipher.XorOfBytes` | src/cenc/cipher.rs:38-40 | every bit of the exclusive or says whether the two bits differ |
| `Decryption.CtrStream.Apply` | src/cenc/source.rs:139-173 | over any split into calls, protected byte i is XORed with keystream byte i of counters iv, iv + 1, ... mod 2^128, carrying partial blocks; no other byte changes |
| `Decryption.StreamedSplit` | src/cenc/source.rs:139-173 | one stream over two runs is one stream over both |
| `Decryption.CounterDecryptTwice` | src/cenc/source.rs:44-107 | decrypting twice under `cenc` or `cens` is the identity |
| `Decryption.CencByRank` | src/cenc/source.rs:44-173 | under `cenc` the protected byte with r protected bytes before it in its sample is XORed with keystream byte r of iv, iv + 1, ..., and no other byte changes |
| `Decryption.SplitIsIrrelevant` | src/cenc/source.rs:44-173 | so two maps that protect the same bytes, however split, give the same sample |
| `Decryption.ProtectedRanges` | src/cenc/source.rs:111-137 | the ranges are those of the subsamples, refused exactly when they do not add up to the sample |
| `Decryption.DecryptSample` | src/cenc/source.rs:44-107 | one sample decrypted in place under any of the four schemes; a sample that does not fit is left unchanged |
| `Decryption.SampleRoundTrip` | src/cenc/source.rs:44-107 | decrypting what was encrypted gives the sample back, under any of the four schemes |
| `Decryption.UnmaskedStay` | src/cenc/source.rs:44-107 | no byte outside the protected ranges changes |
| `Subsamples.PushSubsample` | src/cenc/segment.rs:555-566 | splitting a long clear run keeps which bytes are clear and protected, within 16 and 32 bits |
| `Subsamples.SubsamplesOf` | src/cenc/segment.rs:442-551 | the loop succeeds exactly when every NAL unit can be described in 42 entries, and its map protects exactly the bytes of slices past their headers, under the parameter sets seen so far |
| `Subsamples.MapTiles` | src/cenc/segment.rs:442-551 | clear and protected lengths add up to the sample; header and length prefixes stay clear |
| `Subsamples.NalUnitsTile` | src/cenc/source.rs:352-367 | the loop tells whether length-prefixed NAL units, none empty, cover the sample exactly |
| `Subsamples.EncryptableTiles` | src/cenc/source.rs:352-367 | every sample that can be encrypted passes that check of a decrypted sample |
| `SliceProtection.AvcUnitProtected` | src/cenc/segment.rs:442-495 | of any NAL unit of an H.264 sample, wherever it stands: types 1 and 5 start with a header written under the parameter sets met before, and exactly the bytes before which it is complete are protected; types 2 to 4 cannot occur; of all others no byte is |
| `SliceProtection.AvcSliceProtected` | src/cenc/segment.rs:442-495 | any slice written in an H.264 sample is protected from the byte before which its header is complete |
| `SliceProtection.AvcTakenIn` | src/cenc/avc.rs:105-122 | only units of the parameter set kinds change the parameters |
| `SliceProtection.HevcUnitProtected` | src/cenc/segment.rs:498-551 | the same of H.265: types 0 to 9 and 16 to 21 are protected past their header and alignment, 10 to 15 and 22 to 31 cannot occur, no byte of any other is |
| `SliceProtection.HevcSliceProtected` | src/cenc/segment.rs:498-551 | any slice segment written in an H.265 sample is protected from the byte after its header and alignment |
| `Segment.EncryptSegment` | src/cenc/segment.rs:384-421 | a payload is encrypted in place sample by sample under maps of its own samples, exactly when its length is that of its samples and every video sample's NAL units can be described in 42 entries; no byte changes but those of slices past their headers, in blocks the pattern selects |
| `Segment.UntouchedStay` | src/cenc/segment.rs:384-421 | no byte of a sample outside the selected blocks of its protected ranges changes |
| `Segment.WholeUntouchedStay` | src/cenc/segment.rs:384-421 | the same for samples encrypted whole |
| `Segment.SampleRestIsLeft` | src/cenc/segment.rs:384-421 | a sample keeps its NAL lengths, parameter sets, SEI and slice headers, and every skipped or partial block |
| `Segment.RestIsLeft` | src/cenc/segment.rs:384-421 | so does every sample of a segment's payload |
| `Segment.VideoSealed` | src/cenc/segment.rs:384-421 | in every protected range of a video sample one block in ten is encrypted, the first from the constant IV |
| `Segment.AudioSealed` | src/cenc/segment.rs:384-421 | of an audio sample every whole block is |
| `Segment.SegmentRoundTrip` | src/cenc/segment.rs:384-421 | a segment decrypts to every payload byte under its plan |
| `Segment.CbcsRoundTrip` | src/cenc/source.rs:44-107 | a source that names the same key, constant IV and maps reads back what the segment encryption wrote |
| `Segment.DecryptSegment` | src/cenc/segment.rs:308-324 | samples are decrypted in place by their index in the file, refused exactly when one is missing or does not fit |
| `SourceTables.AuxBuilder.PushSenc` | src/mp4/protection.rs:270-322 | the entries of a `senc` are listed after those before, exactly when it is whole, has the number expected and stays within the limits |
| `SourceTables.AuxBuilder.PushUnlisted` | src/mp4/protection.rs:326-335 | samples without an entry are listed with a constant IV, protected whole |
| `SourceTables.AuxBuilder.Finish` | src/mp4/protection.rs:337-346 | the tables give every sample listed its own IV and map, and other samples nothing |
| `SourceTables.SencWritten` | src/mp4/protection.rs:270-322 | a `senc` written for a list of samples reads back as that list |
| `SourceTables.IvIs` | src/media/protection.rs:115-125 | an IV of 8 bytes is padded with zeros after it, one of 16 taken as it is, and the constant one used where there is none |
| `SourceTables.CencSample` | src/cenc/source.rs:44-173 | under `cenc` with IVs of 8 bytes, the protected byte of rank r in a sample is XORed with byte r mod 16 of the block made of that sample's own IV and r / 16, encrypted |
| `SourceTables.OwnSencReads` | src/mp4/protection.rs:270-322 | the packager's own `senc`, read as a source's, gives back every map |
| `SourceTables.OwnOutputReads` | src/cenc/source.rs:44-107 | what the packager encrypts it can take as a source: listed samples give the payload back |
| `Schedule.Timeline` | src/cenc/keys.rs:293-323 | exactly the timelines that start at 0, increase, have keys and change them are accepted; one encrypted period is no rotation |
| `Schedule.SchedulePeriods` | src/cenc/schedule.rs:21-68 | the loop keeps every period some segment reaches, and refuses exactly when their first segments do not increase |
| `Schedule.KeptIsPrefix` | src/cenc/schedule.rs:38-66 | kept periods are the first ones, each from the first segment that reaches it on; dropped ones cover no segment |
| `Schedule.ScheduleStartsAtZero` | src/cenc/schedule.rs:38-66 | the first period begins at segment 0 |
| `Schedule.RefusedIffClash` | src/cenc/schedule.rs:54-61 | a schedule is refused exactly when some period would cover no segment although a later one does |
| `Schedule.Protect` | src/cenc/segment.rs:94-132 | an asset's periods are the scheduled ones under their own keys |
| `Schedule.KeysFollowTimeline` | src/cenc/segment.rs:201-223 | every segment of every track has the keys of the last listed period that starts at or before it, or is clear with it |
| `Schedule.KeysInRealTime` | src/cenc/schedule.rs:36-66 | in milliseconds from the start of the first segment, without rounding: a segment has the keys of the last period that starts no later than it does |
| `Schedule.ReachedIs` | src/cenc/schedule.rs:30-47 | a segment reaches a period when it starts as many milliseconds after the first segment, on the clock of its first part's track, compared exactly |
| `Schedule.UnplacedIsNotReached` | src/cenc/schedule.rs:30-34 | a segment without parts, or of a track that is not listed, reaches no period |
| `Schedule.EmptyPlanHasFirstKeys` | src/cenc/segment.rs:201-223 | with no segments planned, a rotating asset answers any number with its first keys |
| `Samples.FromSamples` | src/media/samples.rs:148-189 | the tables give back every sample they were built from |
| `Samples.SearchCounts` | src/media/samples.rs:95-121 | the arithmetic search splits the samples by decode time, over zero durations and gaps |
| `Samples.PartitionMatchesList` | src/media/samples.rs:252-258 | on any window and shift it counts exactly the samples before the time |
| `Samples.WindowIsSlice` | src/media/samples.rs:364-377 | a window is a slice of the list |
| `Samples.ShiftMoves` | src/media/samples.rs:379-392 | a shift moves every decode time, and fails exactly when the first or the end leaves 64 bits |
| `Samples.NestingMatchesList` | src/media/samples.rs:364-392 | any nesting of windows and shifts is the same nesting on the plain list |
| `Samples.SyncIndicesMatchList` | src/media/samples.rs:261-274 | the sync samples of a window are the list's |
| `Samples.NthSyncMatchesList` | src/media/samples.rs:281-299 | so is the n-th of them |
| `Samples.PayloadIsSum` | src/media/samples.rs:301-311 | payload sizes are the list's |
| `Samples.WindowNamesSource` | src/media/samples.rs:195-212 | after any nesting of windows and shifts, window start and position name the sample of the file it was cut from, moved by the sum of the shifts |
| `Samples.Iter.Next` | src/media/samples.rs:413-469 | the cursor gives the list's next sample and stays in step with every table |
| `Samples.ToVec` | src/media/samples.rs:353-357 | the collected iterator is the list slice |
| `Boxes.ReadAppend` | src/fmp4/fragment.rs:315-331 | boxes followed by boxes read as all of them |
| `Fragment.BuildTraf` | src/fmp4/fragment.rs:265-307 | the `traf` is written as laid out, refused only when a box needs 64 bits |
| `Fragment.BuildMoof` | src/fmp4/fragment.rs:249-262 | so is a `moof` of several tracks |
| `Fragment.MoofIsFixed` | src/fmp4/fragment.rs:179-180 | a `moof` is as long whatever offsets it holds |
| `Fragment.MoofReads` | src/fmp4/fragment.rs:249-307 | a reader of sections 8.8.3 to 8.8.12 of ISO/IEC 14496-12 finds every track's id, time, data offset and samples, video samples that are not sync samples marked so and no others, whatever boxes are added |
| `Muxed.CoalescedRanges` | src/fmp4/fragment.rs:211-227 | ranges hold the samples' bytes in order, and no two that could join are left apart |
| `Muxed.PrepareMuxedSegment` | src/fmp4/fragment.rs:118-209 | exactly the segments within limits, 32-bit sizes and 31-bit offsets are prepared, as laid out |
| `Muxed.PrepareMediaSegment` | src/fmp4/fragment.rs:43-113 | the same for one track |
| `Muxed.PreparedReadsBack` | src/fmp4/fragment.rs:118-209 | on success header and ranges tile into `moof` and `mdat`, following each data offset gives every sample's own source bytes, and the content length is exact |
| `AuxInfo.EncryptionBoxes` | src/fmp4/fragment.rs:522-569 | `senc`, `saiz` and `saio` are written exactly when every map has at most 42 entries, so that its size fits a byte, and the boxes fit 32 bits |
| `AuxInfo.SeigReads` | src/fmp4/fragment.rs:358-377 | a `seig` entry reads back exactly when its pattern fits four bits each |
| `AuxInfo.EntriesLand` | src/fmp4/fragment.rs:548-559 | prefix sums of the sizes land on every sample's entry |
| `AuxInfo.SaizReads` | src/fmp4/fragment.rs:548-559 | sizes read back, uniform or listed |
| `AuxInfo.EncryptedFragmentHeader` | src/fmp4/fragment.rs:469-520 | the two-pass header is built exactly when its maps and sizes can be written |
| `AuxInfo.ClearFragmentHeader` | src/fmp4/fragment.rs:420-459 | so is the header of a clear fragment of a rotating asset |
| `AuxInfo.EncryptedReadsBack` | src/fmp4/fragment.rs:469-569 | following `saio` and `saiz` finds every sample's subsample map and nothing more, with or without `seig` and `pssh` boxes |
| `SampleGroups.GroupsFound` | src/fmp4/fragment.rs:358-404 | a reader of sections 8.9.2 and 8.9.3 of ISO/IEC 14496-12 finds every sample in the fragment's one `seig` group, or in none when there is none |
| `SampleGroups.EncryptedGroups` | src/fmp4/fragment.rs:358-520 | the same beside the auxiliary information of an encrypted fragment |
| `AuxInfo.AuxBoxesAreLong` | src/fmp4/fragment.rs:522-569 | how long the boxes are, and whether they can be written, depends only on the number of each sample's subsamples |
| `Delivery.FinishCbcs` | src/cenc/segment.rs:384-437 | a segment is finished exactly when its samples can be encrypted and its boxes, as long as their numbers of subsamples make them, fit their fields; it then plays back, from its boxes, the key and the constant IV alone, as the payload given, and says of every sample that it is under its rotation's keys |
| `Delivery.PlaysBack` | src/cenc/segment.rs:384-437 | the same of the finished bytes: headers, maps and encryption agree |
| `Delivery.FinishClear` | src/cenc/segment.rs:347-362 | a clear fragment of a rotating asset is finished exactly when its header fits, reads back with its payload untouched, and says of every sample which group it is in |
| `Delivery.FinishDecrypt` | src/cenc/segment.rs:308-330 | exactly when a protected source says how to read every sample and what follows takes them, its samples reach a player decrypted, also when they are encrypted again on the way |
| `Delivery.FinishTrackSegment` | src/asset.rs:437-455 | the same of a segment of a track cut from its file in any way: each sample is decrypted with the IV and map the file's tables hold for it |
| `Clip.VideoWindowKeeps` | src/clip.rs:230-248 | a video window starts at the last keyframe shown by `from`, or the first, and is the shortest run with every later frame shown before `to` |
| `Clip.AudioWindowKeeps` | src/clip.rs:252-258 | an audio window runs from the frame that holds `from` up to the first at or after `to` |
| `Clip.FollowerWindowKeeps` | src/clip.rs:262-270 | a follower keeps exactly the samples that decode inside the reference's span |
| `Clip.WindowInTime` | src/clip.rs:186-222 | the reference's window is what `fromMs` and `toMs` ask for, later by the file's own offset, compared in units that need no rounding |
| `Clip.WindowRefused` | src/clip.rs:186-222 | a window is refused exactly when there are no samples, a time is beyond 64 bits, nothing is left to show, or no whole tick lies between its ends |
| `Clip.TicksRoundDown` | src/clip.rs:49-53 | positions and milliseconds in ticks round down, and fail exactly when 64 bits are left |
| `Clip.ReferenceIsFirst` | src/clip.rs:169-183 | cuts are decided on the first video track, or the first audio track when there is no video |
| `Clip.RescaleRoundsDown` | src/clip.rs:401-406 | rescaling rounds down and fails exactly when 64 bits are left or a clock stands still |
| `Clip.AfterRoundsDown` | src/clip.rs:55-64 | so does moving a position on by ticks |
| `Clip.Trim` | src/clip.rs:101-167 | a clip is trimmed exactly when each of its tracks can be placed and its length told, into those tracks |
| `Clip.MovedTrackOk` | src/clip.rs:273-306 | a track with its first sample at or after `origin` moves unless nothing is left or its end overflows |
| `Clip.NeverBeforeOrigin` | src/clip.rs:281-285 | the error for a sample before `origin` cannot occur |
| `Clip.ReferencePlaces` | src/clip.rs:113-142 | the reference track is placed exactly when its clip starts and ends within 64 bits of its ticks |
| `Clip.ReferenceShownFromStart` | src/clip.rs:113-142 | every kept reference frame is shown at or after the clip's start tick |
| `Clip.FollowerDecodesFromStart` | src/clip.rs:125-142 | every follower sample decodes at or after its own start tick |
| `Clip.FollowerStaysInSync` | src/clip.rs:125-142 | a follower's shift in real time differs from the reference's by less than two of its ticks one way, and one tick of each the other |
| `Sequence.PlaceClips` | src/sequence.rs:76-99 | each clip starts where the one before ended, and only the last keeps trailing audio |
| `Sequence.DriftBound` | src/clip.rs:49-64 | after n clips the position is in (exact - n ns, exact] |
| `Sequence.NoGap` | src/clip.rs:144-159 | on equal clocks up to 10^9 the next clip starts at the tick the reference ends at or the one before |
| `Sequence.ReferenceEndsAt` | src/clip.rs:144-159 | a placed reference track ends at its start tick plus the clip's length |
| `Sequence.Number` | src/sequence.rs:166-174 | each clip's first number counts the segments before it, unless there are too many for 32 bits |
| `Sequence.LocateFinds` | src/sequence.rs:337-352 | a global segment is found in the one clip that holds it, clips without segments included |

## Left out

- H.265 parameter sets as NAL units (`parse_sps` but for its reference picture sets, `parse_pps`, `profile_tier_level`) and the sample entries of both codecs: H.265 headers are proved under any parameter sets, and their update by in-band sets is a function.
- Concurrency and time: reads and sends are sequential steps; timeouts, semaphores and metrics are not modelled.
- Streaming.StreamJob.Stream: a chunk size of zero, which the configuration refuses, is excluded.
- AES, SHA-256 and token checks: foreign calls.
- `aes128.rs` and whole-segment encryption: padding under one call to a foreign cipher.
- Playlists and manifests, the registry, the resolver and the box parser: their results are inputs here.
- The segment planner: plans are inputs, with the order and numbering it gives them.
- `init.rs`, `adaptive.rs`, `composite.rs`, `selection.rs`: dispatch, or facts that repeat the ones proved.
- Compatibility of the clips of a sequence, and what they render to: comparisons of names.
- `check_keys`: which sample a key is tried on.
- Log lines and floating-point durations.
- Capacity hints and the splice of a header in front of its payload's buffer: the response is a new sequence of bytes.
