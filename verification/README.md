# FT8 transceiver: codec, transforms, message packing and the automatic QSO machine

This project models the logic of the RTL-SDR FT8 transceiver and proves what it is meant to do. Everything below
is stated for all inputs, all runs or all reachable states. Check it with `dafny verify dfyconfig.toml`.

The six parts, and the main theorem of each:

1. **Channel codec** (`bits`, `constants`, `crc`, `ldpc_rows`, `ldpc_code`, `ldpc_rank`, `ldpc_graph`, `encode`,
   `ldpc`, `waterfall`, `decode`, `reception`, `message_passing`, `fast_tanh`). 77 bits become 91 with a CRC, 174
   with parity, then Gray-coded tones; a waterfall becomes likelihoods, a decoded word and a payload.
   `Reception.CleanReceptionAccepts`: what is received without noise is accepted and comes back, for any functions
   in place of tanh and atanh and any iteration count. `LdpcRank.CodewordsAreEncoded`: the words that pass all 83
   parity checks are exactly those `encode174` produces, so that (`Reception.AcceptedExactly`) under any noise a
   payload is accepted exactly when the decoded word is the one it would have been sent as.
   `MessagePassing.MessageIsExact`: a belief propagation message is the exact odds of an odd sum of the check's
   other bits. `MessagePassing.OneErrorCorrected` says exactly when one reversed bit is set right in the second
   guess. The CRC loop computes the polynomial remainder, and the shift register's junk above bit 13 does not
   matter.
2. **Fourier transform** (`arithmetic`, `complex`, `dft`, `butterfly`, `bfly_generic`, `kiss_factor`, `kiss_fft`,
   `fft_inverse`, `fft_round_trip`, `root_table`). `KissFft.KissFftStride`: the recursive, strided, in-place
   mixed-radix transform with butterflies for radix 2, 3, 4, 5 and any other equals the defining sum, for every length
   up to 2^30 and every longer one whose running table index stays an `int`; `KissFft.RunningIndicesFit` says exactly
   which. `TransformRoundTrip.ForthAndBack`: transforming forth and back multiplies by the length.
3. **Messages** (`words`, `text`, `free_text`, `callsigns`, `type_four`, `standard`, `standard_calls`,
   `standard_message`, `message_type`, `over_the_air`). Free texts, standard messages and messages with nonstandard
   calls come back from their payloads, with the exact conditions; `over_the_air` joins this with part 1: what is
   encoded to tones at one end and received without noise is accepted and shown as the same text at the other.
4. **Candidates** (`candidates`). The bounded min-heap returns the best candidates, in order.
5. **Decimator and callsign table** (`cic`, `callsign_table`). The integrators wrap around without end and the output
   is the exact double moving sum; the probed table is a map.
6. **QSO machine and tone dither** (`callid`, `qso`, `qso_runs`, `qso_handler`, `heard_kinds`, `dither`,
   `tx_symbol`). Every run of the handler, stated on the trace of what it opened, heard and queued:
   `QsoRuns.PassTransmits` says that each pass transmits exactly what the trace owes, no more and no less. An exact
   bound on the dither.

Methods keep the source's form (arrays changed in place, objects with fields, loops) and are proved against
specification functions; the lemmas then state what those functions mean.

Where the code differs from its own documentation, or does less than one would expect, the code is followed:

- The decimator takes one output every `DOWNSAMPLING + 1` samples, because the counter is tested with `<=`, and its
  combs look two outputs back (`rtlsdr_ft8d.cpp:191-216`; `dsp-chain.md` describes ratio R and a delay of one).
- A report received in `replyRR73` leads back to `replySig` (`qsoHandler.cpp:646-656`); the table at
  `qsoHandler.cpp:512-549` says it stays.
- `setupDMATab` compares the integer parts of the divider for tones 0 and 3 only, while eight tones are sent: its own
  assertion fails exactly when some tone lies just above a whole part of the source clock (`Dither.SetupDMATab`). With
  a spacing finer than a step of the divider that is exactly when the comparison, made with tone 7 instead of tone 3,
  would find a difference (`Dither.AgreesExactly`), so it fails whenever the centre is moved
  (`Dither.MovedCentreFails`; `Dither.FifthToneSplits` is an instance).
- The generic butterfly keeps its running table index in an `int` and adds a stride before it subtracts the length
  (`libft8/fft/kiss_fft.c:217-221`). For a length n with the part s that radices 2, 3, 4 and 5 take, the sum is an
  `int` exactly when 2(n - s) is (`KissFft.RunningIndicesFit`); for n = 7 * 2^28 it is not
  (`KissFft.LongLengthOverflows`).
- A sender's call in brackets is never sent in a message with a nonstandard call, although the encoder has a branch
  for it (`TypeFour.FlippedIsRefused`, `TypeFour.BracketedIsRefused`): its hash and its packed text are both refused.
- The CRC function returns the CRC of the first bits exactly when the unused bits of the last byte are clear
  (`Crc.CrcNeedsClearTail`); its callers clear them.
- The all-zero payload is sent as all zeros and never accepted (`Reception.ZeroPayloadRejected`): under FT8 that is
  every free text without a character that is neither a space nor unknown (`OverTheAir.FreeTextOverTheAir`).
- Calls that start with a literal `Q` and a letter, or a literal `3D0` and letters, come back as other calls
  (`Standard.BaseReturns`, `StandardMessages.QCallChanges` names one); the report `-00` and reports below -30 do not
  come back (`StandardMessages.ReportComesBack`).
- The hash of worked stations takes calls that differ by leading zeros only for the same
  (`CallIds.ShortCallsCollide`), and when the list of 512 is full the index starts over and earlier stations are
  forgotten (`QsoRuns.AddedIsFound`).

## Model

| member | source | states |
|---|---|---|
| `Bits.BitsOfSet` | libft8/ft8/encode.c:34-62 | setting the bit under the moving mask of one byte sets one bit of the buffer and no other |
| `Bits.BitsOfInjective` | libft8/ft8/encode.c:22-63 | a buffer is determined by its bit string |
| `Crc.CrcIsRemainder` | libft8/ft8/crc.c:10-37 | exactly one 14-bit string appended to a message makes it a multiple of x^14 + 0x2757, and it is the CRC |
| `Crc.BurstDetected` | libft8/ft8/crc.c:10-37 | two messages that differ only inside a window of at most 14 bits have different CRCs |
| `Crc.Iteration` | libft8/ft8/crc.c:17-34 | one turn of the loop keeps the 16-bit word equal, below bit 14, to the register and the unfed rest of the byte |
| `Crc.ComputeCrc` | libft8/ft8/crc.c:10-37 | for any buffer and bit count the word returned is the CRC of those bits plus what is left of the last byte |
| `Crc.CrcNeedsClearTail` | libft8/ft8/crc.c:10-37 | that word is the CRC exactly when the unused bits of the last byte are clear |
| `Crc.ExtractedBits` | libft8/ft8/crc.c:39-43 | extraction reads the 14 bits from place 77 on |
| `Crc.AddCrc` | libft8/ft8/crc.c:45-63 | twelve bytes hold the payload's 77 bits, their CRC after five zeros, and five zeros, whatever follows bit 77 |
| `LdpcCode.DotLinear` | libft8/ft8/encode.c:36-62 | a parity sum is linear in the generator row |
| `LdpcCode.EncodedPassesCheck` | libft8/ft8/ldpc.c:111-128 | each parity check names seven or six codeword bits whose generator columns cancel, so every encoded message passes it |
| `LdpcCode.EncodedIsCodeword` | libft8/ft8/constants.c:30-203 | every 91-bit message encoded with the generator meets all 83 checks of the parity table |
| `LdpcCode.AllOnesIsNoCodeword` | libft8/ft8/constants.c:119-203 | no codeword is all ones |
| `LdpcRank.SumIsCodeword` | libft8/ft8/ldpc.c:111-128 | the sum of two words that pass all checks passes them too |
| `LdpcRank.ZeroMessageZeroWord` | libft8/ft8/constants.c:119-203 | a word that passes all checks and has a zero message is zero: the 83 checks determine the 83 parity bits |
| `LdpcRank.CodewordsAreEncoded` | libft8/ft8/ldpc.c:111-128 | a word passes all 83 checks exactly when it is the encoding of its first 91 bits |
| `LdpcGraph.TablesTransposed` | libft8/ft8/constants.c:119-383 | check m names bit n exactly when bit n lists check m |
| `LdpcGraph.OneMessageLeftOut` | libft8/ft8/ldpc.c:181-189 | of the three messages to a bit that a check names, exactly one comes from that check and is left out |
| `LdpcGraph.OneFactorLeftOut` | libft8/ft8/ldpc.c:200-207 | of the messages to a check that a bit lists, exactly one comes from that bit and is left out |
| `LdpcCode.Parity8` | libft8/ft8/encode.c:8-14 | folding a byte onto itself tells whether an odd number of its bits is set |
| `LdpcCode.ChecksumBit` | libft8/ft8/encode.c:41-52 | the twelve-byte loop computes the message's inner product with a generator row |
| `LdpcCode.Encode174` | libft8/ft8/encode.c:22-63 | 22 bytes hold the codeword of the first 91 bits and two clear bits, when the five spare bits are clear |
| `Encoder.TransmissionLayout` | libft8/ft8/encode.c:65-195 | every data symbol carries its own group of codeword bits through the Gray map, every other place its Costas or ramp tone |
| `Encoder.EncodePayload` | libft8/ft8/encode.c:65-75 | the codeword bytes of a payload spell the codeword of its 77 bits with their CRC |
| `Encoder.Ft8Encode` | libft8/ft8/encode.c:65-125 | the 79 tones are the FT8 transmission of the payload's codeword |
| `Encoder.Ft4Encode` | libft8/ft8/encode.c:127-195 | the 105 tones are the FT4 transmission of the whitened payload's codeword |
| `Encoder.WhitenTwice` | libft8/ft8/constants.c:16-27 | whitening is its own inverse |
| `BeliefPropagation.LdpcCheck` | libft8/ft8/ldpc.c:111-128 | the loop counts the failed parity checks of a word |
| `BeliefPropagation.NoFailures` | libft8/ft8/ldpc.c:111-128 | the count is zero exactly for codewords |
| `BeliefPropagation.BpDecode` | libft8/ft8/ldpc.c:130-213 | the in-place message passing returns the word and the error count of its specification; no iteration leaves the word alone and reports 83 |
| `BeliefPropagation.BitsToChecks` | libft8/ft8/ldpc.c:173-190 | messages from bits to checks are products' inputs that leave out the check's own message |
| `BeliefPropagation.ChecksToBits` | libft8/ft8/ldpc.c:192-210 | each cell gets minus twice the inverse tangent of the product of what the other bits of the check tell it, the bit's own message left out; `MessagePassing.MessageIsExact` and `MessagePassing.MessageIsAnswer` say what that value and its sign mean |
| `BeliefPropagation.RoundsStop` | libft8/ft8/ldpc.c:143-171 | decoding goes on until an all-zero guess, a codeword or the last iteration, and stops there |
| `BeliefPropagation.ZeroErrorsIffCodeword` | libft8/ft8/ldpc.c:130-171 | zero errors are reported exactly when the word returned is a nonzero codeword |
| `BeliefPropagation.LeastFailuresIsLeast` | libft8/ft8/ldpc.c:158-171 | the count reported is the least over all guesses tested, or 83 |
| `MessagePassing.MessageIsExact` | libft8/ft8/ldpc.c:173-210 | with the exact functions, the odds of a message are the total weight of the ways to set the other bits of the check to an odd sum over that of the ways to an even sum, each bit weighing by its likelihood and its messages from other checks |
| `MessagePassing.MessageIsAnswer` | libft8/ft8/ldpc.c:192-210 | with functions that keep the sign, a check tells a bit, strictly, the value that makes the check hold given what its other bits point to, whatever the bit itself says |
| `MessagePassing.CodewordTells` | libft8/ft8/ldpc.c:192-210 | when all likelihoods and messages of the other bits point to a codeword, each message to a bit in the next iteration points strictly to its bit |
| `MessagePassing.AgreementLasts` | libft8/ft8/ldpc.c:143-211 | likelihoods that point to a codeword have the messages of every later iteration point to it, and every guess be it |
| `MessagePassing.ReversedBitDecided` | libft8/ft8/ldpc.c:145-151 | a bit whose likelihood alone points the wrong way is decided right exactly when its three messages outweigh that likelihood, a tie being decided 0 |
| `MessagePassing.FirstMessages` | libft8/ft8/ldpc.c:173-210 | after one reversed bit, the first messages point to the codeword except those to other bits of the checks that name it, which point the other way |
| `MessagePassing.OneErrorCorrected` | libft8/ft8/ldpc.c:130-213 | with one bit reversed the first guess is rejected, the second is the codeword exactly when every bit's right messages and likelihood outweigh the wrong ones, and then it is returned with no errors |
| `MessagePassing.OneErrorAccepted` | libft8/ft8/decode.c:327-388 | a reception with one reversed bit is accepted with its payload under that condition |
| `FastTanh.FastTanhSign` | libft8/ft8/ldpc.c:221-239 | the rational tanh keeps the sign and never exceeds 1.016, although it exceeds 1 |
| `FastTanh.FastKeepsSign` | libft8/ft8/ldpc.c:221-251 | the two rational functions of the source keep the sign as far as the lemmas about messages ask for: atanh on products of up to six values of tanh |
| `Decoder.BinInWaterfall` | libft8/ft8/decode.c:52-59 | every bin of a recorded symbol lies inside the waterfall |
| `Decoder.RecordedExactly` | libft8/ft8/decode.c:264-300 | a symbol counts as recorded exactly when its bins lie inside the waterfall |
| `Decoder.Ft8ExtractLikelihood` | libft8/ft8/decode.c:279-304 | the array holds three likelihoods for each of 58 data symbols, zeros where a symbol was not recorded |
| `Decoder.Ft4ExtractLikelihood` | libft8/ft8/decode.c:253-277 | the array holds two likelihoods for each of 87 data symbols, zeros where a symbol was not recorded |
| `Decoder.Ft8ExtractSymbol` | libft8/ft8/decode.c:469-482 | for any levels, ties included, each of three cells gets the best level whose index has that bit set less the best whose index has it clear; nothing else changes |
| `Decoder.Ft4ExtractSymbol` | libft8/ft8/decode.c:454-466 | for any levels, ties included, each of two cells gets the best level whose index has that bit set less the best whose index has it clear; nothing else changes |
| `Decoder.Symbol8Leads` | libft8/ft8/decode.c:469-482 | each likelihood of an FT8 symbol is s[i] - s[j] with i having the bit and no such level above s[i], j lacking it and no such level above s[j] |
| `Decoder.Symbol4Leads` | libft8/ft8/decode.c:454-466 | the same for the two likelihoods of an FT4 symbol |
| `Decoder.LeadIsUnique` | libft8/ft8/decode.c:454-482 | that difference is one number, whichever of equal levels is taken |
| `Decoder.NormalizeLogl` | libft8/ft8/decode.c:306-325 | all likelihoods are scaled by one factor of their variance |
| `Decoder.PackBits` | libft8/ft8/decode.c:569-592 | the packed bytes spell the bits and then zeros |
| `Decoder.CrcVerdict` | libft8/ft8/decode.c:350-364 | the two CRC words are equal exactly when the 91 bits are 77 bits with their CRC |
| `Decoder.CheckAndUnpack` | libft8/ft8/decode.c:347-376 | a word is accepted exactly when its first 91 bits are 77 bits with their CRC, and its payload is those 77 bits |
| `Decoder.DeliverPayload` | libft8/ft8/decode.c:367-385 | the payload handed over is the one whose form on the air was decoded |
| `Decoder.DecodeCandidate` | libft8/ft8/decode.c:327-388 | a candidate is accepted exactly when its specified outcome is, with that payload; a rejected one changes nothing |
| `Reception.Symbol8Points` | libft8/ft8/decode.c:469-482 | when one of eight levels is the strict maximum, the signs of the three likelihoods spell its index |
| `Reception.GrayNeighbours` | libft8/ft8/constants.c:12-14 | neighbouring tones stand for numbers that differ in one bit |
| `Reception.CostasMeetsOnce` | libft8/ft8/constants.c:3-4 | the FT8 synchronisation pattern, moved in time and frequency, meets itself in at most one tone |
| `Reception.CleanPrefix` | libft8/ft8/decode.c:253-304 | without noise all likelihoods point to the codeword sent |
| `Reception.VarianceSign` | libft8/ft8/decode.c:306-318 | the variance is never negative, and positive when two likelihoods differ |
| `Reception.VarianceIsMeanSquare` | libft8/ft8/decode.c:306-318 | the variance computed from the two sums is the mean squared distance from the mean |
| `Reception.NormalizedVariance` | libft8/ft8/decode.c:319-325 | scaling multiplies the variance by the square of the factor, so that the factor of the source leaves 24 |
| `Reception.DecodesPointedWord` | libft8/ft8/ldpc.c:130-171 | a nonzero codeword that all likelihoods point to is returned in the first iteration with no errors |
| `Reception.CleanReceptionAccepts` | libft8/ft8/decode.c:327-388 | every nonzero payload received without noise is accepted and returned |
| `Reception.ZeroPayloadRejected` | libft8/ft8/ldpc.c:145-157 | the all-zero payload received without noise is rejected |
| `Reception.UnrecordedRejected` | libft8/ft8/decode.c:279-304 | a candidate of which nothing was recorded has all likelihoods zero and is rejected |
| `Reception.DeliveredIsSent` | libft8/ft8/decode.c:367-385 | the ten payload bytes that come out are the ten that went in, under FT8 and FT4 |
| `Reception.AcceptedIsChecked` | libft8/ft8/decode.c:342-376 | with any noise, the decoded word of an accepted payload is a nonzero codeword, with its CRC a multiple of the CRC polynomial, and the word the payload would have been sent as |
| `Reception.AcceptedExactly` | libft8/ft8/decode.c:342-376 | with any noise, a payload is accepted exactly when it is not all zero and the decoded word is the one it would have been sent as |
| `Dft.Decimation` | libft8/fft/kiss_fft.c:231-296 | a transform of length p m is the recombination of p transforms of length m of the decimated inputs |
| `Butterflies.Recombination` | libft8/fft/kiss_fft.c:192-229 | each value of a column is the sum of its twiddled values turned by roots of order p |
| `Butterflies.TwiddleIndex` | libft8/fft/kiss_fft.c:15-189 | every index into the table of roots is inside it |
| `Butterflies.Radix4Roots` | libft8/fft/kiss_fft.c:38-84 | the roots of order 4 are those the radix-4 step has built in, for both directions |
| `Butterflies.Radix5Roots` | libft8/fft/kiss_fft.c:130-189 | the fourth and third root of order 5 are the conjugates of the first and second |
| `Butterflies.Arithmetic3` | libft8/fft/kiss_fft.c:102-127 | the radix-3 arithmetic with one imaginary part is the sum over the three roots |
| `Butterflies.Arithmetic4` | libft8/fft/kiss_fft.c:54-83 | the radix-4 arithmetic without products is the sum over the four roots |
| `Butterflies.Arithmetic5` | libft8/fft/kiss_fft.c:152-188 | the radix-5 arithmetic with two roots is the sum over the five roots |
| `Butterflies.KfBfly2` | libft8/fft/kiss_fft.c:15-36 | radix 2: all columns of the block are recombined in place, nothing else changes |
| `Butterflies.KfBfly3` | libft8/fft/kiss_fft.c:86-128 | radix 3: the same |
| `Butterflies.KfBfly4` | libft8/fft/kiss_fft.c:38-84 | radix 4: the same, for both directions |
| `Butterflies.KfBfly5` | libft8/fft/kiss_fft.c:130-189 | radix 5: the same |
| `GenericButterfly.IndexStep` | libft8/fft/kiss_fft.c:217-224 | in 32 bits, with one conditional subtraction, the running index stays the exponent modulo n, as long as the sum before it is an int |
| `GenericButterfly.RunningBound` | libft8/fft/kiss_fft.c:217-221 | the sum before the subtraction is at most 2(n - stride), and reaches it at the third term of the last frequency |
| `GenericButterfly.IndexFitsExactly` | libft8/fft/kiss_fft.c:217-221 | all sums of a stage are ints exactly when 2(n - stride) is, for any radix above 2 |
| `GenericButterfly.KfBflyGeneric` | libft8/fft/kiss_fft.c:192-229 | any radix, with the scratch buffer and a 32-bit running index that fits: the same |
| `RootTables.TableOfFour` | libft8/fft/kiss_fft.c:349-358 | the four quarter turns are a table that meets all that is required of one |
| `KissFactor.FoundRadix` | libft8/fft/kiss_fft.c:303-324 | a radix that divides what is left after the search is 4 or prime |
| `KissFactor.FoundChosen` | libft8/fft/kiss_fft.c:311-319 | 4, 2, 3 and 5 are taken whenever they divide, in this order, and any other radix only when none does |
| `KissFactor.SearchStep` | libft8/fft/kiss_fft.c:311-319 | a failed radix is followed by one that keeps what is known, and the search gets closer to its end |
| `KissFactor.FindRadix` | libft8/fft/kiss_fft.c:311-319 | the inner loop ends with a divisor that is 4 or prime, although the square root is the one of the whole length |
| `KissFactor.KfFactor` | libft8/fft/kiss_fft.c:303-324 | for every length an int holds it ends within 32 pairs whose radices multiply to the length, with each stage length what is left and the last 1 |
| `KissFactor.StageTimesRadices` | libft8/fft/kiss_fft.c:320-322 | each stored stage length times the radices so far is the whole length |
| `KissFactor.SmoothSoFar` | libft8/fft/kiss_fft.c:310-323 | the radices before a stage take the small part of the length out, exactly it while they are small |
| `KissFft.RecombineIsTransform` | libft8/fft/kiss_fft.c:231-296 | recombining finished blocks gives the transform of their joint input |
| `KissFft.ReadsStrided` | libft8/fft/kiss_fft.c:264-283 | every input index of the recursive calls stays inside the input |
| `KissFft.FitsExactly` | libft8/fft/kiss_fft.c:231-296 | the generic stages of a transform meet their bound exactly when 2(n - s) is an int, s being what the small radices take |
| `KissFft.RunningIndicesFit` | libft8/fft/kiss_fft.c:192-229 | no running index of any stage leaves an int exactly under that condition on the length |
| `KissFft.ShortLengthsFit` | libft8/fft/kiss_fft.c:192-229 | every length up to 2^30 meets it, and every length without prime factors above 5 |
| `KissFft.LongLengthOverflows` | libft8/fft/kiss_fft.c:217-221 | 7 * 2^28 is a length an int holds that does not: the index becomes negative |
| `KissFft.KfWork` | libft8/fft/kiss_fft.c:231-296 | the recursion leaves the transform of its strided input in its block and changes nothing else |
| `KissFft.KissFftAlloc` | libft8/fft/kiss_fft.c:333-362 | the setup's factors split the length completely |
| `KissFft.KissFftStride` | libft8/fft/kiss_fft.c:365-377 | for every length that meets the condition every output is the defining sum over the strided input, also in place |
| `Inversion.PowersCancel` | libft8/fft/kiss_fft.c:349-358 | the powers of a root other than one sum to zero over a period |
| `Inversion.RoundTrip` | libft8/fft/kiss_fft.c:349-358 | the sum over the opposite roots of the sums over a table of roots gives every value times the length |
| `TransformRoundTrip.ForthAndBack` | libft8/fft/kiss_fft.c:333-377 | setting up both directions of a length and transforming with one and then the other gives every value times the length |
| `Candidates.HeapifyDown` | libft8/ft8/decode.c:400-431 | after the root was replaced the heap is restored, holding the same candidates |
| `Candidates.HeapifyUp` | libft8/ft8/decode.c:433-451 | after an append the heap is restored, holding the same candidates |
| `Candidates.RootIsLeast` | libft8/ft8/decode.c:216-222 | the root of a heap scores least |
| `Candidates.Offer` | libft8/ft8/decode.c:208-233 | offering one more candidate keeps the best N of those seen |
| `Candidates.SeenStep` | libft8/ft8/decode.c:196-207 | the scan meets every position once |
| `Candidates.SortHeap` | libft8/ft8/decode.c:238-248 | the in-place sort gives descending scores of the same candidates |
| `Candidates.Result` | libft8/ft8/decode.c:190-251 | the sorted best N are distinct, descending, and no better one is left out |
| `Candidates.FindCandidates` | libft8/ft8/decode.c:190-251 | returned are min(N, eligible) distinct eligible candidates in descending order, none worse than one left out, for any score |
| `Texts.TrimCopy` | libft8/ft8/text.c:5-43 | the library's trimming takes off the spaces at both ends |
| `Texts.TrimShape` | libft8/ft8/text.c:5-43 | trimmed text has no space at either end and only characters of the original |
| `Texts.CharnOfNchar` | libft8/ft8/text.c:215-294 | a character's index comes back as the character, for all six tables |
| `Texts.NcharOfCharn` | libft8/ft8/text.c:215-294 | an index's character comes back as the index |
| `Texts.TableIsAlphabet` | libft8/ft8/text.h:56-64 | each of the six tables is its documented alphabet in order, and only its characters have an index |
| `Texts.ComputeDdToInt` | libft8/ft8/text.c:151-179 | reading stops at the first character that is no digit, with the sign |
| `Texts.ComputeIntToDd` | libft8/ft8/text.c:182-213 | a number is written with its sign and width |
| `Texts.ReportReturns` | libft8/ft8/text.c:151-213 | a signed two-digit report read and written comes back, except minus zero |
| `FreeText.MultiplyAdd` | libft8/ft8/message.c:330-341 | nine big-endian bytes are multiplied by 42 and increased in place |
| `FreeText.DivideBy42` | libft8/ft8/message.c:531-540 | nine big-endian bytes are divided by 42 in place, with the remainder |
| `FreeText.FitsInto71Bits` | libft8/ft8/message.c:307-356 | thirteen characters never carry into the type bits |
| `FreeText.EncodeFree` | libft8/ft8/message.c:307-356 | the payload's number is twice the text's base-42 number, and its last byte is zero |
| `FreeText.DecodeTelemetry` | libft8/ft8/message.c:566-575 | the payload's 71 bits are shifted right by one |
| `FreeText.DecodeFree` | libft8/ft8/message.c:522-544 | the text is the trimmed base-42 characters of the payload's number |
| `FreeText.FreeTextReturns` | libft8/ft8/message.c:307-356 | for every string what is decoded is its last 13 characters in capitals, unknown ones as spaces, trimmed |
| `FreeText.SentIs` | libft8/ft8/message.c:306-340 | a character of the alphabet arrives as it is, any other as a space |
| `FreeText.SurvivesUnchanged` | libft8/ft8/message.c:307-356 | a text comes back unchanged exactly when it has at most 13 characters of the table and no space at either end |
| `FreeText.RoundTrip` | libft8/ft8/message.c:522-544 | encoding and then decoding gives what arrives of the text |
| `Callsigns.FitsInto58Bits` | libft8/ft8/message.c:905-932 | eleven characters of base 38 fit into 58 bits |
| `Callsigns.ComputeHash` | libft8/ft8/message.c:619-640 | a call padded with spaces is hashed, unless a character is not in the table |
| `Callsigns.HashOfPadded` | libft8/ft8/message.c:619-640 | the hash is that of the call filled up with spaces to eleven characters, so spaces behind a call do not count |
| `Callsigns.SaveCallsign` | libft8/ft8/message.c:619-654 | the call is stored under its 22-bit hash and the shorter hashes are its top bits |
| `Callsigns.Chars38Return` | libft8/ft8/message.c:934-946 | the characters of a call's number are the call with spaces in front |
| `Callsigns.Pack58` | libft8/ft8/message.c:905-932 | for every call, with or without a first bracket: the base-38 number of its text, which is also stored; nothing is stored when a character is not in the table |
| `Callsigns.Unpack58` | libft8/ft8/message.c:934-957 | the call of a number, stored when it has at least three characters |
| `Callsigns.LookupCallsign` | libft8/ft8/message.c:656-676 | the stored call in brackets, or dots |
| `TypeFour.FieldsReturn` | libft8/ft8/message.c:215-299 | the bit fields packed are the bit fields extracted, with the type |
| `TypeFour.PayloadNumber` | libft8/ft8/message.c:287-299 | read as one number, the payload is the hash, the call, the flip bit, the report, the CQ bit and the type, in that order, before three clear bits |
| `TypeFour.EncodeNonstd` | libft8/ft8/message.c:215-299 | the return code, the payload and the calls stored, for every three texts |
| `TypeFour.FlippedIsRefused` | libft8/ft8/message.c:245-260 | a sender's call that is taken for one in brackets is refused: the branch that would send it as a hash never does |
| `TypeFour.BracketedIsRefused` | libft8/ft8/message.c:245-275 | no sender's call in brackets that closes within the packed characters is sent |
| `TypeFour.DecodeNonstd` | libft8/ft8/message.c:462-520 | for every payload the three texts follow from the fields and one lookup, after the plain call was stored; `TypeFour.SpelledShown` says in which order |
| `TypeFour.TypeFourReturns` | libft8/ft8/message.c:462-520 | the plain call and the report come back exactly, the other call as the table answers |
| `TypeFour.StoredCallReturns` | libft8/ft8/message.c:462-520 | a stored call whose 12-bit hash no other stored call shares comes back in brackets |
| `TypeFour.SpelledShown` | libft8/ft8/message.c:462-520 | for any spelled call, hash, flip bit, report and CQ bit: which of the spelled call and the table's answer is addressee and which is sender, and the report |
| `TypeFour.KnownCallShown` | libft8/ft8/message.c:462-520 | with the hash of a stored call that no other shares, a flipped message shows the spelled call as addressee and the stored call in brackets as sender |
| `Standard.CodesFit` | libft8/ft8/message.c:9-11 | the codes of base calls end exactly at 2^28 |
| `Standard.UnmixedReturns` | libft8/ft8/message.c:678-735 | the six mixed-radix digits of a base call come back |
| `Standard.MixedIs` | libft8/ft8/message.c:678-735 | the number of a base call has radices 37, 36, 10, 27, 27 and 27, the first character counting most |
| `Standard.BaseReturns` | libft8/ft8/message.c:678-735 | a packable base call comes back exactly when it is no literal Q with a letter and no literal 3D0 with a letter |
| `StandardMessages.QCallChanges` | libft8/ft8/message.c:860-876 | a packable call that does not come back |
| `StandardCalls.ComputePack28` | libft8/ft8/message.c:737-792 | the 28-bit code and suffix bit of a call, and what is stored |
| `StandardCalls.PackedCodeFits` | libft8/ft8/message.c:737-792 | every code fits into 28 bits |
| `StandardCalls.BaseInTable` | libft8/ft8/message.c:678-792 | every base call, with its suffix, can be stored |
| `StandardCalls.ComputeUnpack28` | libft8/ft8/message.c:794-903 | for every code: failure, token, call or hashed call, and what is stored; `StandardCalls.DirectedReturns` and `StandardCalls.NumberedReturns` say what the codes of directed CQs spell |
| `StandardCalls.CallReturns` | libft8/ft8/message.c:737-903 | a base call with its suffix comes back exactly when its base does |
| `StandardCalls.TokenReturns` | libft8/ft8/message.c:737-812 | DE, QRZ and CQ are the codes 0, 1 and 2 and come back |
| `StandardCalls.DirectedReturns` | libft8/ft8/message.c:817-836 | for every word of one to four capitals, 1003 plus its base-27 number unpacks to CQ and the word; the last such code is 532443, that of ZZZZ |
| `StandardCalls.NumberedReturns` | libft8/ft8/message.c:811-816 | the codes 3 to 1002 unpack to CQ and the three digits of 0 to 999 |
| `StandardCalls.UnusedCodesFail` | libft8/ft8/message.c:838-839 | the codes between 532443 and the hashes have no call |
| `StandardCalls.HashReturns` | libft8/ft8/message.c:779-848 | a call that is no base call is sent as its 22-bit hash and comes back as that hash if it has three to eleven characters, else it has no code |
| `StandardMessages.PlainExtraReturns` | libft8/ft8/message.c:959-1056 | nothing, RRR, RR73, 73 and every grid come back |
| `StandardMessages.RogeredGridShown` | libft8/ft8/message.c:1005-1025 | a grid with the report flag is shown behind an R and a space |
| `StandardMessages.ReportComesBack` | libft8/ft8/message.c:959-1056 | a report, with or without R, comes back exactly when it is at least -30 and not -00 |
| `StandardMessages.ThirdFieldCodes` | libft8/ft8/message.c:959-1003 | the codes of no third field, RRR, RR73 and 73, and of every report with and without R |
| `StandardMessages.StdFieldsReturn` | libft8/ft8/message.c:199-210 | the 77 bits packed give back both 29-bit calls, the grid code, the report flag and the type |
| `StandardMessages.StdPayloadNumber` | libft8/ft8/message.c:199-210 | read as one number, the payload is both calls with their suffix bits, the third field with its flag and the type, in that order, before three clear bits |
| `StandardMessages.EncodeStd` | libft8/ft8/message.c:161-213 | the return code, the payload and the calls stored, for every three texts |
| `StandardMessages.DecodeStd` | libft8/ft8/message.c:416-459 | for every payload the texts follow from its fields, unpacked one call after the other |
| `StandardMessages.StandardReturns` | libft8/ft8/message.c:416-459 | whatever the receiver's table holds, all three fields of a sendable message come back |
| `StandardMessages.CodesShown` | libft8/ft8/message.c:416-459 | for any two codes, third field and type: the return code, the calls stored, and the texts, a hash being shown as the stored call in brackets or as dots |
| `StandardMessages.DirectedCqReturns` | libft8/ft8/message.c:416-459 | a CQ directed to a word is decoded to CQ with that word, the call and the third field |
| `MessageTypes.StandardGoesToStandard` | libft8/ft8/message.c:70-114 | a standard message is recognised as one |
| `MessageTypes.NonstdGoesToNonstd` | libft8/ft8/message.c:70-114 | a message with a nonstandard call is recognised as one |
| `MessageTypes.FreeTextGoesToFreeText` | libft8/ft8/message.c:70-114 | a free text is recognised as one: its number leaves all type bits clear |
| `MessageTypes.TypeBitsAre` | libft8/ft8/message.c:70-114 | the subtype is bits 71 to 73 and the type bits 74 to 76 |
| `MessageTypes.MessageDecode` | libft8/ft8/message.c:358-414 | every payload goes to the decoder of its type and its fields are joined; other types are refused |
| `MessageTypes.StandardShown` | libft8/ft8/message.c:358-414 | a sendable standard message is shown as its three fields, whatever the table holds |
| `MessageTypes.NonstdShown` | libft8/ft8/message.c:358-414 | a message between plain calls is shown with the addressee's call as the table answers its hash, in brackets when it is stored and no other stored call shares the hash |
| `MessageTypes.DirectedCqShown` | libft8/ft8/message.c:358-414 | a CQ directed to a word is shown as CQ, the word, the call and the third field, whatever the table holds |
| `MessageTypes.SpelledMessageShown` | libft8/ft8/message.c:358-414 | any message with a spelled call is shown in the order of its flip bit, and stores that call |
| `MessageTypes.FlippedMessageShown` | libft8/ft8/message.c:358-414 | a flipped message with the hash of a stored call that no other shares shows that station second, in brackets, as the sender |
| `MessageTypes.FreeTextShown` | libft8/ft8/message.c:358-414 | a free text is shown as it arrives |
| `OverTheAir.EndToEnd` | libft8/ft8/decode.c:327-388 | a payload received without noise that is not sent as all zeros is accepted and comes out byte for byte |
| `OverTheAir.StandardOverTheAir` | libft8/ft8/message.c:161-213 | a standard message received without noise is accepted, delivered byte for byte and shown as the three texts that were encoded, under both protocols |
| `OverTheAir.TypeFourOverTheAir` | libft8/ft8/message.c:215-299 | a message between plain calls is accepted and shown with the sender's call and the report exactly, and the addressee's call when the receiver knows it and no other with its hash |
| `OverTheAir.NonstdOverTheAir` | libft8/ft8/message.c:215-299 | every message with a nonstandard call that can be sent is accepted and delivered byte for byte |
| `OverTheAir.FreeTextOverTheAir` | libft8/ft8/message.c:307-356 | a free text is accepted and shown as it arrives, under FT8 when its number is not zero; a text of spaces and unknown characters only is rejected there |
| `OverTheAir.Receive` | libft8/ft8/decode.c:327-388 | decoding a candidate and then its message accepts exactly what is decided to be accepted, and shows what was delivered |
| `Cic.WrapAdds` | rtlsdr_ft8d.cpp:182-188 | wrapping after every step is wrapping once |
| `Cic.DoubleIsDifference` | rtlsdr_ft8d.cpp:197-216 | the double moving sum is a second difference of double running sums |
| `Cic.CombHolds` | rtlsdr_ft8d.cpp:197-216 | both combs keep the wrapped state, and the output is the exact, unwrapped double moving sum |
| `Cic.MixIsExact` | rtlsdr_ft8d.cpp:163-175 | the mixer multiplies by a power of j exactly, unless a component it negates is -128 |
| `Cic.MixSplits` | rtlsdr_ft8d.cpp:163-175 | mixing buffers one after the other is mixing them as one |
| `Cic.Mix` | rtlsdr_ft8d.cpp:163-175 | the buffer is mixed in place, four pairs at a time |
| `Cic.Receiver.Sample` | rtlsdr_ft8d.cpp:182-216 | one pair through integrators and combs keeps the receiver's invariant |
| `Cic.Receiver.Callback` | rtlsdr_ft8d.cpp:131-216 | for every split of the stream into buffers all outputs so far are the exact double moving sums, one per period |
| `CallsignTables.CallsignTable.Init` | rtlsdr_ft8d.cpp:1095-1100 | the table becomes the empty map |
| `CallsignTables.CallsignTable.Add` | rtlsdr_ft8d.cpp:1107-1133 | adding is updating a map of at most 256 keys; a new key on a full table and an empty call change nothing |
| `CallsignTables.CallsignTable.Lookup` | rtlsdr_ft8d.cpp:1135-1168 | a lookup of any width finds some stored key that reduces to the hash, or there is none |
| `CallsignTables.Inserts` | rtlsdr_ft8d.cpp:1113-1123 | writing a new key into the first free place keeps keys distinct and reachable |
| `CallsignTables.FreeMeansAbsent` | rtlsdr_ft8d.cpp:1113-1123 | no stored key lies behind a free place of its probe |
| `CallsignTables.AddedIsAnswered` | rtlsdr_ft8d.cpp:1107-1168 | a stored call is what every width answers, unless another stored key reduces to the same hash |
| `CallsignTables.FullWidthIsExact` | rtlsdr_ft8d.cpp:1135-1168 | a 22-bit lookup answers exactly what the map holds |
| `CallIds.ComputeHashCallId` | qsoHandler.cpp:242-256 | the loop with its 32-bit wrap-around computes the hash, for every string |
| `CallIds.EqualLengthInjective` | qsoHandler.cpp:242-256 | calls of one length up to six capitals and digits never share a hash |
| `CallIds.ShortCallsCollide` | qsoHandler.cpp:242-256 | two such calls of any lengths share a hash exactly when they are equal up to leading zeros |
| `CallIds.LongCallsCollide` | qsoHandler.cpp:242-256 | calls longer than six with the same first six share a hash exactly when their seventh and eighth characters agree in seven bits |
| `CallIds.LongNeverShort` | qsoHandler.cpp:250-254 | a call longer than six is never taken for one of up to five characters |
| `QsoHandlers.QsoHandler.constructor` | qsoHandler.cpp:210-221 | the handler starts idle, with no station recorded |
| `QsoHandlers.QsoHandler.CheckPeer` | qsoHandler.cpp:258-266 | the loop tells whether the call's hash is recorded |
| `QsoHandlers.QsoHandler.AddPeer` | qsoHandler.cpp:268-277 | a new hash is recorded in place and the index starts over behind the last place |
| `QsoHandlers.QsoHandler.ResetQsoState` | qsoHandler.cpp:210-221 | the QSO is closed and its time is now |
| `QsoHandlers.QsoHandler.AddQso` | qsoHandler.cpp:592-674 | a message for us changes the fields as the machine's step says |
| `QsoHandlers.QsoHandler.AddCQ` | qsoHandler.cpp:677-711 | someone's CQ changes the fields as the machine's step says |
| `QsoHandlers.QsoHandler.HandleTx` | qsoHandler.cpp:290-366 | the reply queued, the state after it and whether the transmitter is busy; `QsoRuns.PassTransmits` says when that reply is owed |
| `QsoHandlers.QsoHandler.QueryCQ` | qsoHandler.cpp:370-399 | a CQ is queued as the machine's step says |
| `QsoHandlers.QsoHandler.UpdateQsoMachine` | qsoHandler.cpp:483-508 | the end of a pass is the machine's update |
| `QsoHandlers.QsoHandler.Dispatch` | qsoHandler.cpp:793-803 | a decoded message goes to the CQ step, the step for us, or neither |
| `QsoHandlers.QsoHandler.QSOHandler` | qsoHandler.cpp:777-810 | one pass drains all ticks and messages and then updates the machine |
| `QsoRuns.RunKeeps` | qsoHandler.cpp:777-810 | the invariant of all runs: a lawful trace, distinct recorded stations, an open QSO exactly where its dialogue stands, and the time of the next CQ |
| `QsoRuns.QsoLifetime` | qsoHandler.cpp:483-503 | after every event an open QSO has time left, and its time ends with the eighth tick from its opening |
| `QsoRuns.AtMostEightReplies` | qsoHandler.cpp:290-366 | from an opening to the next one at most eight replies are queued |
| `QsoRuns.ReplyPrecedence` | qsoHandler.cpp:592-674 | every reply goes to the opening call on the opening frequency and is the one answer that QSO's dialogue calls for; an RR73 follows a further report in replySig, a 73 the peer's RR73 |
| `QsoRuns.NothingAfter73` | qsoHandler.cpp:344-353 | a 73 is the last reply of its QSO |
| `QsoRuns.PassTransmits` | qsoHandler.cpp:483-508 | in every run a pass transmits exactly what the trace owes: the answer of an open QSO in the peer's slot, then a CQ when automatic CQs are on, no QSO is open and the last CQ is three ticks ago |
| `QsoRuns.OpenQsoIsAnswered` | qsoHandler.cpp:290-366 | an open QSO with time left is answered in the pass of the active slot if that is the peer's: one reply, with the opening call and frequency, the dialogue's answer and this tick |
| `QsoRuns.IdleExactly` | qsoHandler.cpp:483-503 | between passes the machine is idle exactly when the trace has no open QSO with time left |
| `QsoRuns.OpensExactly` | qsoHandler.cpp:592-711 | an idle machine opens a QSO exactly with a CQ, while CQs are answered, or a locator or report for us, while QSOs are automatic, in the active slot from a station not recorded |
| `QsoRuns.WantedIsAnswered` | qsoHandler.cpp:777-810 | such a message is answered in the very pass that hears it: a CQ with our locator, a message for us with a report |
| `QsoRuns.RogerRecords` | qsoHandler.cpp:658-664 | exactly the peer's RR73 records a station, which is then found unless the index starts over |
| `HeardKinds.ShownKind` | qsoHandler.cpp:552-589 | of everything a standard message can show as its third field: reports are signals, 73 ends a QSO, RR73 rogers, also as the grid of that name, all else counts as a locator |
| `HeardKinds.NonstdKind` | qsoHandler.cpp:552-589 | the same for the reports of messages with a nonstandard call |
| `QsoRuns.DefaultUnreachable` | qsoHandler.cpp:355-360 | whenever the reply step is called, after a pass has counted its ticks and heard its messages, the branch marked as never happening is not taken |
| `QsoRuns.OthersIgnored` | qsoHandler.cpp:630-634 | while a QSO is open a message from another station changes nothing |
| `QsoRuns.CqsApart` | qsoHandler.cpp:383-397 | two CQs of a run are at least three ticks apart |
| `QsoRuns.CqOnlyWhenIdle` | qsoHandler.cpp:505-507 | a CQ is queued only when no QSO is open, on the active slot, with automatic CQs on |
| `QsoRuns.PeersDistinct` | qsoHandler.cpp:258-277 | in every reachable state the recorded hashes are distinct and the index is below 512 |
| `QsoRuns.AddedIsFound` | qsoHandler.cpp:268-277 | a station just recorded is found, and so are all others, unless the index started over |
| `QsoRuns.WorkedThroughout` | qsoHandler.cpp:592-711 | through any messages a worked station stays worked and opens no QSO, as long as the index does not start over |
| `QsoRuns.WorkedStationsStayClosed` | qsoHandler.cpp:600-604 | in every run no QSO opens with a recorded station until the index next starts over |
| `Dither.ToneBetween` | ft8.cpp:785-807 | the two frequencies of a tone lie on both sides of it |
| `Dither.FirstTonesShare` | ft8.cpp:773-783 | when the centre stays, the words of each of the first four tones share their integer part |
| `Dither.SplitsExactly` | ft8.cpp:787-795 | a tone's words have different integer parts exactly when plld < tone k and tone (4096 k - 1) <= 4096 plld for some k |
| `Dither.MovedCentreFails` | ft8.cpp:776-784 | whenever the centre is moved and nine tenths of the spacing are within a step of the divider, the fifth tone's words split |
| `Dither.AgreesExactly` | ft8.cpp:776-812 | with a fine spacing no tone splits exactly when the comparison holds with the eighth tone in place of the fourth |
| `Dither.FifthToneSplits` | ft8.cpp:803-812 | a setting in range for which the fifth tone's words do not |
| `Dither.SetupDMATab` | ft8.cpp:766-813 | the table's frequencies enclose each of the eight tones, and the assertion holds exactly when no tone of these settings splits |
| `TxSymbol.RatioIsShare` | ft8.cpp:699-705 | the share lies between zero and one and weighs the two frequencies to the tone |
| `TxSymbol.ChunkShare` | ft8.cpp:724-728 | a chunk's clocks at the lower frequency are between none and all |
| `TxSymbol.TxSym` | ft8.cpp:685-755 | for any random numbers the chunks add up to the symbol, each prefix is within half a clock of the exact share, the last ringful of chunks is in its cells of the ring and all other cells are unchanged, and the pointer stays a multiple of four below 1024 |
| `TxSymbol.FrequencyExact` | ft8.cpp:724-754 | the cycles sent stay within half a step of the tone's own, however the symbol was cut |

## Left out

- Floating-point rounding, infinities and NaN: levels, likelihoods, frequencies and spectra are real numbers.
- `fast_tanh` and `fast_atanh` are parameters, arbitrary where a theorem does not say more; `FastTanh` has the two
  rational functions over the reals, with the quotient left 0 at the irrational places where a divisor vanishes. The
  square root in the normalisation is an arbitrary function of the variance that is positive where a theorem needs it.
- Cosines and sines: the table of roots of unity is a parameter, with the properties of a primitive root.
- The value of the Costas sync score: candidates are chosen by an arbitrary score of a position.
- Candidates.FindCandidates: at least one candidate is asked for; with none the source would read behind the heap.
- MessagePassing.OneErrorCorrected: the condition is on the first messages, not on the likelihoods alone, because how
  much a message weighs depends on the functions.
- BeliefPropagation.BpDecode: with no iteration the source leaves the word as it was; the decoder then rejects.
- The message hash and the time and frequency figures that decoding a candidate also returns.
- TypeFour.EncodeNonstd: behind the end of a text there are zeros, as in the padded tokens its only caller passes.
- An absent hash interface (a null pointer): messages always have a table.
- Directed CQs with a number when encoding, and the words `ftx_message_encode` cuts a text into.
- The hexadecimal form of telemetry, and the message types that are only recognised.
- Fixed-size C strings: texts are sequences of any length, cut only where the source cuts them.
- What the callback does with the decimated samples: the FIR filter behind the decimator, and the SNR estimate
  and signal synthesis elsewhere.
- Cic.Receiver: signed overflow, undefined in C, wraps around; the ratio must be small enough for 128 times the
  square of twice the period to stay below 2^31.
- Threads, locks and queues: a pass of the handler is one step and queues are sequences; the active slot and the
  settings change between passes only.
- QsoHandlers.QsoHandler: ticks do not wrap at 2^32, the log, the display queue and the text of a reply are not
  modelled, and `qsoOldState` is not, because nothing reads it.
- `atoi` on numbers beyond `int`: the number a message starts with is unbounded.
- TxSymbol.TxSym: waiting for the DMA engine; the random numbers are a function of the chunk's number.
- Dither.SetupDMATab: the warning printed when the centre frequency moves.
- `kiss_fftr`, the fixed-point, SIMD and OpenMP variants, `kiss_fft_next_fast_size`, `ldpc_decode`,
  `ft8_decode_multi_symbols` and the phase data of the waterfall.
- User interface, sockets, device control, PSK reporter, beacon, calibration and command lines.
