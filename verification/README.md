# Verified model of the Solana signer

The repository is the Solana application of a hardware wallet. A host sends a transaction in pieces, the device puts
the pieces together, parses the message, turns the instructions that it recognises into a short list of lines, shows
them and signs. This project models that path in Dafny and proves what it promises:

- **Printing** (`Radix`, `Text`, `Decimal`, `TokenAmount`, `Base58`, `Strings`): numbers, amounts and keys in fixed
  buffers. The loops are modelled on arrays, digit by digit; the texts are exact, canonical and can be read back.
- **Dates** (`Calendar`, `Rfc3339`): the closed form for day numbers against a calendar that counts one day at a time.
- **Transport** (`Apdu`, `Device`, `Chunking`): the command that persists between APDUs as a state machine, its
  imperative form, and the sender that splits a payload.
- **Text recognition** (`Utf8`): the UTF-8 and ASCII tests for off-chain messages.
- **Parsing** (`Wire`, `Parser`, `Instructions`, `Encoding`, `Message`): the wire format as a serializer and as a
  language of byte strings, the parser with its cursor, the instructions that are taken apart, and the processing of a
  message body.
- **Display** (`Summary`, `Display`, `Infos`, `Printers`, `Recogniser`, `Fee`, `Transaction`, `Handler`): the slots of
  the summary, the printers, the tables of known instruction sequences, the fee line, the search for the signer, and
  the fallback to blind signing.
- **What the display tells** (`Reading`, `Sequences`, `Money`, `Titles`, `ShortKeys`, `Screens`, `Overview`): what the
  slots tell about single instructions and about whole sequences, which of the money that is moved they hide, what
  titles and texts tell about an item, and what all the screens of a message tell about it.
- **Exchange** (`Swap`, `SwapSafety`, `Exchange`): the check that a transaction is the one that was agreed on, and the
  theorem that it approves exactly that.

Integers of the C code are mathematical integers with their wrap-around written out; a `char*` with a length is an
array with an offset; a C string is a sequence without NUL. Results that come back through pointers are
out-parameters.

The longest chain of results is the one for an exchange. `Exchange.Run` goes from the parameters of an exchange over
the bytes of a message to a verdict: approved exactly when the displayed instructions are a transfer of the agreed
amount to the agreed recipient, with at most a nonce advance and compute budget instructions without fee in front of
it. `SwapSafety.SwapIff` is the theorem behind it, `SwapSafety.ApprovedBytes` carries it back to the bytes of the
message, `Exchange.AddressJudged` on to the address, of which `Base58.Injective` makes one key the only owner. It
rests on the exactness of the printers (`TokenAmount.AssetInjective`), on the parser (`Message.BodyInfosIff`,
`Encoding.SystemIff`), on the recogniser (`Recogniser.LineBudget`) and on the agreement of the two walks through the
summary (`Summary.OrderAgrees`).

The second chain is about what a reader of the display can know. A screen is a title and a text. `Titles.ShapeNamed`
shows that every printed title tells the kind of the item under it and its place in the summary,
`Screens.ScreensAlike` exactly which two items have one screen, and `Screens.ScreenToldIff` for each kind the exact
condition on an item under which no other item has its screen. `Sequences.ShapeReads` gets every recognised sequence
back from its lines with a reader that demands each title in its place and nothing else, so that no value stands under
a wrong title; `Sequences.SequenceTells` says for the recognised sequences of any two messages what the slots tell, `Overview.SummaryTells` the same for the whole summary
with nonce, fee and fee payer. `Overview.DisplaysAlike` says for any two messages when they have the same screens, and
`Overview.DisplayTells` puts it all together: from a message whose items can be told, the same screens lead back to
the same nonce, fee, fee payer and visible instructions. `Money.MovesToldIff` and `Overview.SummaryMovesIff` say
exactly which messages hide some of the transfers and deposits that are in them.

## Where the code does something unexpected

- `print_u64` reports success for a buffer of one byte although it prints nothing; `print_i64` does so when one byte
  is left after the sign (`Decimal.PrintU64`, `Decimal.PrintI64` state exactly when).
- The digit loop of `print_token_amount` leaves its buffer exactly when the buffer has `decimals + 1` bytes
  (`TokenAmount.DigitLoopInside`). The display has 45 bytes, so token amounts with 44 decimals overrun it; any
  instruction that names its decimals can say 44 (`Display.DisplayableIff`, `Display.OverrunReached`). With a single
  byte the loop is skipped and the byte before the buffer is read; the whole function stays in its buffer if and only
  if that has neither one byte nor `decimals + 1` (`TokenAmount.PrintTokenAmount`).
- `encode_base58` accepts up to 64 bytes but stays in its scratch buffer only up to 32 (`Base58.EncodeBase58`).
- Day numbers are kept in 32 bits, so every date comes again 2^32 days later or earlier: each timestamp has the text
  of another one (`Rfc3339.TimeTwin`), and the text is the right one exactly for the day numbers 0 to 3652059 of the
  timestamp itself, 0000-12-31 to 9999-12-31 (`Rfc3339.RightIff`). Of the other 32-bit day numbers the last 1187 are
  accepted too, all but 305 of them with a wrong date (`Calendar.RdnToYmd`), so that some timestamps are shown as days
  of the years 0 to 2 (`Rfc3339.WrongDate`).
- A split of stake shows neither what is paid to the new account nor, without expert mode, that anything is paid; whom
  a transfer in front of it pays is never shown (`Money.RecipientHidden`, `Money.PaymentHidden`,
  `Money.DepositHidden`).
- A seed that does not fit is cut and one with a NUL ends there (`Screens.SeedsCut`, `Screens.SeedEnds`), so that a
  seed can be told from its text only if it has 44 characters, no NUL and no mark of a cut at the end
  (`Screens.SeedToldIff`). A text of 44 characters that ends in the mark for a cut looks like a cut one
  (`Screens.ShownAlike`).
- Abridged, every key looks like another one (`Screens.ShortKeyTwin`), the system program included
  (`Screens.KeyClash`).
- The decimals of a token amount are not shown: 1 with none and 10 with one have the same text
  (`TokenAmount.AssetsAlike`).
- A fee line together with create-with-seed, initialize and delegate, in expert mode and with every optional line
  present, asks for a twelfth general slot; the write then goes through a null pointer (`Transaction.Overfull`).
- The two authorizations printed together compare the places of the new authorities, not the keys: one key is shown on
  two lines unless both instructions take it from the same index of the header (`Sequences.OneStakeLineIff`,
  `Sequences.OneKeyTwoLines`, `Sequences.OneKeyTwoIndices`).
- The accounts iterator keeps the number of accounts in one byte, so it ends early for more than 255 accounts.
- The address copied for an exchange is cut at 44 characters; the test behind the copy never fails (`Swap.Kept`). An
  address that goes on behind the 44 characters of a key's is taken for that key's (`Exchange.LongAddressJudged`).
- The search for the signer and the fee payer do not look at the number of keys: with too few of them the signer is
  searched for in the blockhash and behind it, and without any the fee payer is the blockhash
  (`Handler.ScanForSigner`, `Handler.FeePayerIs`). The signer that is found is a key of the message exactly when the
  message has at least as many keys as it requires signatures (`Handler.SignerIsKeyIff`); the owner of the blockhash
  passes for a signer of a message without keys (`Handler.BlockhashSigns`).
- The fee estimate is exact if and only if the fee fits 32 bits (`Fee.MaxFeeExact`).

## Model

| member | source | states |
|---|---|---|
| Text.ReverseInPlace | libsol/printer.c:36-40 | the swap loop turns the buffer's backward text into the forward one and touches nothing else |
| Decimal.EmitDigits | libsol/printer.c:188-198 | the do-while loop leaves the decimal text backwards, or stops at the end of the buffer |
| Decimal.PrintU64 | libsol/printer.c:181-211 | succeeds exactly when the canonical decimal text and its NUL fit, or on a one-byte buffer; the text is there |
| Decimal.PrintI64 | libsol/printer.c:169-179 | the same for signed numbers down to the least one |
| Decimal.DecimalTextUnique | libsol/printer.c:181-211 | the printed text is the only canonical text with the value of the number |
| Decimal.SignedRoundTrip | libsol/printer.c:169-179 | the printed signed text reads back as the number |
| TokenAmount.EmitAmount | libsol/printer.c:23-34 | the digit loop leaves its buffer exactly when `LastWrite` does; else it writes all digits with the point in place, backwards, the last one at the index that `LastWrite` computes |
| TokenAmount.DigitLoopInside | libsol/printer.c:23-34 | for every amount the digit loop stays in its buffer if and only if the buffer does not have `decimals + 1` bytes, and else writes one byte behind it |
| TokenAmount.Strip | libsol/printer.c:42-49 | reads the byte before the buffer exactly when nothing was printed; else removes exactly the trailing zeros of the fraction and a bare point |
| TokenAmount.PrintTokenAmount | libsol/printer.c:11-63 | for every buffer size: leaves the buffer exactly when it has one byte or `decimals + 1`; else succeeds exactly when the unstripped digits and then the text with its asset fit, and then holds that text |
| TokenAmount.PrintAmount | libsol/printer.c:64-67 | for every buffer size: leaves the buffer exactly when it has one byte or ten; else succeeds exactly when digits and text fit, and then holds the SOL text |
| TokenAmount.SolMeans | libsol/printer.c:64-67 | the SOL text is a canonical number, a blank and SOL; the number is the lamports divided by 10^9, exactly |
| TokenAmount.WholeSol | libsol/printer.c:64-67 | a billion lamports are one SOL: `n` times a billion is printed as `n SOL` |
| TokenAmount.AmountRoundTrip | libsol/printer.c:11-63 | the text is canonical and its value times a power of ten is exactly the amount |
| TokenAmount.AssetInjective | libsol/printer.c:11-63 | equal texts of one asset mean equal amounts |
| TokenAmount.AssetsAlike | libsol/printer.c:11-63 | two token amounts have one text exactly when they are the same number of the same tokens: equal names, and `a * 10^e == b * 10^d` |
| Base58.DivideWindow | libsol/printer.c:141-148 | one pass over the window is a long division by 58: quotient in place, remainder returned |
| Base58.EmitBase58 | libsol/printer.c:138-155 | the first digit falls outside the scratch buffer exactly when there is one and the input has more than 32 bytes; else the digits emitted have the value of the input, at most two for each byte |
| Base58.Convert | libsol/printer.c:131-161 | the scratch buffer is left exactly for more than 32 bytes; else its far end holds the encoding |
| Base58.EncodeBase58 | libsol/printer.c:125-167 | for every input: refused above 64 bytes, outside the scratch buffer exactly from 33 to 64, and up to 32 zero is returned exactly when the encoding and its NUL fit; a refused call leaves the output alone |
| Base58.EncodeKey | libsol/printer.c:125-167 | 45 characters are enough for every key |
| Base58.RoundTrip | libsol/printer.c:125-167 | decoding the text gives the bytes back: one '1' for each leading zero byte, then canonical digits |
| Base58.Injective | libsol/printer.c:125-167 | two byte strings with one text are equal |
| Base58.TwoPerByte | libsol/printer.c:132-152 | the encoding never needs more than two digits a byte, so the scratch index stays in range |
| Base58.KeyFits | libsol/include/sol/printer.h:9 | the text of 32 bytes has at most 44 characters |
| Base58.LongestText | libsol/include/sol/printer.h:9 | a key whose text has 44 characters |
| Strings.PrintString | libsol/printer.c:85-97 | a text that fits is shown whole, another is cut and marked; the result says which |
| Strings.PrintSizedString | libsol/printer.c:69-83 | the same for a text with a length, shown up to its first NUL |
| Strings.PrintSummary | libsol/printer.c:99-118 | a text that does not fit is shown by its two ends |
| Calendar.NextDayNumber | libsol/rfc3339.c:30-57 | the next day of the Gregorian calendar has the next number |
| Calendar.ClosedForm | libsol/rfc3339.c:34-44 | the source's divisions recover the March-based year and the day within it |
| Calendar.NoWrap | libsol/rfc3339.c:34-57 | no 32-bit intermediate wraps up to day 42948485 |
| Calendar.LastDay | libsol/rfc3339.c:46-51 | the last day with a four-digit year is day 3652059 |
| Calendar.DateUnique | libsol/rfc3339.c:34-57 | a day number belongs to one date |
| Calendar.RdnToYmd | libsol/rfc3339.c:34-57 | for every 32-bit day number: accepted exactly up to 3652059 and from 4294966109 on, and then with the date of that number, of the negative number in 32 bits, or of one 882 days later |
| Rfc3339.Format | libsol/rfc3339.c:61-116 | for every 64-bit timestamp: succeeds exactly when 20 characters are free and the day number is accepted, and then holds that text |
| Rfc3339.PrintedAs | libsol/rfc3339.c:59-116 | the moment `v` seconds into a date of the calendar, counted from 1970-01-01, is printed as that date and time |
| Rfc3339.OriginText | libsol/rfc3339.c:59-116 | the timestamp 0 is printed as 1970-01-01 00:00:00 |
| Rfc3339.RightIff | libsol/rfc3339.c:61-116 | the text that is printed reads back as the timestamp exactly for the timestamps from 0000-12-31 to 9999-12-31, day numbers 0 to 3652059 |
| Rfc3339.TimesAlike | libsol/rfc3339.c:61-116 | two timestamps are printed alike exactly when the day that is shown and the time of day agree |
| Rfc3339.TimeTwin | libsol/rfc3339.c:61-116 | every timestamp is printed like another one |
| Rfc3339.WrongDate | libsol/rfc3339.c:61-116 | a timestamp that is printed as 0002-07-30 |
| Rfc3339.RoundTrip | libsol/rfc3339.c:61-116 | reading the text gives the timestamp back |
| Rfc3339.TextOrder | libsol/rfc3339.c:61-116 | the dictionary order of the texts is the order of the timestamps |
| Utf8.IsDataUtf8 | src/handle_sign_offchain_message.c:23-69 | true exactly for concatenated encodings of scalar values other than U+FFFE and U+FFFF |
| Utf8.IsDataAscii | src/handle_sign_offchain_message.c:71-81 | true exactly for printable ASCII |
| Utf8.AsciiIsUtf8 | src/handle_sign_offchain_message.c:111-116 | what passes the ASCII test passes the UTF-8 test |
| Utf8.Classify | src/handle_sign_offchain_message.c:111-115 | both answers are right although the second test is skipped after the first succeeds |
| Utf8.Unfold | src/handle_sign_offchain_message.c:26-66 | a text is in the language exactly when its front is one code point and the rest is in the language |
| Apdu.RunExplained | src/apdu.c:95-196 | after any APDUs a live sign command holds the data of its chunks in order, within the limit, complete exactly when the last chunk said so |
| Apdu.PathLengths | src/utils.c:45-56 | a path has one to five words, all of them there |
| Device.ApduCommand.ReadDerivationPath | src/utils.c:38-66 | reads one to five big-endian words, with the source's errors |
| Device.ApduCommand.HandleHeader | src/apdu.c:95-196 | the new command and the reply are those of the state machine |
| Device.ApduCommand.HandleApdu | src/main.c:45-93 | an error clears the command; otherwise it waits or dispatches by its state |
| Chunking.SolanaSend | examples/example-sign.js:156-192 | the loop sends the chunks of the payload |
| Chunking.ChunkCount | examples/example-sign.js:156-192 | a payload takes a chunk for every 255 bytes begun |
| Chunking.PathRoundTrip | src/utils.c:57-61 | the device reads back the words that the host wrote |
| Chunking.SendRoundTrip | examples/example-sign.js:243-257 | a path and a message that fit arrive complete; a longer message ends in a size error and a cleared command |
| Chunking.PubkeyRoundTrip | src/apdu.c:95-196 | a request for a public key completes with its path |
| Chunking.ConfigRequest | src/apdu.c:104-113 | a request for the settings completes at once |
| Chunking.OldSignRoundTrip | src/apdu.c:95-196 | the deprecated sign instruction completes with its path and its message, which is measured twice |
| Chunking.OldPubkeyRoundTrip | src/apdu.c:95-196 | the deprecated request for a public key completes with its path |
| Chunking.OldConfigRequest | src/apdu.c:104-113 | the deprecated request for the settings completes at once |
| Wire.HeaderRoundTrip | libsol/parser.c:125-145 | reading a written header gives it back and stops behind it |
| Wire.InstructionsRoundTrip | libsol/parser.c:162-175 | the same for instructions |
| Wire.InstructionsSound | libsol/parser.c:162-175 | what is read as instructions is their encodings |
| Parser.LeConcat | libsol/parser.c:24-47 | the value of little-endian bytes is put together from its halves |
| Parser.Parser.ParseLength | libsol/parser.c:54-68 | reads a length of up to three bytes of seven bits; failing never moves back |
| Parser.Parser.ParseU64 | libsol/parser.c:40-47 | reads eight little-endian bytes |
| Parser.Parser.ParseInstruction | libsol/parser.c:170-175 | reads an instruction as specified |
| Parser.Parser.ParseMessageHeader | libsol/parser.c:139-145 | reads a header as specified |
| Instructions.Validate | libsol/instruction.c:34-40 | true exactly when all indices are below the number of keys |
| Instructions.AccountsIterator.Next | libsol/instruction.c:80-99 | yields the accounts in order, as many as fit one byte |
| Encoding.SystemIff | libsol/system_instruction.c:13-256 | data and accounts are taken for a system instruction exactly when they are its bytes and accounts, whatever follows |
| Encoding.BudgetIff | libsol/compute_budget_instruction.c:6-47 | the same for compute budget requests |
| Encoding.InfoIff | libsol/message.c:45-103 | for every program: what is found out about an instruction is exactly what its program id, its accounts and its bytes say; a budget request carries the required signatures of the header |
| Encoding.AssociatedIff | libsol/spl_associated_token_account_instruction.c:10-29 | funder, address, owner and mint are the first four accounts, and there are at least six |
| Encoding.UnknownIff | libsol/message.c:45-103 | nothing is found out exactly when the instruction is none of these |
| Encoding.NumberFirst | libsol/parser.c:24-47 | a number is read exactly when its little-endian bytes come first |
| Encoding.SeededWritten | libsol/parser.c:84-92 | base key, seed with its length and number are read back as written |
| Encoding.SeededRead | libsol/parser.c:84-92 | and only from those bytes |
| Infos.MatchBriefs | libsol/instruction.c:68-78 | true exactly when every instruction matches its entry |
| Message.ReadBodyIff | libsol/message.c:22-117 | a body is accepted exactly when it is encodings of one to four valid instructions, and a zero if versioned |
| Message.BodyInfosIff | libsol/message.c:22-125 | it reaches the printers exactly when moreover every instruction is known; memos and owner assertions are left out |
| Message.DisplayedIs | libsol/message.c:91-107 | everything but memos and owner assertions is displayed, in order |
| Message.BudgetSigned | libsol/compute_budget_instruction.c:94 | every request of a message carries the number of signatures that its header requires |
| Message.FeeOfMessage | libsol/transaction_printers.c:672-729 | the fee line of a message: last limit and last price of the run, signatures of the header, instructions behind the nonce |
| Message.MessageRoundTrip | libsol/parser.c:125-175 | a written message is read as the same header and instructions |
| Message.ReadInfos | libsol/message.c:35-107 | the loop collects all instructions and those on display, or the body is refused |
| Message.ProcessMessageBody | libsol/message.c:17-126 | the summary afterwards and the result are those of the displayed instructions |
| Summary.StepsAreUsedSlots | libsol/transaction_summary.c:268-288 | the announced steps are the used slots, each once and in order |
| Summary.OrderAgrees | libsol/transaction_summary.c:211-288 | asking by number finds the announced slots, and nothing used behind them |
| Summary.AddAllLists | libsol/transaction_summary.c:132-140 | items are added behind each other until there is no room, no other slot changes |
| Summary.PlayLists | libsol/transaction_summary.c:112-140 | a printer runs to its end exactly when its lines find room |
| Summary.TransactionSummary.GeneralItem | libsol/transaction_summary.c:132-140 | the first unused general slot |
| Summary.TransactionSummary.SetFeePayer | libsol/transaction_summary.c:143-148 | fills the fee payer once |
| Summary.TransactionSummary.FindItem | libsol/transaction_summary.c:211-248 | the counting walk gives the slot at a position |
| Summary.TransactionSummary.Finalize | libsol/transaction_summary.c:268-288 | lists the kinds of the used slots, fails exactly without a primary item |
| Display.UpdateDisplay | libsol/transaction_summary.c:150-203 | leaves the text buffer exactly for the items that are not displayable; else title and text of the item, and exactly which items are refused |
| Display.DisplayableIff | libsol/transaction_summary.c:158-164 | a token amount is printed inside the display buffer if and only if it does not have 44 decimals |
| Display.OverrunReached | libsol/spl_token_instruction.c:143-162 | a transfer with 44 decimals is put into the summary, and showing it writes behind the buffer |
| Display.DisplayItem | libsol/transaction_summary.c:250-259 | shows the item at the position, or leaves the buffer with it; fails for every number that finalize did not announce |
| Display.SolFits | libsol/transaction_summary.c:155-157 | no amount is too long for the display |
| Fee.MaxFeeExact | libsol/compute_budget_instruction.c:49-64 | the estimate is the fee if and only if the fee has 32 bits, and equal modulo 2^32 while the product has 64 |
| Fee.MaxFeeMonotone | libsol/compute_budget_instruction.c:49-64 | a higher price or limit gives no lower estimate |
| Reading.SystemReadBack | libsol/system_instruction.c:258-514 | a reader that demands every line under its title and in its place, nothing missing and nothing more, gets the instruction back: the right value stands under each title |
| Reading.SystemTells | libsol/system_instruction.c:258-514 | two system instructions fill the slots alike exactly when they differ only in what the options hide: seeds, and the program of an allocation |
| Reading.StakeReadBack | libsol/stake_instruction.c:341-585 | the same for stake instructions |
| Reading.StakeTells | libsol/stake_instruction.c:341-585 | the same for stake instructions: hidden are a custodian who is the signer, a lockup without limits, and whether authorities are checked |
| Reading.HeaderAuthorityShown | libsol/stake_instruction.c:375-425 | a new authority from the header is shown as the key under its index |
| Reading.VoteReadBack | libsol/vote_instruction.c:197-326 | the same for vote instructions |
| Reading.VoteTells | libsol/vote_instruction.c:197-326 | the same for vote instructions |
| Reading.HeaderVoterShown | libsol/vote_instruction.c:217-262 | the same for vote accounts |
| Reading.TokenReadBack | libsol/spl_token_instruction.c:405-769 | the same for token instructions |
| Reading.TokenTells | libsol/spl_token_instruction.c:405-769 | the same for token instructions: hidden are the mint of a frozen account and counts of signers that make no sense |
| Sequences.ShapeReads | libsol/transaction_printers.c:200-670 | whatever is recognised is got back by such a reader, up to what is not visible: each title has its value, symbols are those of the mints shown, and only the key that signs may be left out, outside expert mode |
| Sequences.SequenceTells | libsol/transaction_printers.c:200-670 | two recognised sequences of any kind, of one message or of two under the same settings, fill the slots alike if and only if the same of them is visible |
| Sequences.OneStakeLineIff | libsol/transaction_printers.c:330-368 | both new authorities are always told, on one line if and only if both come from the same index of the header |
| Sequences.OneVoteLineIff | libsol/transaction_printers.c:438-471 | the same for vote accounts |
| Sequences.OneKeyTwoLines | libsol/transaction_printers.c:346-355 | one key in the data of both instructions is shown on two lines |
| Sequences.OneKeyTwoIndices | libsol/transaction_printers.c:346-355 | so is one key under two indices of the header |
| Money.MovesToldIff | libsol/transaction_printers.c:200-670 | every sequence that looks the same moves the same, if and only if the sequence neither ends with a split nor creates an account for tokens |
| Money.AnnouncedIsMoved | libsol/system_instruction.c:258-514 | an instruction by itself moves the amount on its first line to the account under To or Recipient, or the deposit to the account that it creates, and otherwise nothing |
| Money.RecipientHidden | libsol/transaction_printers.c:308-317 | in no mode is it shown whom the transfer in front of a split pays |
| Money.PaymentHidden | libsol/transaction_printers.c:308-317 | outside expert mode a payment and a split look like a split |
| Money.DepositHidden | libsol/transaction_printers.c:623-627 | the deposit of the account that a split creates is never shown, whatever its amount |
| Screens.ShownAlike | libsol/printer.c:85-97 | exactly which two texts look alike in a buffer |
| Screens.KeysAlike | libsol/transaction_summary.c:171-186 | exactly which two abridged keys look alike |
| ShortKeys.KeyTwin | libsol/printer.c:99-118 | for every key there is another one with the same first seven and last seven Base58 digits |
| Titles.ShapeNamed | libsol/transaction_printers.c:200-670 | whatever is recognised, every title printed tells the kind of its item and its part of the summary, and is not cut |
| Screens.TextMeans | libsol/transaction_summary.c:150-203 | whatever is displayed, read by a reader of its kind, is the value of the item: amounts, numbers, keys, hashes, dates, and texts that fit |
| Screens.TitleWhole | libsol/include/sol/printer.h:8 | a title is shown whole exactly up to 31 characters |
| Screens.TextToldIff | libsol/printer.c:85-97 | no other text is shown like this one if and only if it has fewer than 44 characters, or 44 without the mark of a cut at the end |
| Screens.SeedToldIff | libsol/printer.c:69-83 | no other seed is shown like this one if and only if it has 44 characters, no NUL, and no mark of a cut at the end |
| Screens.ShortKeyTwin | libsol/printer.c:99-118 | abridged, every key looks like another one |
| Screens.ItemsAlike | libsol/transaction_summary.c:150-203 | two items of one kind have the same text if and only if their values look alike, by kind: token amounts up to a power of ten, keys by their ends when abridged, timestamps by the day shown |
| Screens.ScreensAlike | src/ui/sign_message_bagl.c:29-44 | two items under printed titles have the same title and text if and only if they have the same title and kind and values that look alike |
| Screens.ScreenToldIff | src/ui/sign_message_bagl.c:29-44 | no other item under a printed title has the screen of this one, if and only if its value can be told from its text: never for timestamps and abridged keys |
| Screens.SeedsCut | libsol/printer.c:69-83 | long seeds that agree in 43 characters look alike |
| Screens.SeedEnds | libsol/printer.c:69-83 | what a seed has behind a NUL is not shown |
| Screens.KeyClash | libsol/printer.c:99-118 | some key, abridged, looks like the address of the system program |
| Overview.SummaryTells | src/handle_sign_message.c:30-92 | the prepared summaries of two messages are the same if and only if the same nonce, fee, fee payer and visible instructions (or message hash) are in them |
| Overview.DisplaysAlike | src/handle_sign_message.c:121-155 | two messages that are displayed have the same screens if and only if they have as many items, under the same titles, with values that look alike |
| Overview.DisplayTells | src/handle_sign_message.c:121-155 | a message whose items can be told has the screens of another message if and only if the same nonce, fee, fee payer and visible instructions are in both |
| Overview.SummaryMovesIff | libsol/transaction_printers.c:672-729 | every transaction with the same summary moves the same if and only if what is behind nonce and budget neither ends with a split nor creates an account for tokens |
| Recogniser.Dispatch | libsol/transaction_printers.c:574-670 | the chain of tables finds the sequence that the instructions are |
| Recogniser.RecognisedIsLanguage | libsol/transaction_printers.c:8-198 | exactly the language of the tables and single instructions is recognised, with staker or voter before withdrawer |
| Recogniser.ShapeIsMadeOf | libsol/transaction_printers.c:200-670 | a recognised sequence consists of just these instructions in their order, each in its role |
| Recogniser.LineBudget | libsol/transaction_printers.c:253-270 | no sequence prints more than eleven lines, and one kind prints eleven |
| Transaction.Preprocess | libsol/transaction_printers.c:672-712 | the loop on the front element drops the maximal run, stays in bounds and keeps the last limit and price |
| Transaction.FeeShown | libsol/transaction_printers.c:704-709 | there is a fee line exactly when a limit or a price was requested |
| Transaction.FeeIs | libsol/transaction_printers.c:672-712 | the fee line of a run of requests is the fee of its last limit, its last price and its signatures, wherever these are |
| Transaction.PartsAre | libsol/transaction_printers.c:672-729 | a leading nonce advance, the maximal run of requests behind it and the rest: the fee is that of the run, counted with all instructions behind the nonce, and the rest is what is recognised |
| Transaction.PartsExist | libsol/transaction_printers.c:672-729 | every transaction has these parts |
| Transaction.PrintTransaction | libsol/transaction_printers.c:714-729 | what every slot holds afterwards, for every transaction, and when the slots run out |
| Transaction.RefusedLeavesRoom | src/handle_sign_message.c:67-83 | a refused transaction leaves the primary slot and a general one free |
| Transaction.OverfullExists | libsol/stake_instruction.c:514-557 | four instructions can ask for a twelfth slot |
| Handler.ScanForSigner | src/handle_sign_message.c:14-28 | the first of the required keys that is the signer's, read from behind the keys where there are too few |
| Handler.SignerIsKeyIff | src/handle_sign_message.c:14-28 | whatever lies behind the message, a signer that is found is one of its keys, if and only if there are as many keys as required signatures |
| Handler.BlockhashSigns | src/handle_sign_message.c:14-28 | a header without keys for which the blockhash is found as the signer |
| Handler.FeePayerIs | src/handle_sign_message.c:87-91 | the fee payer is the first key, or the blockhash if there is none |
| Handler.ParseMessage | src/handle_sign_message.c:30-92 | the reply for every message and every setting, the read behind the buffer told apart from a missing signer, and the summary when it is ready |
| Handler.BlindSlots | src/handle_sign_message.c:71-80 | after a refusal blind signing always finds both its slots |
| Handler.PrepareBlind | src/handle_sign_message.c:71-80 | fills the two slots |
| Handler.PreparedIsFinal | src/handle_sign_message.c:121-150 | finalize cannot fail after a message that was not turned down |
| Swap.SwapStrToU64 | src/swap/swap_utils.c:5-16 | the big-endian value of at most eight bytes |
| Swap.CheckSwapAmount | src/swap/handle_swap_sign_transaction.c:70-93 | on the buffers that the display filled: true exactly for the line of a transfer of the agreed amount |
| Swap.CheckSwapRecipient | src/swap/handle_swap_sign_transaction.c:96-113 | on the buffers that the display filled: true exactly for the recipient's line with a key whose text was agreed on |
| Swap.RecipientFound | src/swap/handle_swap_sign_transaction.c:96-113 | comparing texts finds the one key that was agreed on |
| Swap.AmountFound | src/swap/handle_swap_sign_transaction.c:70-93 | comparing texts compares titles and amounts |
| Swap.CheckSwapValidity | src/handle_sign_message.c:94-119 | true exactly when the two steps are the amount and the recipient |
| Exchange.Session.CopyParameters | src/swap/handle_swap_sign_transaction.c:20-67 | what is accepted and what is kept of it |
| Exchange.Session.HandleUi | src/handle_sign_message.c:121-155 | finalize, guard against signing twice and check together: the verdict and the guard afterwards |
| Exchange.Session.Sign | src/handle_sign_message.c:30-155 | from the bytes of any message to the verdict: approved exactly when it is the agreed transfer, and never after another verdict |
| Exchange.Run | src/handle_sign_message.c:30-155 | from the parameters of an exchange and the bytes of a message to the verdict |
| Exchange.AddressJudged | src/swap/handle_swap_sign_transaction.c:42-49 | approved exactly for a transfer to the key with the kept address; it is the only one, and kept whole are the addresses up to 44 characters |
| Exchange.KeyJudged | src/swap/handle_swap_sign_transaction.c:42-49 | with the address of a key agreed on, approved exactly for transfers to that key |
| Exchange.LongAddress | src/swap/handle_swap_sign_transaction.c:42-49 | no key has an address that goes on behind 44 characters, and it is kept as the address of another |
| Exchange.LongAddressJudged | src/swap/handle_swap_sign_transaction.c:42-49 | for such an address transfers to that key are approved |
| Exchange.LongAddressExists | src/swap/handle_swap_sign_transaction.c:42-49 | there is such an address |
| SwapSafety.SwapIff | src/handle_sign_message.c:94-119 | of all prepared messages exactly the agreed transfers are approved |
| SwapSafety.SwapGoesTo | src/handle_sign_message.c:94-119 | an agreed transfer goes to the one key whose text was agreed on |
| SwapSafety.PreparedIsShowable | src/handle_sign_message.c:104-105 | the check never displays a token amount, so never one that overruns the display |
| SwapSafety.ApprovedBytes | src/handle_sign_message.c:94-119 | the bytes of an approved message: one transfer of the amount from the signer to the recipient, and harmless instructions |

## Left out

- Screens, menus, the event loop, transport and stored settings: device input and output.
- Key derivation, signatures and SHA-256: foreign code; keys and hashes are 32 bytes, the message hash is a parameter.
- Tests for null pointers that no caller passes.
- The token table, the program ids and the parsers of stake, vote and token instructions: parameters of `Instructions.Environment` and `Printers.Config`, so everything holds for any of them; system, compute budget and associated token instructions are parsed in full, on values rather than with a cursor.
- The printers (libsol/*_instruction.c) are functions that list the lines in order; `Summary.TransactionSummary.Print` writes them into the slots one by one. A slot that is taken and left unused is not a line.
- MAX_MESSAGE_LENGTH: it comes from a header that is not part of this model, and is the capacity of the message buffer, any number.
- Apdu.RunExplained: speaks of runs of the two current sign instructions; for GET_PUBKEY, the settings and the deprecated instructions only single APDUs are characterised (`Chunking.PubkeyRoundTrip` and the rows behind it).
- Decimal.PrintU64: the empty text in a one-byte buffer is reported as success, as the source does.
- What a swap application reads and writes around an exchange: clearing the memory, the return address and the end of the application.
- `Money` counts the amounts that instructions name; rent, fees and the contents of accounts that are closed or merged are named by none.
- Methods that leave their buffer for some inputs say so with an out-parameter `beyond` and stop there; what the memory holds afterwards is not part of this model.
- Overview.DisplayTells: the condition that all items can be told is exact for each item (`Screens.ScreenToldIff`) but only sufficient for a message, because the item that looks alike need not come from another message; `Overview.DisplaysAlike` is exact for any two messages.
- Swap.CheckSwapValidity: requires that the two items it displays are no token amounts with 44 decimals; `SwapSafety.PreparedIsShowable` proves that of every prepared summary.
- `Utf8` works on bit vectors because the source does; all other modules write masks and shifts as division and remainder.
