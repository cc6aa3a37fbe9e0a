# riperf3: numbers, reports, the client run and the auth token

A Dafny model of the closed logic of riperf3, and proofs about it. `dafny verify dfyconfig.toml` checks all of it.

**Option numbers** (`CNumberGrammar`, `CNumberScanner`, `CNumberMunch`, `FloatParser`, `CStrtod`,
`CUnitSuffix`, `CConversions`, `NumberExamples`). The grammar is a syntax tree with a text and an exact value, written
without reference to the scanner. `Scan` is the longest match as a function, `CStrtodPrefix` the scanner with its loops,
proved equal to it; `FloatParser` is Rust's float parser, which the decimal branch calls. On top stand the unit suffix
step, the push-back scanner it is said to be equivalent to, `atoi`, and the double to uint64 to int chain.

**Report values** (`Calendar`, `HttpDate`, `DecimalRounding`, `NumberFormat`). Hinnant's civil-from-days
(`CivilFromDays`) against counting days, the date rendering against a parser of its layout, and `%.*g`
(`FormatG`, `TrimTrailingZeros`, `CjsonNumber`) over two exactly rounding formatters (`RustSci`, `RustFixed`).

**Report sums** (`Sums`, `Report`, `ReportConservation`, `ReportTotals`, `ReportFigures`). `Report.Build` follows
`ReportInput::build` and `end_stream` arm by arm, one function per role, direction and protocol. The other modules relate
the aggregates to the entries, to each other, to the peer's report and to the order of the streams.

**The client run** (`ClientTrace`, `ClientHistory`, `ClientReports`, `ClientRun`). `Client` is a class with the fields of
`RunCtx`, the flags and the abort guard. The world is a script with one answer per await, and an exhausted script is the
future being dropped at that await, so a proof for every script covers every order of states, every failure, interrupt
and cancellation. A ghost history records each answer and each action, and its answers are exactly what the script has
given. `PhaseOf` reads off a history where the run stands: at which await, owing which action, over, or closing down.
`ClientHistory` says what every history that follows these phases has in common, from the counts of dumps and messages to
the exact reason of each ending, and that a script allows one history only; `ClientReports` what a run hands back and what
each state has done, read off the answers and actions without the phases.

**The auth token** (`AuthToken`). The plaintext printer, Rust's `lines`, the three-field parser and its loop.

Bytes are characters, so a statement about all strings covers all byte strings. Doubles are exact reals with NaN and the
infinities. Report counts are unbounded integers.

## Where a promise fails

- A client aggregate of the side it did not measure takes the peer's figures whole, but an entry without one falls back
  to its local count. In TCP they agree if and only if the run was terminated, no stream of the direction reported, or
  the streams that did not report moved nothing (`GraftAgrees`). In UDP, for a direction a client receives, if and only
  if the peer's figures add up to 0 on a terminated run, and on an error-free run the streams that did not report moved
  nothing or, in bidir, none reported (`UdpGraftAgrees`). `PartialReportDisagrees` and `UdpPartialReportDisagrees` show
  the failure.
- `sum.packets` of a direction a client receives need not be the sum of its entries' packets. It is if and only if
  `ReceivedCountsAgree` holds (`ReceivedPacketAgreement`). It fails when the aggregate divides a byte total that the
  entries divide stream by stream (`QuotientExcess`, 3 against 2), and when the run is interrupted after the results
  exchange: the aggregate keeps the peer's figures and the entries do not (`TerminatedAfterExchangeDisagrees`, 3 packets
  against 2 and 30 bytes against 0).
- The token round trip fails for a field with a newline or a final carriage return, and only for those
  (`TokenRoundTrip`; `NewlineIsLost` and `ReturnIsLost` are instances).
- The comment on `StartMeta` (`client.rs:2803-2808`) reserves the bare end for the upfront refusal. The code also gives it
  to a mid-test relayed error, a lost control connection and a failed results read, and so does the model
  (`BareEndAfterStart`).

Two more promises hold of every run but not of `build` on its own. `sum_sent.retransmits` of a TCP bidir client would
change between no stream and receiving streams alone (`ReceiversDoNotCount`, `LoneReceiverCounts`), but a client creates
its senders first (`client.rs:1384-1395`), so it never does (`CreatedReceiversDoNotCount`). And a single-direction server
would total retransmits of streams it received, which their entries do not show (`RetransmitAgreement`,
`ReceivedRetransmitsDisagree`), but it gives those streams none (`server.rs:3834-3846`), so the figures always agree
(`RetransmitsConserved`).

## Model

| member | source | states |
|---|---|---|
| `CNumberMunch.Munch` | riperf3-cli/src/cli.rs:1024-1149 | Any number of the grammar that is a prefix of the input is no longer than what is scanned, and if equally long it is the very tree scanned: whitespace, sign, inf/infinity, nan, hex with its two back-ups, decimal and exponent back-up. |
| `CNumberMunch.MaximalMunch` | riperf3-cli/src/cli.rs:1011-1024 | Nothing is scanned exactly when no prefix is in the grammar; otherwise the scanned prefix is in the grammar and no longer prefix is. |
| `CNumberMunch.Unambiguous` | riperf3-cli/src/cli.rs:1009-1017 | A text has at most one reading, so "the value of the prefix" is well defined. |
| `CNumberScanner.ScanSound` | riperf3-cli/src/cli.rs:1024-1149 | What is scanned is a well-formed number whose text is a prefix of the input. |
| `CNumberScanner.RunIsMaximal` | riperf3-cli/src/cli.rs:1122-1132 | A digit or whitespace loop stops at the end of the maximal run. |
| `CStrtod.CStrtodPrefix` | riperf3-cli/src/cli.rs:1024-1149 | The scanner's loops and branches return exactly the value and end index of the longest number prefix, or None. |
| `CStrtod.SkipRun` | riperf3-cli/src/cli.rs:1026-1031 | The index loop ends where the run of its character class ends. |
| `CStrtod.HexWhole` | riperf3-cli/src/cli.rs:1069-1075 | The accumulator of the hex integer loop is the value of the digits read. |
| `CStrtod.HexFraction` | riperf3-cli/src/cli.rs:1076-1084 | Adding digits at a shrinking scale gives the exact hex fraction. |
| `CStrtod.SaturatingDigits` | riperf3-cli/src/cli.rs:1107-1111 | Saturating at every step of the i32 exponent equals saturating the whole digit run once. |
| `CStrtod.HexExponent` | riperf3-cli/src/cli.rs:1093-1116 | Over exact reals: the p exponent counts only with a digit; then the mantissa is multiplied by the signed, saturated power of two, else the index backs up. |
| `CStrtod.HexNumber` | riperf3-cli/src/cli.rs:1067-1118 | The hex branch gives 0 and the index after the zero when no hex digit follows, otherwise the signed magnitude of mantissa and exponent. |
| `CStrtod.HexExponentSaturates` | riperf3-cli/src/cli.rs:1107-1116 | A binary exponent counts in full up to 2147483647 in either direction and stops there. |
| `CNumberGrammar.HexDigitsByName` | riperf3-cli/src/cli.rs:1071-1080 | The hex digits of both cases have the values 0 to 15 in order. |
| `NumberExamples.ReadsDecimal` | riperf3-cli/src/cli.rs:1119-1149 | A literal with spaces, a sign, a fraction and an exponent has its value. |
| `NumberExamples.ReadsHex` | riperf3-cli/src/cli.rs:1067-1118 | Literals with a hex fraction, a binary exponent and capitals have their values. |
| `NumberExamples.ReadsWords` | riperf3-cli/src/cli.rs:1049-1066 | The words in mixed case and with signs are the infinities and NaN. |
| `NumberExamples.BacksUp` | riperf3-cli/src/cli.rs:1018-1023 | An exponent without a digit, a hex prefix without one and a hex point without one back up to the number before. |
| `CStrtod.DecimalEnd` | riperf3-cli/src/cli.rs:1119-1147 | The decimal branch ends after the mantissa, or after an exponent that has a digit; it fails exactly when no decimal number is there. |
| `CStrtod.StrtodIsLongestNumber` | riperf3-cli/src/cli.rs:1014-1017 | Every number prefix is covered by the result, and when it is as long as the result the value is that number's meaning. |
| `CStrtod.StrtodOfNumber` | riperf3-cli/src/cli.rs:1024-1149 | A complete number is read whole, with its own value. |
| `FloatParser.ParseF64OfNumber` | riperf3-cli/src/cli.rs:1148-1149 | A parser that splits at the exponent marker and the point, as Rust documents the format, accepts every spaceless decimal number or word of the grammar with the value it denotes, so the `expect` cannot fire. |
| `FloatParser.AcceptedIsNumber` | riperf3-cli/src/cli.rs:1148-1149 | Conversely, whatever that parser accepts is such a number. |
| `CStrtod.DecCase` | riperf3-cli/src/cli.rs:1148-1149 | The slice taken from the sign on parses to the scanned number's value. |
| `CUnitSuffix.ScanfFailsWhereStrtodBacksUp` | riperf3-cli/src/cli.rs:1018-1021 | A scanner with one byte of push-back reads the longest viable prefix; it fails exactly where strtod backs up past a byte that still could grow into a number, and agrees everywhere else. |
| `CUnitSuffix.UnitIsNotViable` | riperf3-cli/src/cli.rs:1019-1023 | A unit letter right after a number never continues it, inside inf/infinity and hex digits included. |
| `CUnitSuffix.ScannersAgree` | riperf3-cli/src/cli.rs:1018-1023 | On every input and base, the suffix step gives the same result over strtod's backed-up prefix and over the push-back scanner. |
| `CUnitSuffix.JunkAfterSuffixIgnored` | riperf3-cli/src/cli.rs:1152-1156 | Bytes appended after an accepted suffix never change the value. |
| `CUnitSuffix.UnitsByLetter` | riperf3-cli/src/cli.rs:1157-1167 | Any number, one unit letter, any junk: t and T multiply by the base four times, g and G three, m and M two, k and K once; an infinity or NaN stays what it is. |
| `CUnitSuffix.OtherSuffixFails` | riperf3-cli/src/cli.rs:1157-1167 | Any other character right after a number that it cannot continue is an error. |
| `CUnitSuffix.NoNumberFails` | riperf3-cli/src/cli.rs:1157-1158 | An input no prefix of which is a number is an error. |
| `CUnitSuffix.NumberAlone` | riperf3-cli/src/cli.rs:1157-1160 | A number without suffix is its own value. |
| `CConversions.AtoiLikeBytes` | riperf3-cli/src/cli.rs:974-1000 | The re-slicing loops and the directional saturation compute the 32-bit wrap of the 64-bit clamped signed value of the digit run after spaces and one sign. |
| `CConversions.ParseClamps` | riperf3-cli/src/cli.rs:993-998 | Parsing with a saturating fallback is clamping in the direction of the sign, -2^63 included. |
| `CConversions.LeadingDigits` | riperf3-cli/src/cli.rs:988 | `take_while` counts the maximal digit run. |
| `CConversions.DropSpace` | riperf3-cli/src/cli.rs:978-981 | The slice loop drops exactly the leading C whitespace. |
| `CConversions.AtoiOfText` | riperf3-cli/src/cli.rs:963-973 | Every 64-bit integer's text, with any whitespace before and any non-digit junk after, gives its 32-bit wrap. |
| `CConversions.AtoiOfDigits` | riperf3-cli/src/cli.rs:963-1000 | Any digit run of any length after spaces and either sign or none: its 32-bit wrap, but -1 above the range of an i64 and 0 below it. |
| `CConversions.AtoiWithoutDigits` | riperf3-cli/src/cli.rs:988-991 | Without a digit after the spaces and the sign the result is 0. |
| `CConversions.Wrap32IsCongruent` | riperf3-cli/src/cli.rs:999 | The int cast is the one 32-bit integer congruent to its argument. |
| `CConversions.DoubleToU64Congruence` | riperf3-cli/src/cli.rs:1256-1278 | Truncation modulo 2^64 on [-2^63, 2^64), 0 at and above 2^64, 2^63 below -2^63. |
| `CConversions.FlipTopBitIsXor` | riperf3-cli/src/cli.rs:1276 | For every 64-bit word the model's flip of the top bit is the bit-vector xor, and both add 2^63 modulo 2^64. |
| `CConversions.DoubleToIntWraps` | riperf3-cli/src/cli.rs:1264-1285 | Both conversions together keep the signed low 32 bits of the truncated value. |
| `CConversions.WordsToU64` | riperf3-cli/src/cli.rs:1256-1278 | NaN and -inf give 2^63, +inf gives 0. |
| `CConversions.UnitOptionToInt` | riperf3-cli/src/cli.rs:1169-1187 | A number with a K, M, G or T and any junk, converted for an int option, is the 32-bit wrap of the truncated product with 1024, 1048576, 1073741824 or 1099511627776. |
| `Calendar.CivilIsDayNumber` | riperf3/src/json_report.rs:1134-1141 | For every day count the nested divisions give the date reached by that many steps of the Gregorian next-day function from 1970-01-01. |
| `Calendar.CivilStep` | riperf3/src/json_report.rs:1134-1141 | One more day is the next calendar day, across months, years, leap days, centuries and eras. |
| `Calendar.YearOfEraIsRight` | riperf3/src/json_report.rs:1137-1138 | The corrected quotient is in 0..399 and the rest is a day of that year. |
| `Calendar.YearOfEraUnique` | riperf3/src/json_report.rs:1137-1138 | Any year and day of year that make up the day of era are the ones found. |
| `Calendar.Ranges` | riperf3/src/json_report.rs:1134-1141 | Every intermediate stays in the range its comment gives and the result is a calendar date. |
| `Calendar.OrdinalOfDayNumber` | riperf3/src/json_report.rs:1134-1141 | Adding up year and month lengths of the n-th date gives n, so no two days share a date. |
| `HttpDate.DateIsWide` | riperf3/src/json_report.rs:1142-1152 | Month and day fit the table index and the two-digit fields; the year is at least 1970. |
| `HttpDate.Weekday` | riperf3/src/json_report.rs:1131-1132 | The weekday index is always inside its table. |
| `HttpDate.WeekdayAdvances` | riperf3/src/json_report.rs:1131-1132 | Day 0 is a Thursday and each day advances the weekday by one modulo 7. |
| `HttpDate.ParseOfHttpDate` | riperf3/src/json_report.rs:1122-1153 | A parser of the IMF-fixdate layout with its own names for months and weekdays, weekday checked, gives the timestamp back for every timestamp. |
| `HttpDate.Examples` | riperf3/src/json_report.rs:1119-1121 | The epoch and the documented example render as the literal texts. |
| `HttpDate.HttpDateInjective` | riperf3/src/json_report.rs:1122-1153 | Two timestamps never share a rendering. |
| `DecimalRounding.Exponent10Leads` | riperf3/src/json_report.rs:78-83 | The decimal exponent puts one nonzero digit before the point. |
| `DecimalRounding.Exponent10Unique` | riperf3/src/json_report.rs:78-83 | No other exponent does. |
| `DecimalRounding.SciDigitsRange` | riperf3/src/json_report.rs:81 | Scientific formatting prints exactly p digits, the first not 0, also after a carry. |
| `DecimalRounding.CarryKeepsValue` | riperf3/src/json_report.rs:78-83 | The carry into the exponent (9.99 to 10.0) changes the notation, not the value. |
| `DecimalRounding.SecondRounding` | riperf3/src/json_report.rs:92-95 | Rounding again in the fixed branch, at the place the carried exponent points to, finds the same digits. |
| `DecimalRounding.RoundedExponent` | riperf3/src/json_report.rs:81-85 | The exponent read from the scientific text is the rounded number's own. |
| `DecimalRounding.SigRoundError` | riperf3/src/json_report.rs:73-75 | Rounding to p digits moves a number by at most half a unit in its p-th digit. |
| `DecimalRounding.SigRoundHalfEven` | riperf3/src/json_report.rs:73-75 | Of all numbers with p digits the rounded one is the nearest, and of two as near the one with an even last digit. |
| `NumberFormat.SciTextSplits` | riperf3/src/json_report.rs:81-83 | Splitting the scientific text at 'e' and parsing the exponent recovers both parts, so neither `unwrap` fires. |
| `NumberFormat.TrimFixed` | riperf3/src/json_report.rs:98-105 | Trimming a fixed-point text drops exactly the fraction's trailing zeros and a bare point, never a zero of the whole part. |
| `NumberFormat.TidyFractionValue` | riperf3/src/json_report.rs:98-105 | Trimming does not change the fraction's value. |
| `NumberFormat.FormatGDenotes` | riperf3/src/json_report.rs:73-105 | For every nonzero number and precision the text is a JSON number without trailing fractional zero whose exact value is the number rounded half-even to that many significant digits. |
| `NumberFormat.FormatGHalfEven` | riperf3/src/json_report.rs:73-105 | The text denotes the number with the requested digits nearest to d, and of two as near the one with an even last digit. |
| `NumberFormat.FormatGError` | riperf3/src/json_report.rs:73-105 | The printed value is within half a unit in the last significant digit. |
| `NumberFormat.FormatGExact` | riperf3/src/json_report.rs:73-105 | A number with no more than the requested digits is printed exactly. |
| `NumberFormat.FormatGNotation` | riperf3/src/json_report.rs:85-96 | Scientific notation exactly when the rounded number's exponent is below -4 or at least p, with C's signed exponent of at least two digits. |
| `NumberFormat.FormatGReadsBack` | riperf3/src/json_report.rs:53-57 | The option scanner and Rust's float parser both read the printed text whole, to the same value. |
| `NumberFormat.CjsonNumberDenotes` | riperf3/src/json_report.rs:43-63 | `null` exactly for NaN and infinities; otherwise a number of section 6 of RFC 8259 with no trailing fractional zero, of the promised exact value. |
| `NumberFormat.CjsonNumberHalfEven` | riperf3/src/json_report.rs:43-63 | A number that is no integer under the bound is printed with 15 digits, or 17 when 15 do not read back, nearest and half to even. |
| `NumberFormat.IntegralReadsBack` | riperf3/src/json_report.rs:47-50 | An integral value under the bound is a plain integer token that an i64 parser reads back. |
| `ReportConservation.TcpConservation` | riperf3/src/json_report.rs:1257-1642 | For client and server, forward, reverse and bidir, terminated or not: each measured aggregate is the sum of its entries, and the other side's is exactly when the graft condition holds. |
| `ReportConservation.TcpFigures` | riperf3/src/json_report.rs:1257-1642 | The sent and received bytes of a direction: the local total on the measured side; 0, the peer's total, or the fallback on the other. |
| `ReportConservation.TcpEntryTotals` | riperf3/src/json_report.rs:2001-2012 | What the TCP entries of each direction add up to. |
| `ReportConservation.AllOrNoneAgrees` | riperf3/src/json_report.rs:1198-1210 | All or none of a direction's streams carrying the peer's figure suffices for agreement. |
| `ReportConservation.PartialReportDisagrees` | riperf3/src/json_report.rs:1934-1940 | A concrete client whose peer reported one of two streams: the aggregate says 8, the entries 13. |
| `ReportConservation.UdpConservation` | riperf3/src/json_report.rs:1257-1611 | `sum.bytes` of a direction is the sum of `udp.bytes` over its entries: always for a server and for a sent direction, and for a direction a client receives exactly under the stated condition. |
| `ReportConservation.UdpEntryBytes` | riperf3/src/json_report.rs:1828-1890 | What the UDP entries of each direction add up to in bytes. |
| `ReportConservation.UdpExchangeAgrees` | riperf3/src/json_report.rs:1861-1890 | All figures exchanged on an error-free run, or none on a terminated one, suffices for agreement. |
| `ReportConservation.UdpPartialReportDisagrees` | riperf3/src/json_report.rs:1558-1562 | A concrete reverse client where `sum.bytes` says 8 and the entries 13. |
| `ReportConservation.FullBlockPackets` | riperf3/src/json_report.rs:2053-2059 | Counting the datagrams of full-block senders is dividing their byte total, for any number of streams. |
| `ReportConservation.LocalPacketAgreement` | riperf3/src/json_report.rs:1257-1611 | `sum.packets` is the sum of the entries' packets: always on a server; on a sending client exactly when its own count was not replaced by the measured one, or equals it. |
| `ReportConservation.ExchangedPacketAgreement` | riperf3/src/json_report.rs:1448-1465 | Receiving client with a positive exchanged count on every stream: aggregate and entries agree. |
| `ReportConservation.QuotientPacketAgreement` | riperf3/src/json_report.rs:1576-1592 | Receiving client with the peer's bytes but no exchanged counts: the aggregate exceeds the entries by 0 to n-1 packets, and by 0 exactly when the streams' remainders add up to less than a block. |
| `ReportConservation.QuotientOfSum` | riperf3/src/json_report.rs:1580-1582 | Dividing a sum against summing the quotients: the difference is between 0 and n-1. |
| `ReportConservation.QuotientExcess` | riperf3/src/json_report.rs:1880-1882 | The excess is real: 3 against 2 for two streams of three bytes in blocks of two. |
| `ReportConservation.ReceivedPacketAgreement` | riperf3/src/json_report.rs:1448-1592 | For every receiving client, however much was exchanged and however the run ended, `sum.packets` is the sum of the entries' packets exactly when: all counts exchanged, and error-free or equal to the measured count; else, at least a block to divide, and the entries' packets leave between 0 and a block of it uncovered; else what the entries show instead of measurements cancels out. |
| `ReportConservation.TerminatedPacketAgreement` | riperf3/src/json_report.rs:1448-1592 | After an error the figures agree exactly when the peer's count is missing or equals the measured one; with nothing exchanged it is missing. |
| `ReportConservation.TerminatedAfterExchangeDisagrees` | riperf3/src/client.rs:834-855 | A concrete interrupt after the results exchange: `sum` says 30 bytes and 3 packets, the entries 0 and 2. |
| `ReportConservation.UdpLossConservation` | riperf3/src/json_report.rs:1257-1611 | `lost_packets` of the sum is that of its entries, except that a direction the server sends prints 0. |
| `ReportConservation.JitterIsMean` | riperf3/src/json_report.rs:1226-1241 | The aggregate jitter times the requested stream count is the sum of the entries' jitter. |
| `ReportConservation.OnePercentBase` | riperf3/src/json_report.rs:2137-2165 | The loss percentages of a direction's sum and received side are over the same packets, except exactly for a direction in which a bidir server sent a packet. |
| `ReportConservation.EntryPercentBase` | riperf3/src/json_report.rs:1819-1915 | An entry's loss percentage exists exactly over a sender-side packet count, and then over the count it shows. |
| `ReportConservation.SenderFlags` | riperf3/src/json_report.rs:1257-1642 | The `sender` flags: TCP sides and the UDP sum say whether this host sends the direction, the UDP sent and received sides are always true and false. |
| `ReportConservation.HostsAgree` | riperf3/src/json_report.rs:1257-1642 | The two ends of one run print the same byte count for every side the server measured, in either protocol and direction. |
| `ReportFigures.Rates` | riperf3/src/json_report.rs:1107-1113 | In every aggregate and every side of every entry the time is the report's, the rate times the time is eight times the bytes, and without time the rate is 0. |
| `ReportFigures.Shape` | riperf3/src/json_report.rs:1178-1257 | One entry per stream; which of the six aggregates exist depends on the protocol, bidir and a bare end alone. |
| `ReportFigures.UdpReceivedSide` | riperf3/src/json_report.rs:1257-1611 | A received side has the losses and mean jitter of its direction's entries, the packets measured and no retransmits, except 0 throughout for what a bidir server sends. |
| `ReportFigures.UdpSentSide` | riperf3/src/json_report.rs:1257-1611 | A sent side has no loss and no jitter, this host's bytes and packets for what it sends (a single-direction client that moved no bytes shows no packets), 0 for what a server receives and the peer's figures for what a client receives. |
| `ReportFigures.TcpRetransmits` | riperf3/src/json_report.rs:1329-1642 | When a sent side shows retransmits and which: by capability or the peer's flag, None, the -1 sentinel, a total, or 0 before any stream; a received side never. |
| `ReportTotals.RetransmitsShape` | riperf3/src/json_report.rs:2086-2100 | None iff no selected stream reports, -1 iff reports exist and all are negative, else the sum of the non-negative ones. |
| `ReportTotals.RetransmitsSplit` | riperf3/src/json_report.rs:2061-2100 | Clamped at 0, the unfiltered total is the sum of the two directions'. |
| `ReportTotals.RetransmitAgreement` | riperf3/src/json_report.rs:1329-1642 | For every input of `build`, reachable or not: the retransmits of a direction's sent aggregate are those its entries show, except exactly for a single-direction server totalling retransmits of streams it received. |
| `ReportTotals.RetransmitsConserved` | riperf3/src/server.rs:3834-3846 | For every input a host builds (a server gives the streams it received no retransmits) the two agree, in every role, direction and ending. |
| `ReportTotals.ReceivedRetransmitsDisagree` | riperf3/src/json_report.rs:1329-1642 | The unreachable input behind the exception: a server's received stream with 4 retransmits gives 4 against 0. |
| `ReportTotals.ReceiversDoNotCount` | riperf3/src/json_report.rs:1541-1553 | For every input of `build`: in client TCP bidir `sum_sent.retransmits` is the same for any receiving streams, except exactly where they make the difference between no stream and some. |
| `ReportTotals.CreatedReceiversDoNotCount` | riperf3/src/client.rs:1384-1395 | Of the streams a bidir client has created, senders first, only the senders decide `sum_sent.retransmits`, at every point of the creation. |
| `ReportTotals.LoneReceiverCounts` | riperf3/src/json_report.rs:1541-1553 | The unreachable input behind the exception: no stream prints 0, one receiving stream prints nothing. |
| `ReportTotals.AggregatesReordered` | riperf3/src/json_report.rs:1178-1257 | All six aggregates are independent of the order of the streams. |
| `ClientRun.Client.Run` | riperf3/src/client.rs:384-663 | For every script: the history follows the protocol on the answers given, which with the unread ones are the script; no stream task is left unaborted and unjoined; `done` precedes every abort and the control socket drops last; at most one dump; a report's intervals, window, start time, peer half, bare end and error read off the history's answers alone; every outcome but a drop exactly when what was handled, sent or heard calls for it; a drop only at the end of the script; the teardown sleeps exactly for streams of a started test whose data nobody stopped. |
| `ClientRun.Client.Loop` | riperf3/src/client.rs:462-580 | The loop extends the history and stops where the protocol says the run is over, with that ending, or at an await the script no longer answers. |
| `ClientRun.Client.Dispatch` | riperf3/src/client.rs:496-562 | Each control state runs its own handler, whatever came before: it is the state handled last, the history is extended, and only that state's steps come out. |
| `ClientRun.Client.OnAnswer` | riperf3/src/client.rs:476-494 | An interrupt can only end the run as interrupted, a clean close only as ControlSocketClosed, a read error only as ReadFailed; a state is dispatched. |
| `ClientRun.Client.Dump` | riperf3/src/client.rs:778-828 | The one drain: the report is the one its occasion makes of the history (`DumpHolds` says what that is), and nothing collected is left. |
| `ClientRun.Client.OnInterruptedWait` | riperf3/src/client.rs:834-855 | CLIENT_TERMINATE is sent whether or not it arrives, then the run ends as interrupted, with the peer's half exactly if it had arrived and a zero window before TestStart. |
| `ClientRun.Client.OnParamExchange` | riperf3/src/client.rs:857-885 | After a delivered send the history gains the on_connect stamp of that moment; a failed send ends the run. |
| `ClientRun.Client.OnCreateStreams` | riperf3/src/client.rs:1367-1748 | Going on means exactly the configured number of streams was spawned, after two socket calls each in TCP, and in UDP three each, the address look-ups and the gate; a failed call ends the run, the earlier streams guarded. |
| `ClientRun.Client.SpawnStream` | riperf3/src/client.rs:1557-1570 | A spawned task enters the guard and the stream list with no await in between. |
| `ClientRun.Client.OnTestStart` | riperf3/src/client.rs:981-989 | The start flag is released and the stage carries the TestStart clock. |
| `ClientRun.Client.WatchData` | riperf3/src/client.rs:326-353 | The data phase ends at the first answer that meets the end condition, interrupts, brings SERVER_TERMINATE or SERVER_ERROR or loses the socket, and the event is that answer's; every other state is ignored. |
| `ClientRun.Client.RunTest` | riperf3/src/client.rs:1789-1990 | Every exit of the data phase passes through the cleanup: `done`, the grace, the reporter's end; and the measured time is the one its last answer gave, unless the socket was lost. |
| `ClientRun.Client.OnTestRunning` | riperf3/src/client.rs:1003-1064 | The event that ended the data phase decides the step: the end condition sends TestEnd and goes on, an interrupt, SERVER_TERMINATE and SERVER_ERROR end the run as such, a lost socket fails it; the cleanup ran in every case. |
| `ClientRun.Client.OnExchangeResults` | riperf3/src/client.rs:1071-1095 | Going on means both the send and the read succeeded and the results are kept; a failed send, an interrupt in the read and a failed read each end the run as such. |
| `ClientRun.Client.OnDisplayResults` | riperf3/src/client.rs:1119-1131 | The final report holds everything collected, the measured window, the peer's half exactly if it had arrived, a full end and no error, and is the one dumped; the loop breaks exactly when IPERF_DONE was delivered after it, and fails when it was not. |
| `ClientRun.Client.OnServerTerminate` | riperf3/src/client.rs:1185-1197 | The run ends as ServerTerminated with the full-end dump of the local half. |
| `ClientRun.Client.OnServerErrorRelay` | riperf3/src/client.rs:1146-1178 | After the payload is read the run ends as ServerErrored with a bare-end dump. |
| `ClientRun.Client.OnCtrlLost` | riperf3/src/client.rs:1204-1213 | In the JSON modes the history gains exactly the bare-end dump with the measured window and the error, in text mode nothing; the failure is always ControlSocketClosed. |
| `ClientRun.Client.OnRecvResultsFailed` | riperf3/src/client.rs:1106-1117 | The same for a failed results read, as RecvResultsFailed. |
| `ClientRun.Client.Teardown` | riperf3/src/client.rs:614-629 | Complete, it has aborted and joined every task and disarmed the guard; dropped inside, the guard still holds every task. |
| `ClientRun.Client.OweGrace` | riperf3/src/client.rs:614-617 | The grace sleep is taken exactly when no cleanup had set `done`, streams exist and the test had started. |
| `ClientRun.Client.AbortAll` | riperf3/src/client.rs:618-620 | Every stream task is aborted, after `done`. |
| `ClientRun.Client.JoinAll` | riperf3/src/client.rs:621-623 | Every stream task is joined, after its abort. |
| `ClientRun.Client.DropLocals` | riperf3/src/client.rs:437-451 | The locals drop as `done` guard, abort guard, context: whatever was live is aborted after `done`, and the control socket goes last. |
| `ClientRun.Client.DropGuard` | riperf3/src/stream.rs:1240-1248 | An armed abort guard aborts every task it holds; a disarmed one does nothing. |
| `ClientTrace.DumpTimestamp` | riperf3/src/client.rs:2820-2854 | The dumped timestamp is the last TestStart clock, else the last on_connect clock, else 0; the stage is Started exactly when a TestStart was handled. |
| `ClientTrace.StaysStarted` | riperf3/src/client.rs:868-876 | Once Started, no later state demotes the stage. |
| `ClientTrace.OrderedAborts` | riperf3/src/stream.rs:1174-1248 | In an ordered history every abort stands after `done`, every join after its abort, and nothing after the drop of the control socket. |
| `ClientHistory.HandledState` | riperf3/src/client.rs:496-576 | At every point of every run the state being handled is one that point belongs to: a data phase to TestRunning, a results read to ExchangeResults, a state wait to no ending state. |
| `ClientHistory.CountedHistory` | riperf3/src/client.rs:384-663 | At every point of every run: how many dumps, CLIENT_TERMINATE and IPERF_DONE it has behind it and whether an interrupt was heard. |
| `ClientHistory.AtMostOnce` | riperf3/src/client.rs:778-801 | In every history, ended or dropped: one dump at most, IPERF_DONE only with a dump, CLIENT_TERMINATE at most once. |
| `ClientHistory.DumpLosesNothing` | riperf3/src/client.rs:778-828 | Whatever a run does after its dump, the report is still what its occasion makes of the whole history; a run on no such occasion has dumped nothing. |
| `ClientReports.DumpHolds` | riperf3/src/client.rs:778-1213 | What the dump of each occasion holds, in terms of the answers alone: samples, window, start time, peer half, bare end, error. |
| `ClientReports.CollectedIsSamples` | riperf3/src/client.rs:1003-1015 | The reporter has kept, in order, the samples of exactly the answers of data phases and of the two that end each. |
| `ClientReports.MeasuredIsWindow` | riperf3/src/client.rs:1003-1064 | The measured time is that of the last data phase that did not lose its socket, else the requested one. |
| `ClientReports.InterruptedWhere` | riperf3/src/client.rs:834-855 | An interrupted run dumps as from a data phase exactly when an interrupt was heard in one before its end condition. |
| `ClientReports.StateIsDone` | riperf3/src/client.rs:496-562 | Whenever a run waits for the next state, the one in hand has done exactly what it is for: one stamp, all streams, the stop and TEST_END, or the results kept, and nothing else. |
| `ClientReports.ActionsAnswer` | riperf3/src/client.rs:476-1131 | Every stamp, message, handled state and kept result is what the answer just before it said. |
| `ClientHistory.HeardHistory` | riperf3/src/client.rs:384-663 | Whatever a run has come to, the last answer it heard is what led there. |
| `ClientHistory.EndingBySending` | riperf3/src/client.rs:580-663 | A finished run is complete exactly when results were displayed, IPERF_DONE delivered and results had been read; interrupted exactly when an interrupt was heard, which forces one CLIENT_TERMINATE; busy exactly on AccessDenied; MissingResults and NotDisplayed by what had been read and displayed. |
| `ClientHistory.EndingByHearing` | riperf3/src/client.rs:462-580 | A finished run was terminated or errored by the server, lost its control socket, failed a read, a send, a setup call or the results read exactly when the last answer heard says so. |
| `ClientHistory.ScriptDecides` | riperf3/src/client.rs:384-580 | Two finished histories with the same options whose answers come from one script are the same history. |
| `ClientHistory.OneHistory` | riperf3/src/client.rs:384-580 | Before the teardown, of two histories whose answers agree one continues the other. |
| `ClientHistory.DataEndsOnce` | riperf3/src/client.rs:326-353 | After an answer that ends the data phase there is no other data wait until another TestRunning is handled. |
| `ClientHistory.BareEndAfterStart` | riperf3/src/client.rs:1204-1213 | A concrete run with a bare end after TestStart: the control socket is lost in a started test. |
| `ClientHistory.EndingIsLast` | riperf3/src/client.rs:530-576 | After DisplayResults, IperfDone, AccessDenied, ServerError or ServerTerminate no other state is handled. |
| `AuthToken.DecodeAuthToken` | riperf3/src/auth.rs:121-141 | The loop with overwriting assignments is the last-match lookup of each of the three fields, with its two error cases. |
| `AuthToken.LastLineWins` | riperf3/src/auth.rs:120-141 | Of several lines with one literal prefix the last decides, even a timestamp that does not parse. |
| `AuthToken.MissingField` | riperf3/src/auth.rs:136-141 | Without a line for one of the three literal prefixes decoding fails. |
| `AuthToken.SpacedTimestamp` | riperf3/src/auth.rs:132 | A timestamp may stand among white space, Unicode's included. |
| `AuthToken.OnePrefix` | riperf3/src/auth.rs:126-134 | A line carries at most one of the three prefixes, so the order of the branches does not matter. |
| `AuthToken.PlaintextLines` | riperf3/src/auth.rs:75-76 | A printed token with newline-free fields splits into its three lines, each field losing one final carriage return. |
| `AuthToken.ParseOfPlaintext` | riperf3/src/auth.rs:75-141 | Decoding such a token returns the fields without a final carriage return and the same timestamp. |
| `AuthToken.ParsedFieldsAreLines` | riperf3/src/auth.rs:125-131 | No decoded field ever holds a newline. |
| `AuthToken.TokenRoundTrip` | riperf3/src/auth.rs:60-141 | Decoding an encoded token returns the same triple if and only if neither field holds a newline or ends in a carriage return, for every 64-bit timestamp. |
| `AuthToken.ReturnIsLost` | riperf3/src/auth.rs:60-141 | A concrete token whose final carriage return is lost. |
| `AuthToken.NewlineIsLost` | riperf3/src/auth.rs:60-141 | A concrete token with a newline that does not come back. |
| `AuthToken.TimestampOfIntText` | riperf3/src/auth.rs:132 | The printed timestamp survives trimming and parsing. |
| `Decimal.ParseIntOfIntText` | riperf3/src/auth.rs:132 | Printing an integer and parsing it gives it back; the 64-bit parser rejects wider ones. |

## Left out

- CStrtod.HexExponent: exact reals neither overflow nor underflow. In the code `powi` is infinite from an exponent of 1024 on, so `0x0p1024` is NaN where the model gives 0 and a small mantissa gives infinity where its exact value is finite; far below -1022 the power is 0.
- CStrtod.HexNumber: the same, as its magnitude is that product.
- Floating-point rounding: values are exact reals, so -0.0 is 0, and the i64 bound of `cjson_number` is the double its literal denotes.
- `compare_double` and the choice between 15 and 17 digits: the outcome of the re-read is a parameter of `CjsonNumber`.
- The two Rust formatters: specified as exact half-even rounding; and `parse::<f64>`: its documented format over exact values.
- Integer widths in the report: u64 sums and the casts to i64 do not wrap.
- `lost_percent`: an entry or aggregate carries the total it is taken over instead of the percentage.
- The `start` block, CPU figures, congestion names, serializers, error strings and all text output.
- Connecting the control socket: the run starts with it open and the guards in place.
- The reporter task, the data senders and receivers, and the byte budget: they appear as the samples and the end condition an await reports.
- The measured seconds of a data phase: the `elapsed` an answer reports, without the split between the requested time, the clock and the omit period.
- Which of two ready branches a `select!` takes: the script decides, so both are covered.
- Blocking UDP runners ignore an abort: as in the source, only the request is modelled.
- Streams as objects: a stream is its task number in the client run and its counters in the report.
- RSA and base64: one abstract pair, `open` undoing `seal`.
- `server.rs`, `net.rs`, `protocol.rs` beyond its state names, `units.rs`, the clap glue and the flag checks.
