# D-ITG statistics decoding and tcpdump capture set-up

This project models two jobs of the OpenBACH testbed agent.

**D-ITG sender job.** The job runs D-ITG to generate traffic. It then decodes the receiver and sender statistics files that `ITGDec` writes, one interval per line, and pushes timestamped readings to the collect agent:

- The receiver file gives bitrate, one-way delay, jitter, packet loss and the derived packet-loss rate.
- The sender file gives the same readings when the meter is round-trip (`rttm`). With one-way metering it gives only the bitrate.
- With round-trip metering, the job afterwards pairs the two delay series position by position and sends the return one-way delay (`owd_return`, sender delay minus receiver delay).
- The job's `memory_size` argument type reads sizes such as `1.5M` or `2K`.
- The packet rate is derived from the bandwidth when one is given.

**tcpdump_pcap job.** The job builds a capture filter from optional source/destination addresses, ports and protocol. It defaults the capture file when none is named and builds the tcpdump argument list.

Modules:

- `Wrappers`: `Option` and `Result`.
- `Seqs`: generic sequence identities.
- `Text`: Python's `str()` of integers, `strip()`, `split(' ')`, `' and '.join`, `upper()` and `lower()` on strings.
- `Numbers`: Python's `int()` and `float()` on decimal text.
- `SizeParsing`: `memory_size`.
- `DitgDecode`: the derived packet rate, the decoding of one statistics line, and the packet-loss rate.
- `DitgPipeline`: the collect agent as a `Collector` class whose log the job appends to. It holds the receiver pass, the sender pass and the correlation pass as methods with loops, proved against the `Emissions` specification function.
- `TcpdumpCapture`: `build_capture_filter` as a method proved against the `Clauses` specification, the capture-file defaulting, and the command list.

Two choices shape the model:

- The per-line decoder is a function parameter of the passes (`LineDecoder`). `LineDecoderOf` instantiates it with the real line decoder.
- The readings sent with `send_stat` are a map from a `Key` enumeration. `Name` gives each key's keyword-argument name, and `NamesDistinct` shows those names distinct.

## Model

| member | source | states |
|---|---|---|
| SizeParsing.Match | src/jobs/core_jobs/network/d-itg_send/files/d-itg_send.py:63 | a successful match yields two groups that the pattern can capture: a non-empty digit string, an optional point with digits after it, and an optional K/M/G unit |
| SizeParsing.MatchRender | src/jobs/core_jobs/network/d-itg_send/files/d-itg_send.py:63 | every well-formed magnitude, written out, is matched back to itself |
| SizeParsing.RenderMatch | src/jobs/core_jobs/network/d-itg_send/files/d-itg_send.py:63 | every matched text is exactly its groups written out (a full match, nothing left over) |
| SizeParsing.FactorLevels | src/jobs/core_jobs/network/d-itg_send/files/d-itg_send.py:69-76 | no unit scales by 1, K by the multiplier, M by its square, G by its cube |
| SizeParsing.MemorySize | src/jobs/core_jobs/network/d-itg_send/files/d-itg_send.py:61-76 | fails with the format error exactly when the pattern does not match; with `int`, a base with a point is refused; otherwise the value is the converted base times the unit's factor |
| SizeParsing.MemorySizeOfInteger | src/jobs/core_jobs/network/d-itg_send/files/d-itg_send.py:68-76 | `str(n)` followed by a unit reads as n times that unit's factor, with either converter |
| SizeParsing.MemorySizeOfDecimal | src/jobs/core_jobs/network/d-itg_send/files/d-itg_send.py:68-76 | with `float`, `W.F` plus a unit reads as the decimal value W.F times the unit's factor |
| SizeParsing.MemorySizeIntIsWhole | src/jobs/core_jobs/network/d-itg_send/files/d-itg_send.py:61-76 | with `int`, every accepted size is a whole number |
| SizeParsing.MemorySizeIntRefusesPoint | src/jobs/core_jobs/network/d-itg_send/files/d-itg_send.py:63-70 | with `int`, a base containing a point is refused even though the pattern accepts it |
| SizeParsing.MemorySizeRejects | src/jobs/core_jobs/network/d-itg_send/files/d-itg_send.py:63-66 | empty text, a leading non-digit, a character outside digits/point/K/M/G, or a unit letter before the end is a format error |
| SizeParsing.BandwidthExample | src/jobs/core_jobs/network/d-itg_send/files/d-itg_send.py:69-70 | `2K` with `int` and multiplier 1000 is 2000 |
| SizeParsing.DataSizeExample | src/jobs/core_jobs/network/d-itg_send/files/d-itg_send.py:71-72 | `1.5M` with `float` and 1024 is 1.5 × 1024 × 1024 |
| DitgDecode.EffectivePacketRate | src/jobs/core_jobs/network/d-itg_send/files/d-itg_send.py:92-93 | a zero bandwidth keeps the configured rate; otherwise the rate times 8 × packet size equals the bandwidth; a zero packet size fails with a division by zero |
| DitgDecode.RemoveAll | src/jobs/core_jobs/network/d-itg_send/files/d-itg_send.py:138 | `replace('.', '')`: the result has no point and is no longer than the field; it leaves point-free text alone (`RemoveAllAbsent`) and works piecewise on concatenations (`RemoveAllConcat`) |
| DitgDecode.DropLast | src/jobs/core_jobs/network/d-itg_send/files/d-itg_send.py:139 | `[:-3]`: the text without its last three characters, a prefix of it, and empty when there are fewer |
| DitgDecode.DecodeTimestamp | src/jobs/core_jobs/network/d-itg_send/files/d-itg_send.py:138-140 | succeeds exactly when `int()` accepts the points-removed, last-three-dropped text; the result minus the reference time is that integer; otherwise the error names the refused text |
| DitgDecode.DecodeTimestampDigits | src/jobs/core_jobs/network/d-itg_send/files/d-itg_send.py:138-140 | a field `S.F` (F at least three digits) decodes to the value of S followed by F without its last three digits, plus the reference time |
| DitgDecode.DecodeTimestampOfSeconds | src/jobs/core_jobs/network/d-itg_send/files/d-itg_send.py:138-140 | the same field decodes to seconds × 10^(\|F\|−3) plus the kept fraction digits, plus the reference time |
| DitgDecode.DecodeTimestampOf | src/jobs/core_jobs/network/d-itg_send/files/d-itg_send.py:138-140 | a field whose points-removed, last-three-dropped text is a non-empty digit string decodes to its value plus the reference time |
| DitgDecode.DecodeTimestampExample | src/jobs/core_jobs/network/d-itg_send/files/d-itg_send.py:138-140 | `12.345678` is 12345 ms after the reference time |
| DitgDecode.DecodeTimestampTooShort | src/jobs/core_jobs/network/d-itg_send/files/d-itg_send.py:139 | a field with at most three digits leaves an empty string, which `int()` refuses |
| DitgDecode.Field | src/jobs/core_jobs/network/d-itg_send/files/d-itg_send.py:143-156 | `txt[i]` succeeds exactly when i is in range, with that field; otherwise it fails with the missing index |
| DitgDecode.FloatField | src/jobs/core_jobs/network/d-itg_send/files/d-itg_send.py:144-157 | `float(txt[i])` succeeds exactly when the field exists and parses, with its value; otherwise it fails naming the bad text or the missing index |
| DitgDecode.PacketLossRate | src/jobs/core_jobs/network/d-itg_send/files/d-itg_send.py:160-161 | fails with a division by zero exactly when the granularity or the packet rate is zero; otherwise rate × packet rate × granularity = loss × 100000 |
| DitgDecode.PacketLossRateExample | src/jobs/core_jobs/network/d-itg_send/files/d-itg_send.py:160-161 | 5 packets lost per 1000 ms interval at 1000 packets/s is a 0.5 % loss rate |
| DitgDecode.Fields | src/jobs/core_jobs/network/d-itg_send/files/d-itg_send.py:134-135 | `strip().split(' ')` gives at least one field and no field contains a space; `FieldsOfJoin` shows it recovers space-joined fields |
| DitgDecode.DecodeFields | src/jobs/core_jobs/network/d-itg_send/files/d-itg_send.py:137-161 | a line decodes exactly when its timestamp, bitrate and (for a full line) delay, jitter and loss decode; the result carries those values scaled to ms and bps, and the loss rate |
| DitgDecode.DecodeLine | src/jobs/core_jobs/network/d-itg_send/files/d-itg_send.py:134-161 | a decoded line has path measurements exactly when the full five-field layout was asked for |
| DitgDecode.DecodeFieldsMissing | src/jobs/core_jobs/network/d-itg_send/files/d-itg_send.py:143-157 | a line too short for its mode, whose leading fields decode, fails with the index of the first missing field |
| DitgDecode.FieldsOfJoin | src/jobs/core_jobs/network/d-itg_send/files/d-itg_send.py:134-135 | space-joined fields without spaces, whose ends are not whitespace, are split back into the same fields |
| DitgPipeline.NamesDistinct | src/jobs/core_jobs/network/d-itg_send/files/d-itg_send.py:163-229 | distinct reading keys stand for distinct keyword-argument names of `send_stat` |
| DitgPipeline.Collector.constructor | src/jobs/core_jobs/network/d-itg_send/files/d-itg_send.py:163-170 | the collect agent starts with no statistics |
| DitgPipeline.Collector.SendStat | src/jobs/core_jobs/network/d-itg_send/files/d-itg_send.py:163-170 | a statistic is appended to the collected ones, after all earlier ones |
| DitgPipeline.ReceiverReadings | src/jobs/core_jobs/network/d-itg_send/files/d-itg_send.py:163-170 | a receiver statistic carries exactly bitrate, delay, jitter, loss and loss rate, each the line's own value |
| DitgPipeline.SenderReadings | src/jobs/core_jobs/network/d-itg_send/files/d-itg_send.py:196-224 | a sender statistic with path measurements carries exactly bitrate, rtt (the sender's delay), jitter, loss and loss rate, each the line's own value; without them it carries the bitrate alone |
| DitgPipeline.ReturnReadings | src/jobs/core_jobs/network/d-itg_send/files/d-itg_send.py:228-229 | the return statistic carries only `owd_return`, and it plus the receiver delay is the sender delay |
| DitgPipeline.LineDecoderOf | src/jobs/core_jobs/network/d-itg_send/files/d-itg_send.py:134-161 | the line decoder of a mode yields path measurements exactly in the full mode |
| DitgPipeline.Collect | src/jobs/core_jobs/network/d-itg_send/files/d-itg_send.py:133-170 | decoding stops at the first failing line: every earlier line's reading is kept in order, and the failure is that line's error |
| DitgPipeline.CollectIgnoresRest | src/jobs/core_jobs/network/d-itg_send/files/d-itg_send.py:133-170 | once a line has failed, further lines change nothing |
| DitgPipeline.CollectSuccess | src/jobs/core_jobs/network/d-itg_send/files/d-itg_send.py:133-170 | a line that decodes extends the readings by its reading |
| DitgPipeline.CollectFailure | src/jobs/core_jobs/network/d-itg_send/files/d-itg_send.py:133-170 | a line that fails ends the decoding with its error, keeping the readings before it |
| DitgPipeline.DecodeLines | src/jobs/core_jobs/network/d-itg_send/files/d-itg_send.py:133-170 | a file decodes to no more readings than lines, and to one per line when no line fails; `DecodeLinesSpec` states which readings and which failure |
| DitgPipeline.DecodeLinesSpec | src/jobs/core_jobs/network/d-itg_send/files/d-itg_send.py:133-170 | the readings are the decoded prefix of the file, and a failure is the first failing line's error |
| DitgPipeline.DecodedPaths | src/jobs/core_jobs/network/d-itg_send/files/d-itg_send.py:183-224 | every reading of a file has path measurements exactly when its mode is full |
| DitgPipeline.DecodeLinesIgnoresRest | src/jobs/core_jobs/network/d-itg_send/files/d-itg_send.py:133-170 | lines after a failing line are never read |
| DitgPipeline.ReceiverStats | src/jobs/core_jobs/network/d-itg_send/files/d-itg_send.py:163-170 | one receiver statistic per reading, in order, at the reading's timestamp |
| DitgPipeline.SenderStats | src/jobs/core_jobs/network/d-itg_send/files/d-itg_send.py:215-224 | one sender statistic per reading, in order, at the reading's timestamp |
| DitgPipeline.Delays | src/jobs/core_jobs/network/d-itg_send/files/d-itg_send.py:149 | the kept delays are no more than the readings; `DelaysOfFull`, `NothingKeptOneWay` and `DelaysAppend` state which |
| DitgPipeline.Times | src/jobs/core_jobs/network/d-itg_send/files/d-itg_send.py:200-201 | the kept timestamps are no more than the readings; `TimesOfFull`, `NothingKeptOneWay` and `TimesAppend` state which |
| DitgPipeline.DelaysOfFull | src/jobs/core_jobs/network/d-itg_send/files/d-itg_send.py:147-149 | when every reading has path measurements, the kept delays are exactly their delays, in order |
| DitgPipeline.TimesOfFull | src/jobs/core_jobs/network/d-itg_send/files/d-itg_send.py:196-201 | when every reading has path measurements, the kept timestamps are exactly theirs, in order |
| DitgPipeline.NothingKeptOneWay | src/jobs/core_jobs/network/d-itg_send/files/d-itg_send.py:196-224 | in one-way mode no sender delay and no timestamp are kept |
| DitgPipeline.Correlate | src/jobs/core_jobs/network/d-itg_send/files/d-itg_send.py:226-230 | as many return statistics as the shortest of the three series, the i-th at the i-th sender timestamp with the i-th pair of delays |
| DitgPipeline.ReceiverPass | src/jobs/core_jobs/network/d-itg_send/files/d-itg_send.py:131-170 | the receiver loop sends one statistic per decoded line, keeps the delays, and stops at the first failure |
| DitgPipeline.SenderPass | src/jobs/core_jobs/network/d-itg_send/files/d-itg_send.py:180-224 | the sender loop sends one statistic per decoded line, keeps delays and timestamps only in round-trip mode, and stops at the first failure |
| DitgPipeline.CorrelationPass | src/jobs/core_jobs/network/d-itg_send/files/d-itg_send.py:226-230 | the correlation loop sends exactly the correlated return statistics, in order |
| DitgPipeline.Emissions | src/jobs/core_jobs/network/d-itg_send/files/d-itg_send.py:92-230 | a packet-rate failure sends nothing and is the run's failure; a run without failure sends at least one statistic per line of both files, and exactly one per line in one-way mode |
| DitgPipeline.Run | src/jobs/core_jobs/network/d-itg_send/files/d-itg_send.py:92-230 | the job's decoding sends exactly the statistics of `Emissions` and reports its failure |
| DitgPipeline.ReceiverStatsKeys | src/jobs/core_jobs/network/d-itg_send/files/d-itg_send.py:163-170 | every receiver statistic of full readings carries exactly the five receiver keys, a key set allowed in either mode |
| DitgPipeline.SenderStatsKeys | src/jobs/core_jobs/network/d-itg_send/files/d-itg_send.py:196-224 | every sender statistic carries exactly the five round-trip sender keys in round-trip mode and the bitrate key alone otherwise |
| DitgPipeline.CorrelateKeys | src/jobs/core_jobs/network/d-itg_send/files/d-itg_send.py:228-230 | every correlated statistic carries exactly the `owd_return` key |
| DitgPipeline.EmittedKeys | src/jobs/core_jobs/network/d-itg_send/files/d-itg_send.py:163-230 | every statistic the job sends carries one of the key sets allowed in its metering mode |
| DitgPipeline.OneWaySendsNoReturn | src/jobs/core_jobs/network/d-itg_send/files/d-itg_send.py:226 | with one-way metering no statistic carries `owd_return` |
| DitgPipeline.ReturnsOfFull | src/jobs/core_jobs/network/d-itg_send/files/d-itg_send.py:226-230 | with full readings on both sides, the i-th return statistic is at the i-th sender timestamp, with the i-th sender delay minus the i-th receiver delay, for as many pairs as the shorter file |
| DitgPipeline.CompleteRoundTrip | src/jobs/core_jobs/network/d-itg_send/files/d-itg_send.py:131-230 | a round-trip run without failure sends the receiver statistics, then the sender statistics, then the correlated return delays |
| DitgPipeline.CorrelateExample | src/jobs/core_jobs/network/d-itg_send/files/d-itg_send.py:227-230 | receiver delays 10, 12, 9 and sender delays 20, 18, 15 give return delays 10, 6, 6 at the sender's timestamps |
| DitgPipeline.CorrelateTruncates | src/jobs/core_jobs/network/d-itg_send/files/d-itg_send.py:227 | unequal series are paired only up to the shortest one |
| TcpdumpCapture.Render | src/jobs/core_jobs/transport/tcpdump_pcap/files/tcpdump_pcap.py:81-100 | the protocol clause is the lower-cased protocol; a port clause starts with the protocol as given, when there is one, and ends with the port number |
| TcpdumpCapture.Clauses | src/jobs/core_jobs/transport/tcpdump_pcap/files/tcpdump_pcap.py:81-100 | one clause per clause kind present; `ClauseAt` gives the i-th clause as the clause of the i-th kind |
| TcpdumpCapture.ClauseAt | src/jobs/core_jobs/transport/tcpdump_pcap/files/tcpdump_pcap.py:81-100 | the i-th clause is the clause of the i-th given argument in the fixed order |
| TcpdumpCapture.BuildCaptureFilter | src/jobs/core_jobs/transport/tcpdump_pcap/files/tcpdump_pcap.py:76-102 | the filter is the specified clauses joined by `" and "` |
| TcpdumpCapture.ClausesByKind | src/jobs/core_jobs/transport/tcpdump_pcap/files/tcpdump_pcap.py:81-100 | the clauses are the given arguments' clauses in the order ip src, ip dst, protocol, source port, destination port |
| TcpdumpCapture.ClauseCount | src/jobs/core_jobs/transport/tcpdump_pcap/files/tcpdump_pcap.py:81-100 | the number of clauses equals the number of given arguments |
| TcpdumpCapture.NoClauses | src/jobs/core_jobs/transport/tcpdump_pcap/files/tcpdump_pcap.py:79-102 | there is no clause exactly when all five arguments are missing, and the filter is then empty |
| TcpdumpCapture.KindsComplete | src/jobs/core_jobs/transport/tcpdump_pcap/files/tcpdump_pcap.py:81-100 | a clause kind appears exactly when its argument was given |
| TcpdumpCapture.KindsInOrder | src/jobs/core_jobs/transport/tcpdump_pcap/files/tcpdump_pcap.py:81-100 | the clause kinds appear in strictly increasing fixed order |
| TcpdumpCapture.FilterEnds | src/jobs/core_jobs/transport/tcpdump_pcap/files/tcpdump_pcap.py:102 | a non-empty filter starts with its first clause and ends with its last, with `" and "` after the first when there are more |
| TcpdumpCapture.ProtocolSpelling | src/jobs/core_jobs/transport/tcpdump_pcap/files/tcpdump_pcap.py:87-92 | the protocol clause is the lower-cased protocol, while the source-port clause names the protocol as given |
| TcpdumpCapture.ExampleClauses | src/jobs/core_jobs/transport/tcpdump_pcap/files/tcpdump_pcap.py:81-94 | a source address, protocol `UDP` and source port 53 give `ip src …`, `udp`, `UDP src port 53` |
| TcpdumpCapture.FilterExample | src/jobs/core_jobs/transport/tcpdump_pcap/files/tcpdump_pcap.py:76-102 | the same arguments give `ip src 10.0.0.1 and udp and UDP src port 53` |
| TcpdumpCapture.CaptureTarget | src/jobs/core_jobs/transport/tcpdump_pcap/files/tcpdump_pcap.py:108-111 | an empty path becomes `/tmp/tcpdump_capture.pcap` with copying on; any other path is kept with copying off |
| TcpdumpCapture.CaptureCommand | src/jobs/core_jobs/transport/tcpdump_pcap/files/tcpdump_pcap.py:121-123 | the command is the eight-element prefix, followed by `-G <duration> -W 1` exactly when the duration is given and non-zero |
| TcpdumpCapture.PrepareCapture | src/jobs/core_jobs/transport/tcpdump_pcap/files/tcpdump_pcap.py:107-123 | the command runs tcpdump on the interface with the built filter and the resolved capture file, and copying is on exactly for the default file |

## Left out

- Process execution is not modelled: `ITGLog`, `ITGSend` and `ITGDec` in the D-ITG job (d-itg_send.py:47-58, 83-121), and `rm` and `tcpdump` in the capture job. The statistics files enter the model as sequences of lines, and the capture job's result is the command it would run.
- The reference time from the collect agent is a parameter (`Settings.timeRef`).
- Signal handlers and `save_pcap` are not modelled (tcpdump_pcap.py:73-74, 112-116, 134-136). This includes the restoration at lines 135-136, which installs the saved SIGINT handler for SIGTERM and the saved SIGTERM handler for SIGINT.
- Command-line parsing in both scripts is not modelled.
- The `ITGSend` argument list is not modelled.
- `temporal_binning_histogram.py` (collector queries, pandas and plotting) is not part of this model.
- Floating point is modelled as exact `real` arithmetic, so IEEE-754 rounding in the scalings by 1024, 1000 and 100 and in the divisions is not captured.
- `Numbers.ParseFloat` accepts an optional sign, digits and an optional point with digits. Exponents, `inf`/`nan`, underscores and surrounding whitespace, all of which Python's `float()` accepts, are treated as failures. `Numbers.ParseInt` accepts an optional sign and ASCII digits only.
- Digits are ASCII. Python's `\d` also matches other Unicode decimal digits.
- Case mapping is ASCII only, for `upper()` and `lower()`.
- Both uses of `memory_size` (the data size with `float` and 1024, the bandwidth with `int` and 1000) reject non-matching text with the same error. In the source, raising `argparse.ArgumentError` with one argument itself raises a `TypeError`, but either way the value is refused.
- The sender file is modelled as the job evidently intends, that is, read line by line. At d-itg_send.py:174 the job opens the sender file without keeping the handle. At line 182 it re-enters the receiver handle, which the receiver pass has already closed, so as written the sender pass raises on a closed file. File-handle state is not modelled.
- A missing or unreadable statistics file (d-itg_send.py:124-129, 173-178) is not modelled. The model starts from the lines already read.
- `DitgPipeline.ReceiverReadings` is total. On a reading without path measurements, which the receiver decoder never produces, it gives the bitrate alone.
- `DitgPipeline.Delays` and `DitgPipeline.Times` state only a length bound in their own contracts. Their exact contents are stated by `DelaysOfFull`, `TimesOfFull` and `NothingKeptOneWay`.
- `DitgPipeline.Collector.SendStat` records the timestamp and the readings map. The keyword-argument names are given by `Name`, not by string keys.
