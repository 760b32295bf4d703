/**
 * The reporting half of the D-ITG job: the receiver statistics file is read
 * line by line and each interval is sent to the collector; then the sender
 * statistics file; then, in round-trip mode, the return delays obtained by
 * pairing the two files' delays by position.
 *
 * Files are given as their sequences of lines, and the collector as the
 * append-only log of what was sent to it. A line that fails to decode ends
 * the job (the Python exception propagates): what was sent before stays sent.
 */
module DitgPipeline {
  import opened Wrappers
  import opened Text
  import opened DitgDecode
  import opened Seqs

  /** The keyword arguments the job passes to `send_stat`. */
  datatype Key =
    | BitrateReceiver | OwdReceiver | JitterReceiver | PacketlossReceiver | PacketlossRateReceiver
    | BitrateSender | RttSender | JitterSender | PacketlossSender | PacketlossRateSender
    | OwdReturn

  /** The keyword's name, as the collector receives it. */
  function Name(k: Key): string {
    match k
    case BitrateReceiver => "bitrate_receiver"
    case OwdReceiver => "owd_receiver"
    case JitterReceiver => "jitter_receiver"
    case PacketlossReceiver => "packetloss_receiver"
    case PacketlossRateReceiver => "packetloss_rate_receiver"
    case BitrateSender => "bitrate_sender"
    case RttSender => "rtt_sender"
    case JitterSender => "jitter_sender"
    case PacketlossSender => "packetloss_sender"
    case PacketlossRateSender => "packetloss_rate_sender"
    case OwdReturn => "owd_return"
  }

  /** Distinct keywords have distinct names, so a statistic's readings are its keyword arguments. */
  lemma NamesDistinct(a: Key, b: Key)
    requires a != b
    ensures Name(a) != Name(b)
  {
    match a
    case BitrateReceiver =>
    case OwdReceiver =>
    case JitterReceiver =>
    case PacketlossReceiver =>
    case PacketlossRateReceiver =>
    case BitrateSender =>
    case RttSender =>
    case JitterSender =>
    case PacketlossSender =>
    case PacketlossRateSender =>
    case OwdReturn =>
  }

  /** One `collect_agent.send_stat(timestamp, **readings)` call. */
  datatype Stat = Stat(timestamp: int, readings: map<Key, real>)

  /** The collector, seen as the log of the statistics sent to it. */
  class Collector {
    var log: seq<Stat>

    constructor ()
      ensures log == []
    {
      log := [];
    }

    /** `collect_agent.send_stat`: one more statistic at the end of the log. */
    method SendStat(timestamp: int, readings: map<Key, real>)
      modifies this
      ensures log == old(log) + [Stat(timestamp, readings)]
    {
      log := log + [Stat(timestamp, readings)];
    }
  }

  // ----- what one interval sends -----

  const ReceiverKeys: set<Key> := {BitrateReceiver, OwdReceiver, JitterReceiver, PacketlossReceiver, PacketlossRateReceiver}
  const RoundTripSenderKeys: set<Key> := {BitrateSender, RttSender, JitterSender, PacketlossSender, PacketlossRateSender}
  const OneWaySenderKeys: set<Key> := {BitrateSender}
  const ReturnKeys: set<Key> := {OwdReturn}

  /**
   * The readings of a receiver interval: its bitrate and its four path
   * measurements. The receiver file is always read with its path
   * measurements (`DecodedPaths`); a reading without them would send its
   * bitrate alone.
   */
  function ReceiverReadings(rd: Reading): (m: map<Key, real>)
    ensures m.Keys == if rd.path.Some? then ReceiverKeys else {BitrateReceiver}
    ensures m[BitrateReceiver] == rd.bitrate
    ensures rd.path.Some? ==> m[OwdReceiver] == rd.path.value.delay
    ensures rd.path.Some? ==> m[JitterReceiver] == rd.path.value.jitter
    ensures rd.path.Some? ==> m[PacketlossReceiver] == rd.path.value.loss
    ensures rd.path.Some? ==> m[PacketlossRateReceiver] == rd.path.value.lossRate
  {
    match rd.path
    case Some(p) =>
      map[BitrateReceiver := rd.bitrate, OwdReceiver := p.delay, JitterReceiver := p.jitter,
          PacketlossReceiver := p.loss, PacketlossRateReceiver := p.lossRate]
    case None => map[BitrateReceiver := rd.bitrate]
  }

  /** The readings of a sender interval: all five in round-trip mode, the bitrate alone otherwise. */
  function SenderReadings(rd: Reading): (m: map<Key, real>)
    ensures m.Keys == if rd.path.Some? then RoundTripSenderKeys else OneWaySenderKeys
    ensures m[BitrateSender] == rd.bitrate
    ensures rd.path.Some? ==> m[RttSender] == rd.path.value.delay
    ensures rd.path.Some? ==> m[JitterSender] == rd.path.value.jitter
    ensures rd.path.Some? ==> m[PacketlossSender] == rd.path.value.loss
    ensures rd.path.Some? ==> m[PacketlossRateSender] == rd.path.value.lossRate
  {
    match rd.path
    case Some(p) =>
      map[BitrateSender := rd.bitrate, RttSender := p.delay, JitterSender := p.jitter,
          PacketlossSender := p.loss, PacketlossRateSender := p.lossRate]
    case None => map[BitrateSender := rd.bitrate]
  }

  /** The readings of one correlated pair: the sender delay minus the receiver delay. */
  function ReturnReadings(owdR: real, owdS: real): (m: map<Key, real>)
    ensures m.Keys == ReturnKeys
    ensures m[OwdReturn] + owdR == owdS
  {
    map[OwdReturn := owdS - owdR]
  }

  // ----- what a whole file sends -----

  /** How one line of a statistics file is turned into a reading. */
  type LineDecoder = string -> Result<Reading, DecodeError>

  /** A decoder whose readings all carry the path measurements (`full`) or none of them. */
  ghost predicate Yields(decode: LineDecoder, full: bool) {
    forall line :: decode(line).Success? ==> (decode(line).value.path.Some? <==> full)
  }

  /** The decoder of the job: `DecodeLine` under the job's settings. */
  function LineDecoderOf(s: Settings, full: bool): (decode: LineDecoder)
    ensures Yields(decode, full)
  {
    line => DecodeLine(line, s, full)
  }

  /** The outcome of decoding the lines of one file in order, up to the first line that fails. */
  datatype Decoded = Decoded(readings: seq<Reading>, failure: Option<DecodeError>)

  /**
   * The per-line results of a file taken in order, stopping at the first
   * failure: the readings before it, and its error.
   */
  function Collect(results: seq<Result<Reading, DecodeError>>): (d: Decoded)
    ensures |d.readings| <= |results|
    ensures d.failure.None? ==> |d.readings| == |results|
    ensures d.failure.Some? ==> |d.readings| < |results| && results[|d.readings|] == Failure(d.failure.value)
    ensures forall i :: 0 <= i < |d.readings| ==> results[i] == Success(d.readings[i])
  {
    if results == [] then Decoded([], None)
    else
      var prev := Collect(results[..|results| - 1]);
      if prev.failure.Some? then prev
      else
        match results[|results| - 1]
        case Failure(e) => Decoded(prev.readings, Some(e))
        case Success(rd) => Decoded(prev.readings + [rd], None)
  }

  /** Once a line has failed, the lines after it change nothing: they are never read. */
  lemma {:induction false} CollectIgnoresRest(results: seq<Result<Reading, DecodeError>>, rest: seq<Result<Reading, DecodeError>>)
    requires Collect(results).failure.Some?
    ensures Collect(results + rest) == Collect(results)
  {
    if rest == [] {
      assert results + rest == results;
    } else {
      var rest' := rest[..|rest| - 1];
      CollectIgnoresRest(results, rest');
      DropLastOfAppend(results, rest);
    }
  }

  /** One more successful line adds its reading. */
  lemma CollectSuccess(results: seq<Result<Reading, DecodeError>>, i: nat, rs: seq<Reading>)
    requires i < |results| && results[i].Success?
    requires Collect(results[..i]) == Decoded(rs, None)
    ensures Collect(results[..i + 1]) == Decoded(rs + [results[i].value], None)
  {
    TakeTake(results, i, i + 1);
  }

  /** A failing line ends the file: its error is the file's, with the readings before it. */
  lemma CollectFailure(results: seq<Result<Reading, DecodeError>>, i: nat, rs: seq<Reading>)
    requires i < |results| && results[i].Failure?
    requires Collect(results[..i]) == Decoded(rs, None)
    ensures Collect(results) == Decoded(rs, Some(results[i].error))
  {
    TakeTake(results, i, i + 1);
    CollectIgnoresRest(results[..i + 1], results[i + 1..]);
    TakeDrop(results, i + 1);
  }

  /** Each line of a file decoded on its own. */
  function DecodeAll(lines: seq<string>, decode: LineDecoder): (results: seq<Result<Reading, DecodeError>>)
    ensures |results| == |lines|
  {
    seq(|lines|, i requires 0 <= i < |lines| => decode(lines[i]))
  }

  /** Decoding a file's lines one after the other, stopping at the first failure. */
  function DecodeLines(lines: seq<string>, decode: LineDecoder): (d: Decoded)
    ensures |d.readings| <= |lines|
    ensures d.failure.None? ==> |d.readings| == |lines|
  {
    Collect(DecodeAll(lines, decode))
  }

  /**
   * A file decodes to the readings of its lines, in order, up to the first line
   * that fails; that line's error is the file's, and no line after it is read.
   */
  lemma DecodeLinesSpec(lines: seq<string>, decode: LineDecoder)
    ensures var d := DecodeLines(lines, decode);
      && |d.readings| <= |lines|
      && (d.failure.None? ==> |d.readings| == |lines|)
      && (d.failure.Some? ==> |d.readings| < |lines| && decode(lines[|d.readings|]) == Failure(d.failure.value))
      && (forall i :: 0 <= i < |d.readings| ==> decode(lines[i]) == Success(d.readings[i]))
  {
  }

  /** The readings of a file carry the path measurements exactly when its decoder reads them. */
  lemma DecodedPaths(lines: seq<string>, decode: LineDecoder, full: bool)
    requires Yields(decode, full)
    ensures var rs := DecodeLines(lines, decode).readings;
      forall i :: 0 <= i < |rs| ==> (rs[i].path.Some? <==> full)
  {
    var rs := DecodeLines(lines, decode).readings;
    forall i | 0 <= i < |rs|
      ensures rs[i].path.Some? <==> full
    {
      assert decode(lines[i]) == Success(rs[i]);
    }
  }

  /** The lines after a failing one change nothing. */
  lemma DecodeLinesIgnoresRest(lines: seq<string>, rest: seq<string>, decode: LineDecoder)
    requires DecodeLines(lines, decode).failure.Some?
    ensures DecodeLines(lines + rest, decode) == DecodeLines(lines, decode)
  {
    assert DecodeAll(lines + rest, decode) == DecodeAll(lines, decode) + DecodeAll(rest, decode);
    CollectIgnoresRest(DecodeAll(lines, decode), DecodeAll(rest, decode));
  }

  /** What the receiver pass sends: one statistic per decoded line, in order. */
  function ReceiverStats(rs: seq<Reading>): (st: seq<Stat>)
    ensures |st| == |rs|
    ensures forall i :: 0 <= i < |rs| ==> st[i] == Stat(rs[i].timestamp, ReceiverReadings(rs[i]))
  {
    if rs == [] then []
    else ReceiverStats(rs[..|rs| - 1]) + [Stat(rs[|rs| - 1].timestamp, ReceiverReadings(rs[|rs| - 1]))]
  }

  /** What the sender pass sends: one statistic per decoded line, in order. */
  function SenderStats(rs: seq<Reading>): (st: seq<Stat>)
    ensures |st| == |rs|
    ensures forall i :: 0 <= i < |rs| ==> st[i] == Stat(rs[i].timestamp, SenderReadings(rs[i]))
  {
    if rs == [] then []
    else SenderStats(rs[..|rs| - 1]) + [Stat(rs[|rs| - 1].timestamp, SenderReadings(rs[|rs| - 1]))]
  }

  /** The delays collected from a file (`owd_r`, `owd_s`): those of the intervals whose path was read. */
  function Delays(rs: seq<Reading>): (d: seq<real>)
    ensures |d| <= |rs|
  {
    if rs == [] then []
    else
      var last := rs[|rs| - 1];
      Delays(rs[..|rs| - 1]) + (if last.path.Some? then [last.path.value.delay] else [])
  }

  /** The timestamps collected from the sender file (`timetab`): those of the intervals whose path was read. */
  function Times(rs: seq<Reading>): (t: seq<int>)
    ensures |t| <= |rs|
  {
    if rs == [] then []
    else
      var last := rs[|rs| - 1];
      Times(rs[..|rs| - 1]) + (if last.path.Some? then [last.timestamp] else [])
  }

  /** When every interval has its path read, the delays are those of every interval, in order. */
  lemma {:induction false} DelaysOfFull(rs: seq<Reading>)
    requires forall i :: 0 <= i < |rs| ==> rs[i].path.Some?
    ensures |Delays(rs)| == |rs|
    ensures forall i :: 0 <= i < |rs| ==> Delays(rs)[i] == rs[i].path.value.delay
  {
    if rs != [] {
      DelaysOfFull(rs[..|rs| - 1]);
    }
  }

  /** When every interval has its path read, the timestamps are those of every interval, in order. */
  lemma {:induction false} TimesOfFull(rs: seq<Reading>)
    requires forall i :: 0 <= i < |rs| ==> rs[i].path.Some?
    ensures |Times(rs)| == |rs|
    ensures forall i :: 0 <= i < |rs| ==> Times(rs)[i] == rs[i].timestamp
  {
    if rs != [] {
      TimesOfFull(rs[..|rs| - 1]);
    }
  }

  /** In one-way mode no interval has its path read, so neither delays nor timestamps are kept. */
  lemma {:induction false} NothingKeptOneWay(rs: seq<Reading>)
    requires forall i :: 0 <= i < |rs| ==> rs[i].path.None?
    ensures Delays(rs) == [] && Times(rs) == []
  {
    if rs != [] {
      NothingKeptOneWay(rs[..|rs| - 1]);
    }
  }

  function Min(a: int, b: int): int {
    if a <= b then a else b
  }

  /**
   * `zip(timetab, owd_r, owd_s)`: one return delay per position present in all
   * three sequences, at the sender's timestamp; the longer sequences' tails are dropped.
   */
  function Correlate(times: seq<int>, owdR: seq<real>, owdS: seq<real>): (r: seq<Stat>)
    ensures |r| == Min(|times|, Min(|owdR|, |owdS|))
    ensures forall i :: 0 <= i < |r| ==> r[i] == Stat(times[i], ReturnReadings(owdR[i], owdS[i]))
  {
    if times == [] || owdR == [] || owdS == [] then []
    else [Stat(times[0], ReturnReadings(owdR[0], owdS[0]))] + Correlate(times[1..], owdR[1..], owdS[1..])
  }

  // ----- the passes -----

  lemma ReceiverStatsAppend(rs: seq<Reading>, rd: Reading)
    ensures ReceiverStats(rs + [rd]) == ReceiverStats(rs) + [Stat(rd.timestamp, ReceiverReadings(rd))]
  {
    TakeOfAppend(rs, [rd]);
  }

  lemma SenderStatsAppend(rs: seq<Reading>, rd: Reading)
    ensures SenderStats(rs + [rd]) == SenderStats(rs) + [Stat(rd.timestamp, SenderReadings(rd))]
  {
    TakeOfAppend(rs, [rd]);
  }

  lemma DelaysAppend(rs: seq<Reading>, rd: Reading)
    ensures rd.path.Some? ==> Delays(rs + [rd]) == Delays(rs) + [rd.path.value.delay]
    ensures rd.path.None? ==> Delays(rs + [rd]) == Delays(rs)
  {
    TakeOfAppend(rs, [rd]);
    AppendEmpty(Delays(rs));
  }

  lemma TimesAppend(rs: seq<Reading>, rd: Reading)
    ensures rd.path.Some? ==> Times(rs + [rd]) == Times(rs) + [rd.timestamp]
    ensures rd.path.None? ==> Times(rs + [rd]) == Times(rs)
  {
    TakeOfAppend(rs, [rd]);
    AppendEmpty(Times(rs));
  }

  /** What one more decoded receiver line adds to the pass's state. */
  lemma ReceiverStep(results: seq<Result<Reading, DecodeError>>, i: nat, rs: seq<Reading>, rd: Reading)
    requires i < |results| && results[i] == Success(rd)
    requires Collect(results[..i]) == Decoded(rs, None)
    requires rd.path.Some?
    ensures Collect(results[..i + 1]) == Decoded(rs + [rd], None)
    ensures ReceiverStats(rs + [rd]) == ReceiverStats(rs) + [Stat(rd.timestamp, ReceiverReadings(rd))]
    ensures Delays(rs + [rd]) == Delays(rs) + [rd.path.value.delay]
  {
    CollectSuccess(results, i, rs);
    ReceiverStatsAppend(rs, rd);
    DelaysAppend(rs, rd);
  }

  /** What one more decoded sender line adds to the pass's state. */
  lemma SenderStep(results: seq<Result<Reading, DecodeError>>, i: nat, rs: seq<Reading>, rd: Reading)
    requires i < |results| && results[i] == Success(rd)
    requires Collect(results[..i]) == Decoded(rs, None)
    ensures Collect(results[..i + 1]) == Decoded(rs + [rd], None)
    ensures SenderStats(rs + [rd]) == SenderStats(rs) + [Stat(rd.timestamp, SenderReadings(rd))]
    ensures rd.path.Some? ==> Delays(rs + [rd]) == Delays(rs) + [rd.path.value.delay] && Times(rs + [rd]) == Times(rs) + [rd.timestamp]
    ensures rd.path.None? ==> Delays(rs + [rd]) == Delays(rs) && Times(rs + [rd]) == Times(rs)
  {
    CollectSuccess(results, i, rs);
    SenderStatsAppend(rs, rd);
    DelaysAppend(rs, rd);
    TimesAppend(rs, rd);
  }

  /**
   * The receiver pass: each line decoded with its path measurements, sent,
   * and its delay kept; a line that fails ends the pass with its error.
   */
  method ReceiverPass(lines: seq<string>, decode: LineDecoder, sink: Collector) returns (owdR: seq<real>, failure: Option<DecodeError>)
    requires Yields(decode, true)
    modifies sink
    ensures var d := DecodeLines(lines, decode);
      && sink.log == old(sink.log) + ReceiverStats(d.readings)
      && owdR == Delays(d.readings)
      && failure == d.failure
  {
    owdR, failure := [], None;
    ghost var results := DecodeAll(lines, decode);
    ghost var rs: seq<Reading> := [];
    var i := 0;
    while i < |lines|
      invariant 0 <= i <= |lines|
      invariant Collect(results[..i]) == Decoded(rs, None)
      invariant sink.log == old(sink.log) + ReceiverStats(rs)
      invariant owdR == Delays(rs)
    {
      var r := decode(lines[i]);
      assert r == results[i];
      if r.Failure? {
        failure := Some(r.error);
        CollectFailure(results, i, rs);
        return;
      }
      var rd := r.value;
      ReceiverStep(results, i, rs, rd);
      owdR := owdR + [rd.path.value.delay];
      sink.SendStat(rd.timestamp, ReceiverReadings(rd));
      AppendAssoc(old(sink.log), ReceiverStats(rs), [Stat(rd.timestamp, ReceiverReadings(rd))]);
      rs := rs + [rd];
      i := i + 1;
    }
    TakeAll(results);
  }

  /**
   * The sender pass. In round-trip mode each line is decoded in full, sent
   * with the five sender readings, and its delay and timestamp are kept; in
   * one-way mode only the timestamp and bitrate are read and sent.
   * The lines are those of the sender file: d-itg_send.py:174 opens that file
   * without keeping its handle and line 182 re-enters the receiver's closed
   * handle, so this pass models the evident intent, not the failing read.
   */
  method SenderPass(lines: seq<string>, decode: LineDecoder, roundTrip: bool, sink: Collector)
    returns (times: seq<int>, owdS: seq<real>, failure: Option<DecodeError>)
    requires Yields(decode, roundTrip)
    modifies sink
    ensures var d := DecodeLines(lines, decode);
      && sink.log == old(sink.log) + SenderStats(d.readings)
      && times == Times(d.readings)
      && owdS == Delays(d.readings)
      && failure == d.failure
  {
    times, owdS, failure := [], [], None;
    ghost var results := DecodeAll(lines, decode);
    ghost var rs: seq<Reading> := [];
    var i := 0;
    while i < |lines|
      invariant 0 <= i <= |lines|
      invariant Collect(results[..i]) == Decoded(rs, None)
      invariant sink.log == old(sink.log) + SenderStats(rs)
      invariant times == Times(rs)
      invariant owdS == Delays(rs)
    {
      var r := decode(lines[i]);
      assert r == results[i];
      if r.Failure? {
        failure := Some(r.error);
        CollectFailure(results, i, rs);
        return;
      }
      var rd := r.value;
      assert rd.path.Some? <==> roundTrip;
      SenderStep(results, i, rs, rd);
      if roundTrip {
        owdS := owdS + [rd.path.value.delay];
        times := times + [rd.timestamp];
      }
      sink.SendStat(rd.timestamp, SenderReadings(rd));
      AppendAssoc(old(sink.log), SenderStats(rs), [Stat(rd.timestamp, SenderReadings(rd))]);
      rs := rs + [rd];
      i := i + 1;
    }
    TakeAll(results);
  }

  lemma CorrelateStep(times: seq<int>, owdR: seq<real>, owdS: seq<real>, i: nat)
    requires i < Min(|times|, Min(|owdR|, |owdS|))
    ensures Correlate(times, owdR, owdS)[..i + 1] == Correlate(times, owdR, owdS)[..i] + [Stat(times[i], ReturnReadings(owdR[i], owdS[i]))]
  {
    TakeStep(Correlate(times, owdR, owdS), i);
  }

  /** The correlation pass: one `owd_return` per pair that `zip` produces, in order. */
  method CorrelationPass(times: seq<int>, owdR: seq<real>, owdS: seq<real>, sink: Collector)
    modifies sink
    ensures sink.log == old(sink.log) + Correlate(times, owdR, owdS)
  {
    var pairs := Min(|times|, Min(|owdR|, |owdS|));
    var i := 0;
    while i < pairs
      invariant 0 <= i <= pairs
      invariant sink.log == old(sink.log) + Correlate(times, owdR, owdS)[..i]
    {
      CorrelateStep(times, owdR, owdS, i);
      sink.SendStat(times[i], ReturnReadings(owdR[i], owdS[i]));
      AppendAssoc(old(sink.log), Correlate(times, owdR, owdS)[..i], [Stat(times[i], ReturnReadings(owdR[i], owdS[i]))]);
      i := i + 1;
    }
    TakeAll(Correlate(times, owdR, owdS));
  }

  // ----- the whole job -----

  /** The options the reporting depends on. */
  datatype Job = Job(timeRef: int, granularity: int, packetSize: int, packetRate: int, bandwidth: int, meter: string)

  /** What a run sends to the collector, and the error that ended it, if any. */
  datatype Outcome = Outcome(emitted: seq<Stat>, failure: Option<DecodeError>)

  function JobSettings(job: Job, rate: real): Settings {
    Settings(job.timeRef, job.granularity, rate)
  }

  /**
   * Everything a run sends, in order: the receiver statistics, the sender
   * statistics, then in round-trip mode the correlated return delays.
   */
  function Emissions(job: Job, receiverLines: seq<string>, senderLines: seq<string>): (o: Outcome)
    ensures EffectivePacketRate(job.bandwidth, job.packetSize, job.packetRate).Failure? ==>
      o == Outcome([], Some(EffectivePacketRate(job.bandwidth, job.packetSize, job.packetRate).error))
    ensures o.failure.None? ==> |o.emitted| >= |receiverLines| + |senderLines|
    ensures o.failure.None? && !IsRoundTrip(job.meter) ==> |o.emitted| == |receiverLines| + |senderLines|
  {
    match EffectivePacketRate(job.bandwidth, job.packetSize, job.packetRate)
    case Failure(e) => Outcome([], Some(e))
    case Success(rate) =>
      var s := JobSettings(job, rate);
      var rcv := DecodeLines(receiverLines, LineDecoderOf(s, true));
      var received := ReceiverStats(rcv.readings);
      if rcv.failure.Some? then Outcome(received, rcv.failure)
      else
        var roundTrip := IsRoundTrip(job.meter);
        var snd := DecodeLines(senderLines, LineDecoderOf(s, roundTrip));
        var sent := received + SenderStats(snd.readings);
        if snd.failure.Some? || !roundTrip then Outcome(sent, snd.failure)
        else Outcome(sent + Correlate(Times(snd.readings), Delays(rcv.readings), Delays(snd.readings)), None)
  }

  /** The reporting part of `main`: packet rate, receiver pass, sender pass, correlation. */
  method Run(job: Job, receiverLines: seq<string>, senderLines: seq<string>, sink: Collector) returns (failure: Option<DecodeError>)
    modifies sink
    ensures sink.log == old(sink.log) + Emissions(job, receiverLines, senderLines).emitted
    ensures failure == Emissions(job, receiverLines, senderLines).failure
  {
    var rate := EffectivePacketRate(job.bandwidth, job.packetSize, job.packetRate);
    if rate.Failure? {
      return Some(rate.error);
    }
    var s := JobSettings(job, rate.value);
    ghost var log0 := sink.log;
    ghost var rcv := DecodeLines(receiverLines, LineDecoderOf(s, true));
    var owdR, owdS: seq<real>;
    var times: seq<int>;
    owdR, failure := ReceiverPass(receiverLines, LineDecoderOf(s, true), sink);
    if failure.Some? {
      return;
    }
    var roundTrip := IsRoundTrip(job.meter);
    ghost var snd := DecodeLines(senderLines, LineDecoderOf(s, roundTrip));
    times, owdS, failure := SenderPass(senderLines, LineDecoderOf(s, roundTrip), roundTrip, sink);
    AppendAssoc(log0, ReceiverStats(rcv.readings), SenderStats(snd.readings));
    if failure.Some? {
      return;
    }
    if roundTrip {
      CorrelationPass(times, owdR, owdS, sink);
      AppendAssoc(log0, ReceiverStats(rcv.readings) + SenderStats(snd.readings), Correlate(times, owdR, owdS));
    }
  }

  // ----- properties of a run -----

  /** The key sets a statistic may carry in each mode. */
  predicate ModeKeys(keys: set<Key>, roundTrip: bool) {
    if roundTrip then keys == ReceiverKeys || keys == RoundTripSenderKeys || keys == ReturnKeys
    else keys == ReceiverKeys || keys == OneWaySenderKeys
  }

  /** Every statistic of `st` carries a key set of the mode. */
  predicate KeysOfMode(st: seq<Stat>, roundTrip: bool) {
    forall k :: 0 <= k < |st| ==> ModeKeys(st[k].readings.Keys, roundTrip)
  }

  lemma KeysOfModeConcat(a: seq<Stat>, b: seq<Stat>, roundTrip: bool)
    requires KeysOfMode(a, roundTrip) && KeysOfMode(b, roundTrip)
    ensures KeysOfMode(a + b, roundTrip)
  {
  }

  /** Receiver statistics of full readings carry exactly the receiver keys. */
  lemma ReceiverStatsKeys(rs: seq<Reading>, roundTrip: bool)
    requires forall i :: 0 <= i < |rs| ==> rs[i].path.Some?
    ensures forall i :: 0 <= i < |rs| ==> ReceiverStats(rs)[i].readings.Keys == ReceiverKeys
    ensures KeysOfMode(ReceiverStats(rs), roundTrip)
  {
  }

  /** Sender statistics carry exactly the sender keys of the mode. */
  lemma SenderStatsKeys(rs: seq<Reading>, roundTrip: bool)
    requires forall i :: 0 <= i < |rs| ==> (rs[i].path.Some? <==> roundTrip)
    ensures forall i :: 0 <= i < |rs| ==>
      SenderStats(rs)[i].readings.Keys == if roundTrip then RoundTripSenderKeys else OneWaySenderKeys
    ensures KeysOfMode(SenderStats(rs), roundTrip)
  {
  }

  /** Correlated statistics carry exactly the return key. */
  lemma CorrelateKeys(times: seq<int>, owdR: seq<real>, owdS: seq<real>)
    ensures forall i :: 0 <= i < |Correlate(times, owdR, owdS)| ==> Correlate(times, owdR, owdS)[i].readings.Keys == ReturnKeys
    ensures KeysOfMode(Correlate(times, owdR, owdS), true)
  {
  }

  /**
   * Every statistic a run sends carries exactly the keys of a receiver
   * interval, of a sender interval of the run's mode, or of a return delay
   * (round-trip mode only).
   */
  lemma EmittedKeys(job: Job, receiverLines: seq<string>, senderLines: seq<string>)
    ensures KeysOfMode(Emissions(job, receiverLines, senderLines).emitted, IsRoundTrip(job.meter))
  {
    var roundTrip := IsRoundTrip(job.meter);
    match EffectivePacketRate(job.bandwidth, job.packetSize, job.packetRate)
    case Failure(_) =>
    case Success(rate) =>
      var s := JobSettings(job, rate);
      var rcv := DecodeLines(receiverLines, LineDecoderOf(s, true));
      var snd := DecodeLines(senderLines, LineDecoderOf(s, roundTrip));
      DecodedPaths(receiverLines, LineDecoderOf(s, true), true);
      DecodedPaths(senderLines, LineDecoderOf(s, roundTrip), roundTrip);
      var rStats := ReceiverStats(rcv.readings);
      var sStats := SenderStats(snd.readings);
      ReceiverStatsKeys(rcv.readings, roundTrip);
      SenderStatsKeys(snd.readings, roundTrip);
      KeysOfModeConcat(rStats, sStats, roundTrip);
      if roundTrip {
        var cStats := Correlate(Times(snd.readings), Delays(rcv.readings), Delays(snd.readings));
        CorrelateKeys(Times(snd.readings), Delays(rcv.readings), Delays(snd.readings));
        KeysOfModeConcat(rStats + sStats, cStats, roundTrip);
      }
  }

  /** In one-way mode no return delay is ever sent. */
  lemma OneWaySendsNoReturn(job: Job, receiverLines: seq<string>, senderLines: seq<string>)
    requires !IsRoundTrip(job.meter)
    ensures var out := Emissions(job, receiverLines, senderLines).emitted;
      forall k :: 0 <= k < |out| ==> OwdReturn !in out[k].readings
  {
    EmittedKeys(job, receiverLines, senderLines);
    NoReturnKeyOneWay(Emissions(job, receiverLines, senderLines).emitted);
  }

  lemma NoReturnKeyOneWay(st: seq<Stat>)
    requires KeysOfMode(st, false)
    ensures forall k :: 0 <= k < |st| ==> OwdReturn !in st[k].readings
  {
    forall k | 0 <= k < |st|
      ensures OwdReturn !in st[k].readings
    {
      assert ModeKeys(st[k].readings.Keys, false);
    }
  }

  /**
   * Pairing two files whose intervals all have their path read: one return
   * delay per position present in both, at the sender's timestamp, equal to
   * the sender's delay minus the receiver's delay.
   */
  lemma ReturnsOfFull(rcv: seq<Reading>, snd: seq<Reading>)
    requires forall i :: 0 <= i < |rcv| ==> rcv[i].path.Some?
    requires forall i :: 0 <= i < |snd| ==> snd[i].path.Some?
    ensures var c := Correlate(Times(snd), Delays(rcv), Delays(snd));
      && |c| == Min(|rcv|, |snd|)
      && forall i :: 0 <= i < |c| ==>
           c[i] == Stat(snd[i].timestamp, ReturnReadings(rcv[i].path.value.delay, snd[i].path.value.delay))
  {
    DelaysOfFull(rcv);
    DelaysOfFull(snd);
    TimesOfFull(snd);
  }

  /** A round-trip run that reads both files to the end sends the receiver, sender and return statistics, in that order. */
  lemma CompleteRoundTrip(job: Job, receiverLines: seq<string>, senderLines: seq<string>)
    requires EffectivePacketRate(job.bandwidth, job.packetSize, job.packetRate).Success?
    requires IsRoundTrip(job.meter)
    requires Emissions(job, receiverLines, senderLines).failure.None?
    ensures var s := JobSettings(job, EffectivePacketRate(job.bandwidth, job.packetSize, job.packetRate).value);
      var rcv := DecodeLines(receiverLines, LineDecoderOf(s, true)).readings;
      var snd := DecodeLines(senderLines, LineDecoderOf(s, true)).readings;
      Emissions(job, receiverLines, senderLines).emitted ==
        ReceiverStats(rcv) + SenderStats(snd) + Correlate(Times(snd), Delays(rcv), Delays(snd))
  {
  }

  /** Pairing three intervals: each return delay is the sender delay minus the receiver delay. */
  lemma CorrelateExample(times: seq<int>, owdR: seq<real>, owdS: seq<real>)
    requires times == [1, 2, 3] && owdR == [10.0, 12.0, 9.0] && owdS == [20.0, 18.0, 15.0]
    ensures Correlate(times, owdR, owdS) ==
      [Stat(1, map[OwdReturn := 10.0]), Stat(2, map[OwdReturn := 6.0]), Stat(3, map[OwdReturn := 6.0])]
  {
    var r := Correlate(times, owdR, owdS);
    assert |r| == 3;
    assert r[0] == Stat(1, map[OwdReturn := 10.0]);
    assert r[1] == Stat(2, map[OwdReturn := 6.0]);
    assert r[2] == Stat(3, map[OwdReturn := 6.0]);
  }

  /** With three receiver intervals and two sender intervals, `zip` yields two pairs. */
  lemma CorrelateTruncates(times: seq<int>, owdR: seq<real>, owdS: seq<real>)
    requires |times| == 2 && |owdR| == 3 && |owdS| == 2
    ensures |Correlate(times, owdR, owdS)| == 2
    ensures Correlate(times, owdR, owdS)[1] == Stat(times[1], map[OwdReturn := owdS[1] - owdR[1]])
  {
  }
}
