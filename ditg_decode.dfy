/**
 * Decoding one interval line of a D-ITG statistics file (as written by
 * `ITGDec -c <granularity>`) into a reading, and the two rates the job
 * derives: the effective packet rate and the packet-loss rate.
 *
 * Python's `float` arithmetic is modelled with exact `real`s.
 */
module DitgDecode {
  import opened Wrappers
  import opened Text
  import opened Numbers

  /** Why a line, or the job's configuration, cannot be decoded (the Python exception raised). */
  datatype DecodeError =
    | MissingField(index: nat)    // IndexError on `txt[index]`
    | BadInteger(text: string)    // ValueError from `int(...)` on the timestamp
    | BadFloat(text: string)      // ValueError from `float(...)` on a measured field
    | ZeroDivision                // ZeroDivisionError in a rate

  /** The job configuration the decoding depends on. */
  datatype Settings = Settings(timeRef: int, granularity: int, packetRate: real)

  /** `meter.upper() == "RTTM"`: round-trip metering. */
  predicate IsRoundTrip(meter: string) {
    ToUpper(meter) == "RTTM"
  }

  // ----- packet rate -----

  /**
   * `packet_rate` after the bandwidth option: a non-zero bandwidth (bits per
   * second) overrides the configured rate with `bandwidth / (8 * packet_size)`.
   */
  function EffectivePacketRate(bandwidth: int, packetSize: int, packetRate: int): (r: Result<real, DecodeError>)
    ensures bandwidth == 0 ==> r == Success(packetRate as real)
    ensures bandwidth != 0 && packetSize == 0 ==> r == Failure(ZeroDivision)
    ensures bandwidth != 0 && packetSize != 0 ==> r.Success? && r.value * (8 * packetSize) as real == bandwidth as real
  {
    if bandwidth == 0 then Success(packetRate as real)
    else if packetSize == 0 then Failure(ZeroDivision)
    else Success(bandwidth as real / (8 * packetSize) as real)
  }

  // ----- timestamp -----

  /** `s.replace(c, '')`. */
  function RemoveAll(s: string, c: char): (r: string)
    ensures c !in r && |r| <= |s|
  {
    if s == [] then [] else (if s[0] == c then [] else [s[0]]) + RemoveAll(s[1..], c)
  }

  /** `s[:-n]` for `n > 0`: all but the last `n` characters, and nothing when there are fewer. */
  function DropLast(s: string, n: nat): (r: string)
    requires n > 0
    ensures |r| == if |s| >= n then |s| - n else 0
    ensures r == s[..|r|]
  {
    if |s| >= n then s[..|s| - n] else []
  }

  /** A text without `c` is left alone by `RemoveAll`. */
  lemma {:induction false} RemoveAllAbsent(s: string, c: char)
    requires c !in s
    ensures RemoveAll(s, c) == s
  {
    if s != [] {
      RemoveAllAbsent(s[1..], c);
      assert s == [s[0]] + s[1..];
    }
  }

  /** `RemoveAll` works piecewise on a concatenation. */
  lemma {:induction false} RemoveAllConcat(a: string, b: string, c: char)
    ensures RemoveAll(a + b, c) == RemoveAll(a, c) + RemoveAll(b, c)
  {
    if a != [] {
      assert (a + b)[1..] == a[1..] + b;
      RemoveAllConcat(a[1..], b, c);
    } else {
      assert a + b == b;
    }
  }

  /**
   * The relative time in milliseconds: every `.` removed from the seconds
   * field, the last three characters dropped, the rest read by `int()`, then
   * shifted by the reference time.
   */
  function DecodeTimestamp(field: string, timeRef: int): (r: Result<int, DecodeError>)
    ensures r.Success? <==> ParseInt(DropLast(RemoveAll(field, '.'), 3)).Some?
    ensures r.Success? ==> r.value - timeRef == ParseInt(DropLast(RemoveAll(field, '.'), 3)).value
    ensures r.Failure? ==> r.error == BadInteger(DropLast(RemoveAll(field, '.'), 3))
  {
    var digits := DropLast(RemoveAll(field, '.'), 3);
    match ParseInt(digits)
    case None => Failure(BadInteger(digits))
    case Some(v) => Success(v + timeRef)
  }

  /**
   * A seconds field `S.F` with at least three fraction digits decodes to the
   * whole milliseconds it denotes (sub-millisecond digits are truncated), plus
   * the reference time.
   */
  lemma DecodeTimestampOfSeconds(sec: string, frac: string, timeRef: int)
    requires AllDigits(sec) && AllDigits(frac) && |frac| >= 3 && |sec| + |frac| >= 4
    ensures DecodeTimestamp(sec + "." + frac, timeRef).Success?
    ensures DecodeTimestamp(sec + "." + frac, timeRef).value
         == DigitsValue(sec) * Pow10(|frac| - 3) + DigitsValue(frac[..|frac| - 3]) + timeRef
  {
    var ms := frac[..|frac| - 3];
    DecodeTimestampDigits(sec, frac, timeRef);
    DigitsValueAppend(sec, ms);
  }

  /** The same, with the kept digits read as one digit string. */
  lemma DecodeTimestampDigits(sec: string, frac: string, timeRef: int)
    requires AllDigits(sec) && AllDigits(frac) && |frac| >= 3 && |sec| + |frac| >= 4
    ensures AllDigits(sec + frac[..|frac| - 3])
    ensures DecodeTimestamp(sec + "." + frac, timeRef).Success?
    ensures DecodeTimestamp(sec + "." + frac, timeRef).value == DigitsValue(sec + frac[..|frac| - 3]) + timeRef
  {
    KeptDigits(sec, frac);
    DecodeTimestampOf(sec + "." + frac, sec + frac[..|frac| - 3], timeRef);
  }

  /** What `int()` is given for a field `S.F`: the digits of `S` and of `F` without its last three. */
  lemma KeptDigits(sec: string, frac: string)
    requires AllDigits(sec) && AllDigits(frac) && |frac| >= 3
    ensures AllDigits(sec + frac[..|frac| - 3])
    ensures DropLast(RemoveAll(sec + "." + frac, '.'), 3) == sec + frac[..|frac| - 3]
  {
    RemovePoint(sec, frac);
    assert (sec + frac)[..|sec + frac| - 3] == sec + frac[..|frac| - 3];
  }

  /** A field whose kept digits are a non-empty digit string decodes to their value. */
  lemma DecodeTimestampOf(field: string, digits: string, timeRef: int)
    requires digits != [] && AllDigits(digits) && DropLast(RemoveAll(field, '.'), 3) == digits
    ensures DecodeTimestamp(field, timeRef) == Success(DigitsValue(digits) + timeRef)
  {
    ParseIntDigits(digits);
  }

  /** Removing the point from `S.F` glues the digits together. */
  lemma RemovePoint(sec: string, frac: string)
    requires AllDigits(sec) && AllDigits(frac)
    ensures RemoveAll(sec + "." + frac, '.') == sec + frac
  {
    assert RemoveAll(sec + ".", '.') == sec by {
      RemoveAllConcat(sec, ".", '.');
      DigitsHaveNoPoint(sec);
      RemoveAllAbsent(sec, '.');
      assert RemoveAll(".", '.') == [];
    }
    assert RemoveAll(frac, '.') == frac by {
      DigitsHaveNoPoint(frac);
      RemoveAllAbsent(frac, '.');
    }
    RemoveAllConcat(sec + ".", frac, '.');
  }

  lemma DigitsHaveNoPoint(s: string)
    requires AllDigits(s)
    ensures '.' !in s
  {
    assert forall i :: 0 <= i < |s| ==> IsDigit(s[i]);
  }

  /** The sample timestamp `12.345678` is 12345 ms after the reference time. */
  lemma DecodeTimestampExample(field: string, timeRef: int)
    requires field == "12.345678"
    ensures DecodeTimestamp(field, timeRef).Success?
    ensures DecodeTimestamp(field, timeRef).value == 12345 + timeRef
  {
    var sec, frac := "12", "345678";
    assert field == sec + "." + frac;
    DecodeTimestampOfSeconds(sec, frac, timeRef);
    assert DigitsValue(sec) * Pow10(|frac| - 3) + DigitsValue(frac[..|frac| - 3]) == 12345 by {
      assert frac[..|frac| - 3] == "345";
      assert DigitsValue(sec) == 12 by {
        assert sec[..1] == "1";
      }
      assert DigitsValue("345") == 345 by {
        assert "345"[..2] == "34";
        assert "34"[..1] == "3";
      }
      assert Pow10(3) == 1000;
    }
  }

  /** A seconds field with fewer than four digits leaves nothing for `int()`, which refuses it. */
  lemma DecodeTimestampTooShort(field: string, timeRef: int)
    requires |RemoveAll(field, '.')| <= 3
    ensures DecodeTimestamp(field, timeRef) == Failure(BadInteger(""))
  {
  }

  // ----- measured fields -----

  /** `txt[i]`, raising IndexError past the end. */
  function Field(fields: seq<string>, i: nat): (r: Result<string, DecodeError>)
    ensures r.Success? <==> i < |fields|
    ensures r.Success? ==> r.value == fields[i]
    ensures r.Failure? ==> r.error == MissingField(i)
  {
    if i < |fields| then Success(fields[i]) else Failure(MissingField(i))
  }

  /** `float(txt[i])`. */
  function FloatField(fields: seq<string>, i: nat): (r: Result<real, DecodeError>)
    ensures r.Success? <==> i < |fields| && ParseFloat(fields[i]).Some?
    ensures r.Success? ==> Some(r.value) == ParseFloat(fields[i])
    ensures r.Failure? && i < |fields| ==> r.error == BadFloat(fields[i])
    ensures r.Failure? && i >= |fields| ==> r.error == MissingField(i)
  {
    var text :- Field(fields, i);
    match ParseFloat(text)
    case None => Failure(BadFloat(text))
    case Some(v) => Success(v)
  }

  // ----- packet-loss rate -----

  /**
   * `(pck_loss * 1000 / granularity) / packet_rate * 100`: the lost packets per
   * second as a percentage of the packets sent per second.
   */
  function PacketLossRate(loss: real, granularity: int, packetRate: real): (r: Result<real, DecodeError>)
    ensures r.Success? <==> granularity != 0 && packetRate != 0.0
    ensures r.Failure? ==> r.error == ZeroDivision
    ensures r.Success? ==> r.value * packetRate * granularity as real == loss * 100000.0
  {
    if granularity == 0 then Failure(ZeroDivision)
    else
      var perSecond := loss * 1000.0 / granularity as real;
      if packetRate == 0.0 then Failure(ZeroDivision)
      else
        LossRateScaling(loss, granularity as real, packetRate);
        Success(perSecond / packetRate * 100.0)
  }

  lemma LossRateScaling(loss: real, g: real, p: real)
    requires g != 0.0 && p != 0.0
    ensures (loss * 1000.0 / g) / p * 100.0 * p * g == loss * 100000.0
  {
    var perSecond := loss * 1000.0 / g;
    assert perSecond * g == loss * 1000.0;
    assert perSecond / p * p == perSecond;
  }

  /** Five packets lost per 1000 ms interval at 1000 packets/s is a 0.5 % loss rate. */
  lemma PacketLossRateExample()
    ensures PacketLossRate(5.0, 1000, 1000.0) == Success(0.5)
  {
  }

  // ----- one line -----

  /** The path measurements of a line: delay and jitter in ms, lost packets, loss rate in %. */
  datatype PathMetrics = PathMetrics(delay: real, jitter: real, loss: real, lossRate: real)

  /** One decoded interval: absolute timestamp (ms), bitrate, and the path measurements when they were read. */
  datatype Reading = Reading(timestamp: int, bitrate: real, path: Option<PathMetrics>)

  /** `line.strip().split(' ')`. */
  function Fields(line: string): (fields: seq<string>)
    ensures |fields| >= 1
    ensures forall i :: 0 <= i < |fields| ==> ' ' !in fields[i]
  {
    Split(Strip(line), ' ')
  }

  /** How many fields a line must have: five with the path measurements, two without. */
  function Needed(full: bool): nat {
    if full then 5 else 2
  }

  /**
   * Whether a line's fields decode, stated field by field and independently of
   * the order in which the decoder reads them.
   */
  predicate Decodable(fields: seq<string>, s: Settings, full: bool) {
    && |fields| >= Needed(full)
    && DecodeTimestamp(fields[0], s.timeRef).Success?
    && ParseFloat(fields[1]).Some?
    && (full ==>
         && ParseFloat(fields[2]).Some?
         && ParseFloat(fields[3]).Some?
         && ParseFloat(fields[4]).Some?
         && s.granularity != 0 && s.packetRate != 0.0)
  }

  /**
   * The fields of one interval line, read in the source's order: the
   * timestamp, the bitrate (KB/s times 1024), and with `full` the delay and
   * jitter (s times 1000), the lost packets and the loss rate. The first
   * failing step is the error reported.
   */
  function DecodeFields(fields: seq<string>, s: Settings, full: bool): (r: Result<Reading, DecodeError>)
    requires |fields| >= 1
    ensures r.Success? <==> Decodable(fields, s, full)
    ensures r.Success? ==>
      && DecodeTimestamp(fields[0], s.timeRef) == Success(r.value.timestamp)
      && r.value.bitrate == ParseFloat(fields[1]).value * 1024.0
      && (r.value.path.Some? <==> full)
    ensures r.Success? && full ==>
      var p := r.value.path.value;
      && p.delay == ParseFloat(fields[2]).value * 1000.0
      && p.jitter == ParseFloat(fields[3]).value * 1000.0
      && p.loss == ParseFloat(fields[4]).value
      && PacketLossRate(p.loss, s.granularity, s.packetRate) == Success(p.lossRate)
  {
    var timestamp :- DecodeTimestamp(fields[0], s.timeRef);
    var kiloBytes :- FloatField(fields, 1);
    if !full then Success(Reading(timestamp, kiloBytes * 1024.0, None))
    else
      var delay :- FloatField(fields, 2);
      var jitter :- FloatField(fields, 3);
      var loss :- FloatField(fields, 4);
      var rate :- PacketLossRate(loss, s.granularity, s.packetRate);
      Success(Reading(timestamp, kiloBytes * 1024.0, Some(PathMetrics(delay * 1000.0, jitter * 1000.0, loss, rate))))
  }

  /** One line of a statistics file. */
  function DecodeLine(line: string, s: Settings, full: bool): (r: Result<Reading, DecodeError>)
    ensures r.Success? ==> (r.value.path.Some? <==> full)
  {
    DecodeFields(Fields(line), s, full)
  }

  /** A line too short for its mode fails with the index of the first missing field, once its leading fields decode. */
  lemma DecodeFieldsMissing(fields: seq<string>, s: Settings, full: bool)
    requires 1 <= |fields| < Needed(full)
    requires DecodeTimestamp(fields[0], s.timeRef).Success?
    requires |fields| >= 2 ==> ParseFloat(fields[1]).Some?
    requires |fields| >= 3 ==> ParseFloat(fields[2]).Some?
    requires |fields| >= 4 ==> ParseFloat(fields[3]).Some?
    ensures DecodeFields(fields, s, full) == Failure(MissingField(|fields|))
  {
  }

  /**
   * Space-separated fields with no whitespace at the ends of the line are
   * recovered by `strip().split(' ')`.
   */
  lemma FieldsOfJoin(fields: seq<string>)
    requires |fields| >= 1
    requires forall i :: 0 <= i < |fields| ==> ' ' !in fields[i]
    requires fields[0] != [] && !IsSpace(fields[0][0])
    requires fields[|fields| - 1] != [] && !IsSpace(fields[|fields| - 1][|fields[|fields| - 1]| - 1])
    ensures Fields(Join(fields, " ")) == fields
  {
    var line := Join(fields, " ");
    JoinStart(fields, " ");
    JoinEnd(fields, " ");
    StripKeeps(line);
    SplitJoin(fields, ' ');
  }

  /** A join starts with the first part's first character. */
  lemma {:induction false} JoinStart(parts: seq<string>, sep: string)
    requires |parts| >= 1 && parts[0] != []
    ensures var s := Join(parts, sep); s != [] && s[0] == parts[0][0]
  {
    if |parts| > 1 {
      JoinStart(parts[..|parts| - 1], sep);
    }
  }

  /** A join ends with the last part's last character. */
  lemma JoinEnd(parts: seq<string>, sep: string)
    requires |parts| >= 1 && parts[|parts| - 1] != []
    ensures var s := Join(parts, sep); s != [] && s[|s| - 1] == parts[|parts| - 1][|parts[|parts| - 1]| - 1]
  {
  }
}
