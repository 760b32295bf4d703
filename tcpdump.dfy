// The tcpdump_pcap job: the capture filter built from the optional packet
// fields, the default capture file, and the tcpdump argument list.

module TcpdumpCapture {
  import opened Wrappers
  import opened Text
  import Seqs

  /** The job's optional filter arguments; the ports are parsed as integers. */
  datatype FilterFields = FilterFields(
    srcIp: Option<string>,
    dstIp: Option<string>,
    srcPort: Option<int>,
    dstPort: Option<int>,
    proto: Option<string>)

  /** The kinds of clause a capture filter can hold. */
  datatype Clause = IpSrc | IpDst | Proto | SrcPort | DstPort

  /** The clause kinds in the order the filter lists them. */
  const Order: seq<Clause> := [IpSrc, IpDst, Proto, SrcPort, DstPort]

  /** The separator between two clauses. */
  const And: string := " and "

  function Rank(k: Clause): nat {
    match k
    case IpSrc => 0
    case IpDst => 1
    case Proto => 2
    case SrcPort => 3
    case DstPort => 4
  }

  /** Whether the argument behind a clause kind was given. */
  predicate Given(k: Clause, f: FilterFields) {
    match k
    case IpSrc => f.srcIp.Some?
    case IpDst => f.dstIp.Some?
    case Proto => f.proto.Some?
    case SrcPort => f.srcPort.Some?
    case DstPort => f.dstPort.Some?
  }

  /**
   * The text of one clause. The protocol clause is lower-cased, while the
   * port clauses name the protocol exactly as given.
   */
  function Render(k: Clause, f: FilterFields): (r: string)
    requires Given(k, f)
    ensures k == Proto ==> r == ToLower(f.proto.value)
    ensures (k == SrcPort || k == DstPort) && f.proto.Some? ==>
      |r| >= |f.proto.value| && r[..|f.proto.value|] == f.proto.value
    ensures k == SrcPort ==> EndsWith(r, IntToString(f.srcPort.value))
    ensures k == DstPort ==> EndsWith(r, IntToString(f.dstPort.value))
  {
    match k
    case IpSrc => "ip src " + f.srcIp.value
    case IpDst => "ip dst " + f.dstIp.value
    case Proto => ToLower(f.proto.value)
    case SrcPort =>
      if f.proto.Some? then f.proto.value + " src port " + IntToString(f.srcPort.value)
      else "src port " + IntToString(f.srcPort.value)
    case DstPort =>
      if f.proto.Some? then f.proto.value + " dst port " + IntToString(f.dstPort.value)
      else "dst port " + IntToString(f.dstPort.value)
  }

  predicate EndsWith(s: string, t: string) {
    |s| >= |t| && s[|s| - |t|..] == t
  }

  /** The kinds of `ks` whose argument was given, in the order of `ks`. */
  function Present(ks: seq<Clause>, f: FilterFields): (r: seq<Clause>)
    ensures |r| <= |ks|
    ensures forall i :: 0 <= i < |r| ==> Given(r[i], f)
  {
    if ks == [] then [] else Pick(ks[0], f) + Present(ks[1..], f)
  }

  /** A kind is kept exactly when it is listed and its argument was given. */
  lemma {:induction false} PresentKeeps(ks: seq<Clause>, f: FilterFields, k: Clause)
    ensures k in Present(ks, f) <==> k in ks && Given(k, f)
  {
    if ks != [] {
      PresentKeeps(ks[1..], f, k);
      assert ks == [ks[0]] + ks[1..];
    }
  }

  /** The kinds of clause the filter holds. */
  function Kinds(f: FilterFields): seq<Clause> {
    Present(Order, f)
  }

  /** The clauses of the filter, one per given argument. */
  function Clauses(f: FilterFields): (c: seq<string>)
    ensures |c| == |Kinds(f)|
  {
    RenderAll(Kinds(f), f)
  }

  /** The clause of each kind in `ks`, in the same order. */
  function RenderAll(ks: seq<Clause>, f: FilterFields): (r: seq<string>)
    requires forall i :: 0 <= i < |ks| ==> Given(ks[i], f)
    ensures |r| == |ks|
  {
    if ks == [] then [] else [Render(ks[0], f)] + RenderAll(ks[1..], f)
  }

  /** The i-th rendered clause is the clause of the i-th kind. */
  lemma {:induction false} RenderAllAt(ks: seq<Clause>, f: FilterFields, i: nat)
    requires forall j :: 0 <= j < |ks| ==> Given(ks[j], f)
    requires i < |ks|
    ensures RenderAll(ks, f)[i] == Render(ks[i], f)
  {
    if i > 0 {
      RenderAllAt(ks[1..], f, i - 1);
    }
  }

  /** The i-th clause of the filter is the clause of its i-th kind. */
  lemma ClauseAt(f: FilterFields, i: nat)
    requires i < |Clauses(f)|
    ensures Clauses(f)[i] == Render(Kinds(f)[i], f)
  {
    RenderAllAt(Kinds(f), f, i);
  }

  /** Rendering distributes over concatenation. */
  lemma {:induction false} RenderAllAppend(a: seq<Clause>, b: seq<Clause>, f: FilterFields)
    requires AllGiven(a, f) && AllGiven(b, f)
    ensures RenderAll(a + b, f) == RenderAll(a, f) + RenderAll(b, f)
  {
    if a != [] {
      assert (a + b)[1..] == a[1..] + b;
      RenderAllAppend(a[1..], b, f);
      Seqs.AppendAssoc([Render(a[0], f)], RenderAll(a[1..], f), RenderAll(b, f));
    } else {
      assert a + b == b;
    }
  }

  /** How many of the five arguments were given. */
  function Count(f: FilterFields): nat {
    (if f.srcIp.Some? then 1 else 0) + (if f.dstIp.Some? then 1 else 0) +
    (if f.proto.Some? then 1 else 0) + (if f.srcPort.Some? then 1 else 0) +
    (if f.dstPort.Some? then 1 else 0)
  }

  /** The one-clause list a kind contributes, empty when its argument is missing. */
  function Part(k: Clause, f: FilterFields): seq<string> {
    if Given(k, f) then [Render(k, f)] else []
  }

  /** Building the filter: append one clause per given argument, then join them. */
  method BuildCaptureFilter(f: FilterFields) returns (filter: string)
    ensures filter == Join(Clauses(f), And)
  {
    var clauses: seq<string> := [];
    if f.srcIp.Some? {
      clauses := clauses + ["ip src " + f.srcIp.value];
    }
    ghost var parts := Part(IpSrc, f);
    assert clauses == parts;
    if f.dstIp.Some? {
      clauses := clauses + ["ip dst " + f.dstIp.value];
    }
    Extend(parts, IpDst, f);
    parts := parts + Part(IpDst, f);
    assert clauses == parts;
    if f.proto.Some? {
      clauses := clauses + [ToLower(f.proto.value)];
    }
    Extend(parts, Proto, f);
    parts := parts + Part(Proto, f);
    assert clauses == parts;
    if f.srcPort.Some? {
      if f.proto.Some? {
        clauses := clauses + [f.proto.value + " src port " + IntToString(f.srcPort.value)];
      } else {
        clauses := clauses + ["src port " + IntToString(f.srcPort.value)];
      }
    }
    Extend(parts, SrcPort, f);
    parts := parts + Part(SrcPort, f);
    assert clauses == parts;
    if f.dstPort.Some? {
      if f.proto.Some? {
        clauses := clauses + [f.proto.value + " dst port " + IntToString(f.dstPort.value)];
      } else {
        clauses := clauses + ["dst port " + IntToString(f.dstPort.value)];
      }
    }
    Extend(parts, DstPort, f);
    parts := parts + Part(DstPort, f);
    assert clauses == parts;
    ClausesByKind(f);
    filter := if |clauses| > 0 then Join(clauses, And) else "";
  }

  /** Appending the part of a kind appends its clause when its argument was given. */
  lemma Extend(parts: seq<string>, k: Clause, f: FilterFields)
    ensures Given(k, f) ==> parts + Part(k, f) == parts + [Render(k, f)]
    ensures !Given(k, f) ==> parts + Part(k, f) == parts
  {
  }

  lemma RenderPick(k: Clause, f: FilterFields)
    ensures RenderAll(Pick(k, f), f) == Part(k, f)
  {
  }

  /** Every kind of `ks` has its argument given. */
  predicate AllGiven(ks: seq<Clause>, f: FilterFields) {
    forall i :: 0 <= i < |ks| ==> Given(ks[i], f)
  }

  lemma AllGivenAppend(a: seq<Clause>, k: Clause, f: FilterFields)
    requires AllGiven(a, f)
    ensures AllGiven(a + Pick(k, f), f)
  {
  }

  /** The clauses are the parts of the five kinds, in order. */
  lemma ClausesByKind(f: FilterFields)
    ensures Clauses(f) == Part(IpSrc, f) + Part(IpDst, f) + Part(Proto, f) + Part(SrcPort, f) + Part(DstPort, f)
  {
    var p1, p2, p3, p4, p5 := Pick(IpSrc, f), Pick(IpDst, f), Pick(Proto, f), Pick(SrcPort, f), Pick(DstPort, f);
    var q2, q3, q4 := p1 + p2, p1 + p2 + p3, p1 + p2 + p3 + p4;
    assert AllGiven(p1, f) && AllGiven(p2, f) && AllGiven(p3, f) && AllGiven(p4, f) && AllGiven(p5, f);
    assert AllGiven(q2, f) && AllGiven(q3, f) && AllGiven(q4, f) by {
      AllGivenAppend(p1, IpDst, f);
      AllGivenAppend(q2, Proto, f);
      AllGivenAppend(q3, SrcPort, f);
    }
    assert Clauses(f) == RenderAll(q4 + p5, f) by {
      KindsByKind(f);
    }
    assert RenderAll(q4 + p5, f) == RenderAll(q4, f) + Part(DstPort, f) by {
      RenderAllAppend(q4, p5, f);
      RenderPick(DstPort, f);
    }
    assert RenderAll(q4, f) == RenderAll(q3, f) + Part(SrcPort, f) by {
      RenderAllAppend(q3, p4, f);
      RenderPick(SrcPort, f);
    }
    assert RenderAll(q3, f) == RenderAll(q2, f) + Part(Proto, f) by {
      RenderAllAppend(q2, p3, f);
      RenderPick(Proto, f);
    }
    assert RenderAll(q2, f) == Part(IpSrc, f) + Part(IpDst, f) by {
      RenderAllAppend(p1, p2, f);
      RenderPick(IpSrc, f);
      RenderPick(IpDst, f);
    }
  }

  /** Unfolds `Kinds` over the five kinds. */
  lemma KindsByKind(f: FilterFields)
    ensures Kinds(f) == Pick(IpSrc, f) + Pick(IpDst, f) + Pick(Proto, f) + Pick(SrcPort, f) + Pick(DstPort, f)
  {
    var o1, o2, o3, o4 := Order[1..], Order[2..], Order[3..], Order[4..];
    assert o1[1..] == o2 && o2[1..] == o3 && o3[1..] == o4 && o4[1..] == [];
    var p1, p2, p3, p4, p5 := Pick(IpSrc, f), Pick(IpDst, f), Pick(Proto, f), Pick(SrcPort, f), Pick(DstPort, f);
    assert Present(o4, f) == p5 + [];
    assert Present(o3, f) == p4 + Present(o4, f);
    assert Present(o2, f) == p3 + Present(o3, f);
    assert Present(o1, f) == p2 + Present(o2, f);
    assert Present(Order, f) == p1 + Present(o1, f);
    Seqs.AppendEmpty(p5);
    Seqs.AppendAssoc(p3, p4, p5);
    Seqs.AppendAssoc(p2, p3 + p4, p5);
    Seqs.AppendAssoc(p2, p3, p4);
    Seqs.AppendAssoc(p1, p2 + p3 + p4, p5);
    Seqs.AppendAssoc(p1, p2 + p3, p4);
    Seqs.AppendAssoc(p1, p2, p3);
  }

  function Pick(k: Clause, f: FilterFields): seq<Clause> {
    if Given(k, f) then [k] else []
  }

  // ----- properties of the filter -----

  /** The filter has one clause per given argument. */
  lemma ClauseCount(f: FilterFields)
    ensures |Clauses(f)| == Count(f)
  {
    KindsByKind(f);
  }

  /** The filter has no clause exactly when no argument was given; the filter is then empty. */
  lemma NoClauses(f: FilterFields)
    ensures Clauses(f) == [] <==> f.srcIp.None? && f.dstIp.None? && f.proto.None? && f.srcPort.None? && f.dstPort.None?
    ensures Clauses(f) == [] ==> Join(Clauses(f), And) == ""
  {
    ClauseCount(f);
  }

  /** Every clause stands for a given argument, and every given argument has its clause. */
  lemma KindsComplete(f: FilterFields)
    ensures forall k :: k in Kinds(f) <==> Given(k, f)
  {
    forall k ensures k in Kinds(f) <==> Given(k, f) {
      PresentKeeps(Order, f, k);
      match k
      case IpSrc => assert Order[0] == k;
      case IpDst => assert Order[1] == k;
      case Proto => assert Order[2] == k;
      case SrcPort => assert Order[3] == k;
      case DstPort => assert Order[4] == k;
    }
  }

  predicate Ascending(ks: seq<Clause>) {
    forall i, j :: 0 <= i < j < |ks| ==> Rank(ks[i]) < Rank(ks[j])
  }

  /** Keeping some kinds of an ascending list keeps it ascending. */
  lemma {:induction false} PresentAscending(ks: seq<Clause>, f: FilterFields)
    requires Ascending(ks)
    ensures Ascending(Present(ks, f))
  {
    if ks != [] {
      var rest := Present(ks[1..], f);
      assert Ascending(ks[1..]) by {
        forall i, j | 0 <= i < j < |ks[1..]| ensures Rank(ks[1..][i]) < Rank(ks[1..][j]) {
          assert ks[1..][i] == ks[i + 1] && ks[1..][j] == ks[j + 1];
        }
      }
      PresentAscending(ks[1..], f);
      if Given(ks[0], f) {
        var r := [ks[0]] + rest;
        forall i, j | 0 <= i < j < |r| ensures Rank(r[i]) < Rank(r[j]) {
          if i == 0 {
            PresentKeeps(ks[1..], f, r[j]);
            assert r[j] in ks[1..];
            var m :| 0 <= m < |ks[1..]| && ks[1..][m] == r[j];
            assert ks[m + 1] == r[j];
          }
        }
      }
    }
  }

  /** The clauses come in the fixed order ip src, ip dst, protocol, source port, destination port. */
  lemma KindsInOrder(f: FilterFields)
    ensures Ascending(Kinds(f))
  {
    PresentAscending(Order, f);
  }

  /**
   * The filter starts with its first clause and ends with its last one, so it
   * has no leading or trailing separator; with two clauses or more the first
   * is followed by " and " and the join of the others.
   */
  lemma FilterEnds(f: FilterFields)
    requires Clauses(f) != []
    ensures var c, s := Clauses(f), Join(Clauses(f), And);
      && |s| >= |c[0]|
      && s[..|c[0]|] == c[0]
      && |s| >= |c[|c| - 1]|
      && s[|s| - |c[|c| - 1]|..] == c[|c| - 1]
      && (|c| >= 2 ==> s == c[0] + And + Join(c[1..], And))
  {
    var c := Clauses(f);
    if |c| >= 2 {
      JoinFirst(c, And);
      JoinAppend(c[..|c| - 1], c[|c| - 1], And);
      assert c[..|c| - 1] + [c[|c| - 1]] == c;
    }
  }

  /** The protocol clause is lower-cased, the port clauses keep the protocol as given. */
  lemma ProtocolSpelling(f: FilterFields, p: string, port: int)
    requires f.proto == Some(p) && f.srcPort == Some(port)
    ensures ToLower(p) in Clauses(f)
    ensures p + " src port " + IntToString(port) in Clauses(f)
  {
    ClausesByKind(f);
  }

  /** A source address, an upper-case protocol and a source port give three clauses. */
  lemma ExampleClauses(f: FilterFields)
    requires f == FilterFields(Some("10.0.0.1"), None, Some(53), None, Some("UDP"))
    ensures Clauses(f) == ["ip src 10.0.0.1", "udp", "UDP src port 53"]
  {
    ExampleAddressPart(f);
    ExamplePortPart(f);
    assert Part(Proto, f) == ["udp"] by {
      assert ToLower("UDP") == "udp";
    }
    assert Part(IpDst, f) == [] && Part(DstPort, f) == [];
    ClausesByKind(f);
  }

  lemma ExampleAddressPart(f: FilterFields)
    requires f.srcIp == Some("10.0.0.1")
    ensures Part(IpSrc, f) == ["ip src 10.0.0.1"]
  {
    var c := "ip src " + "10.0.0.1";
    forall i | 0 <= i < |c| ensures c[i] == "ip src 10.0.0.1"[i] {}
    assert c == "ip src 10.0.0.1";
  }

  lemma ExamplePortPart(f: FilterFields)
    requires f.srcPort == Some(53) && f.proto == Some("UDP")
    ensures Part(SrcPort, f) == ["UDP src port 53"]
  {
    assert IntToString(53) == "53";
    var c := "UDP" + " src port " + "53";
    forall i | 0 <= i < |c| ensures c[i] == "UDP src port 53"[i] {}
    assert c == "UDP src port 53";
  }

  /** The filter for that example lower-cases the protocol clause only. */
  lemma FilterExample(f: FilterFields)
    requires f == FilterFields(Some("10.0.0.1"), None, Some(53), None, Some("UDP"))
    ensures Join(Clauses(f), And) == "ip src 10.0.0.1" + " and " + "udp" + " and " + "UDP src port 53"
  {
    ExampleClauses(f);
    var c := ["ip src 10.0.0.1", "udp", "UDP src port 53"];
    JoinAppend(c[..2], c[2], And);
    assert c[..2] == ["ip src 10.0.0.1"] + ["udp"];
    JoinAppend(["ip src 10.0.0.1"], "udp", And);
    assert c[..2] + [c[2]] == c;
  }

  // ----- capture file and command line -----

  /** Where the capture goes when no file is named; the collector then keeps a copy. */
  const DefaultCaptureFile: string := "/tmp/tcpdump_capture.pcap"

  /**
   * An empty capture path is replaced by the default file and marks the
   * capture to be copied to the collector; any other path is kept as is.
   */
  method CaptureTarget(captureFile: string) returns (path: string, copy: bool)
    ensures copy <==> captureFile == ""
    ensures path == if copy then DefaultCaptureFile else captureFile
    ensures path != ""
  {
    path := captureFile;
    copy := false;
    if captureFile == "" {
      path := DefaultCaptureFile;
      copy := true;
    }
  }

  /** Python's truth value of the optional integer duration: given and not zero. */
  predicate Truthy(duration: Option<int>) {
    duration.Some? && duration.value != 0
  }

  /**
   * The tcpdump argument list: interface, filter, output file and user, then
   * a rotation period with a single file when a duration is given.
   */
  method CaptureCommand(iface: string, filter: string, path: string, duration: Option<int>)
    returns (cmd: seq<string>)
    ensures |cmd| == if Truthy(duration) then 12 else 8
    ensures cmd[..8] == ["tcpdump", "-i", iface, filter, "-w", path, "-Z", "root"]
    ensures Truthy(duration) ==> cmd[8..] == ["-G", IntToString(duration.value), "-W", "1"]
  {
    cmd := ["tcpdump", "-i", iface, filter, "-w", path, "-Z", "root"];
    if duration.Some? && duration.value != 0 {
      cmd := cmd + ["-G", IntToString(duration.value), "-W", "1"];
    }
  }

  /**
   * The capture preparation of the job: the filter, the capture file and the
   * command that runs tcpdump on them.
   */
  method PrepareCapture(f: FilterFields, iface: string, captureFile: string, duration: Option<int>)
    returns (cmd: seq<string>, copy: bool)
    ensures copy <==> captureFile == ""
    ensures |cmd| == if Truthy(duration) then 12 else 8
    ensures cmd[..8] == ["tcpdump", "-i", iface, Join(Clauses(f), And), "-w",
                         if copy then DefaultCaptureFile else captureFile, "-Z", "root"]
    ensures Truthy(duration) ==> cmd[8..] == ["-G", IntToString(duration.value), "-W", "1"]
  {
    var filter := BuildCaptureFilter(f);
    var path;
    path, copy := CaptureTarget(captureFile);
    cmd := CaptureCommand(iface, filter, path, duration);
  }
}
