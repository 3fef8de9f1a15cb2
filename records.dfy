/** Translation of upstream answer records into the host's generic records (`convertRRs`). */
module Records {
  import opened Go
  import opened Dns
  import opened Proto

  /** The concrete record types the translation keeps; every other type is dropped. */
  predicate Supported(rr: RR) {
    rr.A? || rr.AAAA? || rr.CNAME? || rr.TXT?
  }

  /**
   * One arm of the type switch: the generic record emitted for `rr`, or `None` when the switch
   * skips it. A TXT record is emitted with the CNAME type code and only its first text segment.
   */
  function Convert(rr: RR): (r: Option<DnsRR>)
    ensures r.Some? <==> Supported(rr)
    ensures r.Some? ==> r.value.name == rr.hdr.name && r.value.rrclass == rr.hdr.rrclass && r.value.ttl == rr.hdr.ttl
    ensures rr.A? ==> r.Some? && r.value.rtype == 1 && r.value.data == rr.a
    ensures rr.AAAA? ==> r.Some? && r.value.rtype == 28 && r.value.data == rr.aaaa
    ensures rr.CNAME? ==> r.Some? && r.value.rtype == 5 && r.value.data == rr.target
    ensures rr.TXT? ==> r.Some? && r.value.rtype == 5 && r.value.data == (if |rr.txt| > 0 then rr.txt[0] else [])
  {
    match rr
    case A(h, a) => Some(DnsRR(h.name, TypeA, h.rrclass, h.ttl, a))
    case AAAA(h, aaaa) => Some(DnsRR(h.name, TypeAAAA, h.rrclass, h.ttl, aaaa))
    case CNAME(h, target) => Some(DnsRR(h.name, TypeCNAME, h.rrclass, h.ttl, target))
    case TXT(h, txt) => Some(DnsRR(h.name, TypeCNAME, h.rrclass, h.ttl, if |txt| > 0 then txt[0] else []))
    case Other(_, _) => None
  }

  /** The generic records for `list`: the converted supported records, in their original order. */
  function ConvertAll(list: seq<RR>): seq<DnsRR>
    decreases |list|
  {
    if list == [] then []
    else
      var init := ConvertAll(list[..|list| - 1]);
      match Convert(list[|list| - 1])
      case None => init
      case Some(out) => init + [out]
  }

  /** The positions of the supported records of `list`, in increasing order. */
  ghost function KeptIndices(list: seq<RR>): (idx: seq<nat>)
    ensures forall k | 0 <= k < |idx| :: idx[k] < |list| && Supported(list[idx[k]])
    ensures forall k, l | 0 <= k < l < |idx| :: idx[k] < idx[l]
    ensures forall i | 0 <= i < |list| && Supported(list[i]) :: i in idx
    decreases |list|
  {
    if list == [] then []
    else
      var n := |list| - 1;
      KeptIndices(list[..n]) + (if Supported(list[n]) then [n] else [])
  }

  /** The set of positions of supported records. */
  ghost function SupportedPositions(list: seq<RR>): set<nat> {
    set i: nat | i < |list| && Supported(list[i])
  }

  /** Extending a list by one record adds at most its position to the supported positions. */
  lemma SupportedPositionsSnoc(list: seq<RR>)
    requires list != []
    ensures var n := |list| - 1;
            SupportedPositions(list) == SupportedPositions(list[..n]) + (if Supported(list[n]) then {n} else {})
  {
  }

  /** The number of kept positions is the number of supported records. */
  lemma {:induction false} KeptIndicesCount(list: seq<RR>)
    ensures |KeptIndices(list)| == |SupportedPositions(list)|
    decreases |list|
  {
    if list != [] {
      var n := |list| - 1;
      var init := list[..n];
      KeptIndicesCount(init);
      assert KeptIndices(list) == KeptIndices(init) + (if Supported(list[n]) then [n] else []);
      SupportedPositionsSnoc(list);
      if Supported(list[n]) {
        assert n !in SupportedPositions(init);
      }
    }
  }

  /**
   * The k-th generic record is the conversion of the k-th supported input record: supported
   * records are kept in order, without deduplication, and all others are dropped.
   */
  lemma {:induction false} ConvertAllEnumerates(list: seq<RR>)
    ensures |ConvertAll(list)| == |KeptIndices(list)|
    ensures forall k | 0 <= k < |ConvertAll(list)| :: Convert(list[KeptIndices(list)[k]]) == Some(ConvertAll(list)[k])
    decreases |list|
  {
    if list != [] {
      var n := |list| - 1;
      ConvertAllEnumerates(list[..n]);
    }
  }

  /** The output has one record per supported input record. */
  lemma ConvertAllLength(list: seq<RR>)
    ensures |ConvertAll(list)| == |SupportedPositions(list)|
  {
    ConvertAllEnumerates(list);
    KeptIndicesCount(list);
  }

  /** Translation distributes over concatenation: nothing is reordered across a split point. */
  lemma {:induction false} ConvertAllAppend(a: seq<RR>, b: seq<RR>)
    ensures ConvertAll(a + b) == ConvertAll(a) + ConvertAll(b)
    decreases |b|
  {
    if b == [] {
      assert a + b == a;
    } else {
      var m := |b| - 1;
      assert (a + b)[..|a + b| - 1] == a + b[..m];
      ConvertAllAppend(a, b[..m]);
    }
  }

  /** A list without supported records translates to no records, and without error. */
  lemma {:induction false} UnsupportedOnlyIsEmpty(list: seq<RR>)
    requires forall i | 0 <= i < |list| :: !Supported(list[i])
    ensures ConvertAll(list) == []
    decreases |list|
  {
    if list != [] {
      UnsupportedOnlyIsEmpty(list[..|list| - 1]);
    }
  }

  /** A TXT record with a first segment `s` is emitted exactly like a CNAME record with target `s`. */
  lemma TxtEmittedAsCname(h: RRHeader, s: GoString, rest: seq<GoString>)
    ensures Convert(TXT(h, [s] + rest)) == Convert(CNAME(h, s))
    ensures Convert(TXT(h, [s] + rest)).value.rtype != TypeTXT as uint32
  {
  }

  /** Implements `convertRRs`: walks `list` once and appends the record of each supported entry. */
  method ConvertRRs(list: seq<RR>) returns (rrs: seq<DnsRR>)
    ensures rrs == ConvertAll(list)
    ensures |rrs| == |SupportedPositions(list)|
    ensures |rrs| == |KeptIndices(list)|
    ensures forall k | 0 <= k < |rrs| :: Convert(list[KeptIndices(list)[k]]) == Some(rrs[k])
  {
    rrs := [];
    for i := 0 to |list|
      invariant rrs == ConvertAll(list[..i])
    {
      assert list[..i + 1][..i] == list[..i];
      var converted := Convert(list[i]);
      if converted.None? {
        continue;
      }
      rrs := rrs + [converted.value];
    }
    assert list[..|list|] == list;
    ConvertAllEnumerates(list);
    ConvertAllLength(list);
  }

  /**
   * An answer section with an IPv4 address record, a canonical-name record, a two-segment text
   * record and a service record translates to three records; the text record keeps its first segment.
   */
  lemma MixedAnswerExample()
    ensures var name := Bytes("example.com.");
            var answers := [
              A(RRHeader(name, TypeA, ClassINET, 300), [93, 184, 216, 34]),
              CNAME(RRHeader(name, TypeCNAME, ClassINET, 300), Bytes("www.example.com.")),
              TXT(RRHeader(name, TypeTXT, ClassINET, 60), [Bytes("v=spf1"), Bytes("ignored")]),
              Other(RRHeader(name, TypeSRV, ClassINET, 60), [])];
            var out := ConvertAll(answers);
            && |out| == 3
            && out[0] == DnsRR(name, 1, 1, 300, [93, 184, 216, 34])
            && out[1] == DnsRR(name, 5, 1, 300, Bytes("www.example.com."))
            && out[2] == DnsRR(name, 5, 1, 60, Bytes("v=spf1"))
  {
    var name := Bytes("example.com.");
    var answers := [
      A(RRHeader(name, TypeA, ClassINET, 300), [93, 184, 216, 34]),
      CNAME(RRHeader(name, TypeCNAME, ClassINET, 300), Bytes("www.example.com.")),
      TXT(RRHeader(name, TypeTXT, ClassINET, 60), [Bytes("v=spf1"), Bytes("ignored")]),
      Other(RRHeader(name, TypeSRV, ClassINET, 60), [])];
    var out0 := Convert(answers[0]).value;
    var out1 := Convert(answers[1]).value;
    var out2 := Convert(answers[2]).value;
    assert answers[..1][..0] == [];
    assert ConvertAll(answers[..1]) == [out0];
    assert answers[..2][..1] == answers[..1];
    assert ConvertAll(answers[..2]) == [out0, out1];
    assert answers[..3][..2] == answers[..2];
    assert ConvertAll(answers[..3]) == [out0, out1, out2];
    assert answers[..4][..3] == answers[..3];
    assert answers[..4] == answers;
  }
}
