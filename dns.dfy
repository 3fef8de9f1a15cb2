/** The part of the miekg/dns message model that the resolver touches. */
module Dns {
  import opened Go

  // Resource-record type codes (section 3.2.2 of RFC 1035, section 2.1 of RFC 3596).
  const TypeA: uint16 := 1
  const TypeCNAME: uint16 := 5
  const TypeTXT: uint16 := 16
  const TypeAAAA: uint16 := 28
  const TypeSRV: uint16 := 33

  const ClassINET: uint16 := 1

  const OpcodeQuery := 0
  const RcodeSuccess := 0
  const RcodeNameError := 3

  /** The header every record carries (`dns.RR_Header`). */
  datatype RRHeader = RRHeader(name: GoString, rrtype: uint16, rrclass: uint16, ttl: uint32)

  /**
   * A record of the answer section (the `dns.RR` interface). The resolver tells records apart by
   * their concrete Go type, so there is one constructor per type it handles and `Other` for every
   * other concrete type (MX, SRV, NS, ...); the header's `rrtype` is not consulted.
   */
  datatype RR =
    | A(hdr: RRHeader, a: seq<byte>)
    | AAAA(hdr: RRHeader, aaaa: seq<byte>)
    | CNAME(hdr: RRHeader, target: GoString)
    | TXT(hdr: RRHeader, txt: seq<GoString>)
    | Other(hdr: RRHeader, rdata: seq<byte>)

  /** An entry of the question section (`dns.Question`). */
  datatype Question = Question(name: GoString, qtype: uint16, qclass: uint16)

  /**
   * A DNS message (`dns.Msg`) with the header fields the resolver sets or reads. `rcode` is a Go
   * `int`, as in miekg/dns, where it can carry an extended code.
   */
  datatype Msg = Msg(
    id: uint16,
    response: bool,
    opcode: int,
    recursionDesired: bool,
    rcode: int,
    question: seq<Question>,
    answer: seq<RR>,
    ns: seq<RR>,
    extra: seq<RR>)
}
