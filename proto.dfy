/** The host's generic DNS shapes (the plugin protocol's messages). */
module Proto {
  import opened Go

  /** The question the host hands to the resolver; type and class are 32-bit fields. */
  datatype DnsQuestion = DnsQuestion(name: GoString, qtype: uint32, qclass: uint32)

  /** A generic resource record: `data` is the raw payload, interpreted according to `rtype`. */
  datatype DnsRR = DnsRR(name: GoString, rtype: uint32, rrclass: uint32, ttl: uint32, data: seq<byte>)

  /** The resolver's answer: a response code and the records in answer-section order. */
  datatype DnsResponse = DnsResponse(rcode: uint32, rrs: seq<DnsRR>)

  /** A user-facing notification sent to the host. */
  datatype Notification = Notification(eventId: GoString, title: GoString, message: GoString)
}
