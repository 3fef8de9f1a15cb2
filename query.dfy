/** Building the upstream query and assembling the host's response (`resolve`). */
module Query {
  import opened Go
  import opened Dns
  import opened Proto
  import opened DnsCrypt
  import opened Records

  /**
   * What `resolve` hands back to the host: no response and no error while no session is active,
   * the propagated exchange error, or the translated response.
   */
  datatype Outcome = NotConfigured | Failed(err: Error) | Answered(response: DnsResponse)

  /**
   * The wire query for `question` with transaction id `id`: recursion desired, exactly one
   * question copied field for field with type and class cut to 16 bits, every other field zero.
   */
  function BuildQuery(question: DnsQuestion, id: uint16): (req: Msg)
    ensures req.id == id && req.recursionDesired
    ensures !req.response && req.opcode == OpcodeQuery && req.rcode == RcodeSuccess
    ensures |req.question| == 1 && req.question[0].name == question.name
    ensures req.question[0].qtype % 0x1_0000 == question.qtype % 0x1_0000
    ensures req.question[0].qclass % 0x1_0000 == question.qclass % 0x1_0000
    ensures req.answer == [] && req.ns == [] && req.extra == []
  {
    Msg(id, false, 0, true, 0, [Question(question.name, Uint16(question.qtype), Uint16(question.qclass))], [], [], [])
  }

  /** The generic question a wire question widens back to. */
  function Widen(q: Question): DnsQuestion {
    DnsQuestion(q.name, q.qtype, q.qclass)
  }

  /** A question whose type and class fit in 16 bits travels unchanged, whatever the id. */
  lemma QuestionRoundTrip(question: DnsQuestion, id: uint16)
    requires question.qtype < 0x1_0000 && question.qclass < 0x1_0000
    ensures Widen(BuildQuery(question, id).question[0]) == question
  {
  }

  /** Two queries for the same question differ at most in their transaction id. */
  lemma QueriesDifferOnlyInId(question: DnsQuestion, id1: uint16, id2: uint16)
    ensures BuildQuery(question, id1).(id := id2) == BuildQuery(question, id2)
  {
  }

  /**
   * The meaning of one `resolve` call made while `info` is the active session, with `id` as the
   * fresh transaction id and `exchange` standing for the upstream round trip.
   */
  function Resolution(info: Option<ResolverInfo>, question: DnsQuestion, id: uint16, exchange: Exchange): (r: Outcome)
    ensures r.NotConfigured? <==> info.None?
    ensures r.Failed? <==> info.Some? && exchange(BuildQuery(question, id), info.value).Err?
    ensures r.Failed? ==> r.err == exchange(BuildQuery(question, id), info.value).err
    ensures r.Answered? ==>
              var reply := exchange(BuildQuery(question, id), info.value).value;
              && r.response.rcode == Uint32(reply.rcode)
              && (0 <= reply.rcode < 0x1_0000_0000 ==> r.response.rcode == reply.rcode)
              && r.response.rrs == ConvertAll(reply.answer)
  {
    match info
    case None => NotConfigured
    case Some(session) =>
      match exchange(BuildQuery(question, id), session)
      case Err(e) => Failed(e)
      case Ok(reply) => Answered(DnsResponse(Uint32(reply.rcode), ConvertAll(reply.answer)))
  }

  /** Without a session the outcome does not depend on the upstream at all: nothing is exchanged. */
  lemma UnconfiguredNeverExchanges(question: DnsQuestion, id: uint16, e1: Exchange, e2: Exchange)
    ensures Resolution(None, question, id, e1) == Resolution(None, question, id, e2) == NotConfigured
  {
  }

  /** With a session, the outcome depends on the upstream only through its reply to the built query. */
  lemma OnlyTheBuiltQueryIsExchanged(info: ResolverInfo, question: DnsQuestion, id: uint16, e1: Exchange, e2: Exchange)
    requires e1(BuildQuery(question, id), info) == e2(BuildQuery(question, id), info)
    ensures Resolution(Some(info), question, id, e1) == Resolution(Some(info), question, id, e2)
  {
  }

  /** The authority and additional sections of a reply never reach the host. */
  lemma AuthorityAndAdditionalIgnored(info: ResolverInfo, question: DnsQuestion, id: uint16, reply: Msg, ns: seq<RR>, extra: seq<RR>)
    ensures Resolution(Some(info), question, id, (m, s) => Ok(reply))
         == Resolution(Some(info), question, id, (m, s) => Ok(reply.(ns := ns, extra := extra)))
  {
  }

  /** A name-error reply with an empty answer section comes back as response code 3 and no records. */
  lemma NameErrorPassthrough(info: ResolverInfo, question: DnsQuestion, id: uint16, reply: Msg)
    requires reply.rcode == RcodeNameError && reply.answer == []
    ensures Resolution(Some(info), question, id, (m, s) => Ok(reply)) == Answered(DnsResponse(3, []))
  {
  }
}
