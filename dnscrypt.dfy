/**
 * The boundary to the DNSCrypt client library. Dialling (certificate fetch and validation) and
 * exchanging (encryption and network I/O) happen outside this model: a dial is represented by its
 * outcome, an exchange by a function from the query and the session to the outcome.
 */
module DnsCrypt {
  import opened Go
  import opened Dns

  /** The session parameters `Dial` derives from a server stamp; the resolver never inspects them. */
  datatype ResolverInfo = ResolverInfo(serverAddress: GoString, providerName: GoString, serverPublicKey: seq<byte>)

  /** `client.Exchange(req, info)`: the upstream reply to `req` over session `info`, or an error. */
  type Exchange = (Msg, ResolverInfo) -> Result<Msg>
}
