# DNSCrypt resolver plugin — verified model

This project models the resolver core of a Portmaster plugin that answers DNS queries by relaying
them to one DNSCrypt upstream server. The core has three parts:

- **Record translation** (`convertRRs`). Upstream answer records become the host's generic
  records. Only A, AAAA, CNAME and TXT records are kept, in their original order. Every other
  record type is dropped without error. Name, class and TTL are copied from the record header.
  A TXT record keeps only its first text segment and, as the code is written, carries the CNAME
  type code (5) rather than the TXT code (16).
- **Session holder** (`getResolverInfo`, plus the startup read and the watch loop). One slot
  holds the active session, or none. A successful dial replaces the session. A failed dial keeps
  it and sends one notification with the event id `dnscrypt-invalid-stamp`, the title
  `DNSCrypt: Server Stamp invalid` and the error text as message. At startup an empty stored
  stamp is not dialled. The watch loop does not skip empty stamps: it dials every value it gets.
- **Resolve** (`resolve`). With no active session it returns no response and no error, and
  exchanges nothing. Otherwise it builds a query with recursion desired and exactly one question
  whose type and class are cut to 16 bits. An exchange error is passed on unchanged. A reply
  becomes a response with the upstream RCODE (section 4.1.1 of RFC 1035) converted to `uint32`,
  plus the translated answer section.

Layout: `go.dfy` (Go value types and the `uint16`/`uint32` conversions), `dns.dfy` (the
miekg/dns records and messages), `proto.dfy` (the host's generic shapes), `dnscrypt.dfy` (the
client-library boundary), `records.dfy` (translation), `query.dfy` (query building and the
meaning of `resolve`), `plugin.dfy` (the plugin state as a class).

Modelling choices:

- A Go string is a byte sequence (`GoString = seq<byte>`), so `[]byte(s)` keeps the same contents.
- The outcome of `client.Dial(server)` is a parameter of `GetResolverInfo`. The ghost field
  `dialed` records which stamps were dialled, so "not dialled" can be stated.
- `client.Exchange` is a function parameter from the query and the session to a reply or an
  error. "Performs no exchange" is stated as "the outcome does not depend on that function".
- The transaction id from `dns.Id()` is an arbitrary 16-bit parameter.
- `resolve`'s `(nil, nil)`, `(nil, err)` and `(resp, nil)` results are the three constructors of
  `Query.Outcome`.
- An empty stamp is skipped only at startup (main.go:148-150). The watch loop passes it to
  `Dial` (main.go:138-139). When `Dial` rejects it, clearing the setting keeps the old session and
  raises a notification. The model follows the code.

## Model

| member | source | states |
|---|---|---|
| Go.Uint16 | main.go:78-79 | `uint16(x)` keeps the value when it fits in 16 bits and is always congruent to x modulo 2^16 |
| Go.Uint32 | main.go:91 | `uint32(rcode)` keeps any value in 0..2^32-1 and is always congruent to the input modulo 2^32 |
| Records.Convert | main.go:33-57 | a record is emitted iff it is A, AAAA, CNAME or TXT; name, class and ttl are copied from the header; A gives type 1 with the address bytes, AAAA type 28 with its bytes, CNAME type 5 with the target, TXT type 5 with its first segment or empty data |
| Records.KeptIndices | main.go:27-50 | the positions kept are exactly the supported positions, strictly increasing |
| Records.KeptIndicesCount | main.go:33-50 | the number of kept positions equals the number of supported records |
| Records.ConvertAllEnumerates | main.go:27-58 | the k-th output record is the conversion of the k-th supported input record: order preserved, nothing merged, others dropped |
| Records.ConvertAllLength | main.go:33-50 | the output length equals the number of A, AAAA, CNAME and TXT records in the input |
| Records.ConvertAllAppend | main.go:25-62 | translating a concatenation gives the concatenation of the translations |
| Records.UnsupportedOnlyIsEmpty | main.go:48-49 | a list of only unsupported records translates to the empty list, with no error |
| Records.TxtEmittedAsCname | main.go:40-47 | a TXT record with first segment s is emitted exactly as a CNAME with target s; its type is not the TXT code |
| Records.ConvertRRs | main.go:25-62 | the loop returns the specified translation: its length is the supported count and its k-th record converts the k-th supported input |
| Records.MixedAnswerExample | main.go:33-58 | A + CNAME + two-segment TXT + SRV gives three records; the TXT one carries only "v=spf1" |
| Query.BuildQuery | main.go:72-81 | the query has the given id, recursion desired, zero opcode and rcode, no records and one question with the input name and type and class congruent modulo 2^16 |
| Query.QuestionRoundTrip | main.go:75-81 | a question whose type and class fit in 16 bits reaches the wire unchanged |
| Query.QueriesDifferOnlyInId | main.go:72-74 | two queries for one question differ only in their transaction id |
| Query.Resolution | main.go:64-94 | not configured iff no session; failed iff the exchange errs, with that same error; otherwise the rcode converted to uint32 (verbatim when in range) and the translated answers |
| Query.UnconfiguredNeverExchanges | main.go:68-70 | without a session the outcome is "not configured" whatever the upstream would do |
| Query.OnlyTheBuiltQueryIsExchanged | main.go:83-86 | with a session, the outcome depends on the upstream only through its reply to the built query |
| Query.AuthorityAndAdditionalIgnored | main.go:88-93 | the authority and additional sections of the reply do not affect the response |
| Query.NameErrorPassthrough | main.go:90-93 | a reply with rcode 3 and no answers yields response code 3 and no records |
| Plugin.InvalidStamp | main.go:101-105 | the failure notification has the fixed event id and title and the error text as message |
| Plugin.LastSuccessWins | main.go:137-141 | after a series of updates the active session is the one from the last successful dial |
| Plugin.FailuresKeepSession | main.go:99-111 | failed dials never change the active session |
| Plugin.FailedIndices | main.go:99-111 | the positions listed are exactly the failed dials' positions, strictly increasing |
| Plugin.FailedIndicesCount | main.go:99-111 | the number of listed failure positions equals the number of failed dials |
| Plugin.NoticesFollowFailures | main.go:101-105 | the k-th notification of a series is the invalid-stamp notification with the error of the k-th failed dial |
| Plugin.OneNoticePerFailure | main.go:99-111 | a series of updates raises exactly one notification per failed dial, in dial order: the k-th carries the fixed id and title and the error text of the k-th failed dial |
| Plugin.NotConfiguredBeforeFirstSuccess | main.go:68-70 | before any dial has succeeded, every query is answered "not configured" |
| Plugin.Resolver.constructor | main.go:18-23 | the process starts with no session, no notification and no dial |
| Plugin.Resolver.GetResolverInfo | main.go:96-117 | the stamp is dialled; on success the session becomes the dialled one and nothing is sent; on failure the session is kept and exactly one invalid-stamp notification is appended |
| Plugin.Resolver.ApplyStartupValue | main.go:143-150 | an empty stored stamp changes nothing and is not dialled; a non-empty one is one update |
| Plugin.Resolver.WatchValues | main.go:137-141 | every watched value is dialled in order, the empty one included; the session and the notifications are those the series of dial outcomes determines |
| Plugin.Resolver.Resolve | main.go:64-94 | one read of the active session, then exactly the outcome `Resolution` specifies |
| Plugin.InvalidStampKeepsSession | main.go:96-117 | a valid stamp then an invalid one leaves the first session active and exactly one notification |

## Left out

- The command line, plugin registration, init hook and serving loop (main.go:155-191): process plumbing with no computation.
- Registering the `dnscryptServer` option and its errors (main.go:120-135), and reading the stored value (main.go:143-146): host calls. The value read becomes the parameter of `ApplyStartupValue`.
- The goroutine and channel of the watch loop (main.go:137-141): the loop is modelled as a sequential `WatchValues` over the received values.
- The race between startup and the watch loop: the goroutine starts (main.go:137) before the stored value is read and dialled (main.go:143-150), and `Dial` runs outside the lock (main.go:99, against 113-116). In the program the startup dial and the watched dials can finish in either order, so an older stamp's session can overwrite a newer one. The "last" of `LastSuccessWins` is the order of the sequential model, not the order in which values arrive.
- The reader/writer lock (main.go:21, 65-66, 113-114): the model is sequential, and each session update is one assignment.
- The DNSCrypt protocol behind `client.Dial` and `client.Exchange`: certificate fetch, encryption, network I/O, timeouts and cancellation. Their outcomes are parameters.
- The randomness of `dns.Id()`: the id is a parameter.
- The `ctx` and `conn` arguments of `resolve`: the code never uses them.
- Wire packing and unpacking in miekg/dns, the header's `Rdlength`, and the message header flags the code never sets or reads.
- A failure to deliver the notification and its log line (main.go:106-108): they do not affect the state.
- The 64-bit width of Go's `int` (the type of the upstream RCODE): it is modelled as unbounded, and every 64-bit value converts to `uint32` the same way.
