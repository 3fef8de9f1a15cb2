/**
 * The plugin's shared state: the active DNSCrypt session, the notifications sent to the host, and
 * the stamps handed to `Dial`. The state is updated sequentially; each update is one assignment.
 */
module Plugin {
  import opened Go
  import opened Dns
  import opened Proto
  import opened DnsCrypt
  import opened Records
  import opened Query

  const InvalidStampEventId: GoString := Bytes("dnscrypt-invalid-stamp")
  const InvalidStampTitle: GoString := Bytes("DNSCrypt: Server Stamp invalid")

  /** The notification raised when dialling a stamp fails with `err`. */
  function InvalidStamp(err: Error): (n: Notification)
    ensures n.eventId == InvalidStampEventId && n.title == InvalidStampTitle
    ensures n.message == err.text
  {
    Notification(InvalidStampEventId, InvalidStampTitle, err.text)
  }

  /** The session after one update whose dial produced `dial`: replaced on success, kept on failure. */
  function Step(info: Option<ResolverInfo>, dial: Result<ResolverInfo>): Option<ResolverInfo> {
    match dial
    case Ok(session) => Some(session)
    case Err(_) => info
  }

  /** The session after a series of updates, starting from `info`. */
  function AfterUpdates(info: Option<ResolverInfo>, dials: seq<Result<ResolverInfo>>): Option<ResolverInfo>
    decreases |dials|
  {
    if dials == [] then info
    else Step(AfterUpdates(info, dials[..|dials| - 1]), dials[|dials| - 1])
  }

  /** The notifications a series of updates raises: one per failed dial, in order. */
  function FailureNotices(dials: seq<Result<ResolverInfo>>): seq<Notification>
    decreases |dials|
  {
    if dials == [] then []
    else
      var init := FailureNotices(dials[..|dials| - 1]);
      match dials[|dials| - 1]
      case Ok(_) => init
      case Err(e) => init + [InvalidStamp(e)]
  }

  /** The positions of the failed dials. */
  ghost function FailedPositions(dials: seq<Result<ResolverInfo>>): set<nat> {
    set i: nat | i < |dials| && dials[i].Err?
  }

  /** The positions of the failed dials, in increasing order. */
  ghost function FailedIndices(dials: seq<Result<ResolverInfo>>): (idx: seq<nat>)
    ensures forall k | 0 <= k < |idx| :: idx[k] < |dials| && dials[idx[k]].Err?
    ensures forall k, l | 0 <= k < l < |idx| :: idx[k] < idx[l]
    ensures forall i | 0 <= i < |dials| && dials[i].Err? :: i in idx
    decreases |dials|
  {
    if dials == [] then []
    else
      var n := |dials| - 1;
      FailedIndices(dials[..n]) + (if dials[n].Err? then [n] else [])
  }

  /** The last successful dial decides the session; later failures do not disturb it. */
  lemma {:induction false} LastSuccessWins(info: Option<ResolverInfo>, dials: seq<Result<ResolverInfo>>, j: nat)
    requires j < |dials| && dials[j].Ok?
    requires forall l | j < l < |dials| :: dials[l].Err?
    ensures AfterUpdates(info, dials) == Some(dials[j].value)
    decreases |dials|
  {
    if j < |dials| - 1 {
      LastSuccessWins(info, dials[..|dials| - 1], j);
    }
  }

  /** A series of failed dials leaves the session as it was. */
  lemma {:induction false} FailuresKeepSession(info: Option<ResolverInfo>, dials: seq<Result<ResolverInfo>>)
    requires forall l | 0 <= l < |dials| :: dials[l].Err?
    ensures AfterUpdates(info, dials) == info
    decreases |dials|
  {
    if dials != [] {
      FailuresKeepSession(info, dials[..|dials| - 1]);
    }
  }

  /** The k-th notification reports the error of the k-th failed dial. */
  lemma {:induction false} NoticesFollowFailures(dials: seq<Result<ResolverInfo>>)
    ensures |FailureNotices(dials)| == |FailedIndices(dials)|
    ensures forall k | 0 <= k < |FailureNotices(dials)| ::
              FailureNotices(dials)[k] == InvalidStamp(dials[FailedIndices(dials)[k]].err)
    decreases |dials|
  {
    if dials != [] {
      NoticesFollowFailures(dials[..|dials| - 1]);
    }
  }

  /** Extending a series by one dial adds at most its position to the failed positions. */
  lemma FailedPositionsSnoc(dials: seq<Result<ResolverInfo>>)
    requires dials != []
    ensures var n := |dials| - 1;
            FailedPositions(dials) == FailedPositions(dials[..n]) + (if dials[n].Err? then {n} else {})
  {
  }

  /** The number of failed positions listed is the number of failed dials. */
  lemma {:induction false} FailedIndicesCount(dials: seq<Result<ResolverInfo>>)
    ensures |FailedIndices(dials)| == |FailedPositions(dials)|
    decreases |dials|
  {
    if dials != [] {
      var n := |dials| - 1;
      FailedIndicesCount(dials[..n]);
      FailedPositionsSnoc(dials);
      if dials[n].Err? {
        assert n !in FailedPositions(dials[..n]);
      }
    }
  }

  /**
   * Every failed dial raises exactly one notification, in the order of the dials: the k-th
   * notification reports the error of the k-th failed dial, under the fixed event id and title.
   */
  lemma OneNoticePerFailure(dials: seq<Result<ResolverInfo>>)
    ensures |FailureNotices(dials)| == |FailedPositions(dials)|
    ensures |FailureNotices(dials)| == |FailedIndices(dials)|
    ensures forall k | 0 <= k < |FailureNotices(dials)| ::
              FailureNotices(dials)[k] == InvalidStamp(dials[FailedIndices(dials)[k]].err)
    ensures forall k | 0 <= k < |FailureNotices(dials)| ::
              FailureNotices(dials)[k].eventId == InvalidStampEventId && FailureNotices(dials)[k].title == InvalidStampTitle
  {
    NoticesFollowFailures(dials);
    FailedIndicesCount(dials);
  }

  /** Until some dial succeeds, every query is answered "not configured". */
  lemma NotConfiguredBeforeFirstSuccess(dials: seq<Result<ResolverInfo>>, question: DnsQuestion, id: uint16, exchange: Exchange)
    requires forall l | 0 <= l < |dials| :: dials[l].Err?
    ensures Resolution(AfterUpdates(None, dials), question, id, exchange) == NotConfigured
  {
    FailuresKeepSession(None, dials);
  }

  /** The package-level state of the plugin. */
  class Resolver {
    var resolverInfo: Option<ResolverInfo>
    var notifications: seq<Notification>
    /** The stamps handed to `Dial`, oldest first. */
    ghost var dialed: seq<GoString>

    /** The state at process start: no session, nothing sent, nothing dialled. */
    constructor ()
      ensures resolverInfo == None && notifications == [] && dialed == []
    {
      resolverInfo := None;
      notifications := [];
      dialed := [];
    }

    /**
     * `getResolverInfo(server)`, where `dial` is what `Dial(server)` returned: a new session
     * replaces the old one; a failure keeps the old one and raises one notification.
     */
    method GetResolverInfo(server: GoString, dial: Result<ResolverInfo>)
      modifies this
      ensures dialed == old(dialed) + [server]
      ensures dial.Ok? ==> resolverInfo == Some(dial.value) && notifications == old(notifications)
      ensures dial.Err? ==> resolverInfo == old(resolverInfo) && notifications == old(notifications) + [InvalidStamp(dial.err)]
    {
      dialed := dialed + [server];
      if dial.Err? {
        notifications := notifications + [InvalidStamp(dial.err)];
        return;
      }
      resolverInfo := Some(dial.value);
    }

    /** The startup read of the stored stamp: an empty stamp is not dialled at all. */
    method ApplyStartupValue(srv: GoString, dial: Result<ResolverInfo>)
      modifies this
      ensures srv == [] ==> resolverInfo == old(resolverInfo) && notifications == old(notifications) && dialed == old(dialed)
      ensures srv != [] ==> dialed == old(dialed) + [srv]
      ensures srv != [] ==> resolverInfo == Step(old(resolverInfo), dial)
      ensures srv != [] ==> notifications == old(notifications) + FailureNotices([dial])
    {
      if srv != [] {
        GetResolverInfo(srv, dial);
      }
    }

    /**
     * The watch loop: each changed value is dialled in turn, the empty stamp included;
     * `dials[i]` is the outcome of dialling `values[i]`.
     */
    method WatchValues(values: seq<GoString>, dials: seq<Result<ResolverInfo>>)
      requires |values| == |dials|
      modifies this
      ensures resolverInfo == AfterUpdates(old(resolverInfo), dials)
      ensures notifications == old(notifications) + FailureNotices(dials)
      ensures dialed == old(dialed) + values
    {
      for i := 0 to |values|
        invariant resolverInfo == AfterUpdates(old(resolverInfo), dials[..i])
        invariant notifications == old(notifications) + FailureNotices(dials[..i])
        invariant dialed == old(dialed) + values[..i]
      {
        assert dials[..i + 1][..i] == dials[..i];
        assert values[..i + 1] == values[..i] + [values[i]];
        GetResolverInfo(values[i], dials[i]);
      }
      assert dials[..|dials|] == dials;
      assert values[..|values|] == values;
    }

    /**
     * `resolve(question)`, with `id` standing for `dns.Id()` and `exchange` for `client.Exchange`:
     * reads the active session once and answers as `Resolution` specifies.
     */
    method Resolve(question: DnsQuestion, id: uint16, exchange: Exchange) returns (r: Outcome)
      ensures r == Resolution(resolverInfo, question, id, exchange)
    {
      if resolverInfo.None? {
        return NotConfigured;
      }
      var req := BuildQuery(question, id);
      var result := exchange(req, resolverInfo.value);
      if result.Err? {
        return Failed(result.err);
      }
      var rrs := ConvertRRs(result.value.answer);
      r := Answered(DnsResponse(Uint32(result.value.rcode), rrs));
    }
  }

  /** A failed dial after a successful one keeps the first session and raises one notification. */
  method InvalidStampKeepsSession(stampA: GoString, infoA: ResolverInfo, badStamp: GoString, err: Error)
    returns (p: Resolver)
    ensures p.resolverInfo == Some(infoA)
    ensures p.notifications == [InvalidStamp(err)]
    ensures p.dialed == [stampA, badStamp]
  {
    p := new Resolver();
    p.GetResolverInfo(stampA, Ok(infoA));
    p.GetResolverInfo(badStamp, Err(err));
  }
}
