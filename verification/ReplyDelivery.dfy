// One call of the reply sender: the live channel, then possibly the stateless
// one, and what the caller is told.  Whether the remote side accepted a send
// is part of an attempt, because the caller cannot see it.
module ReplyDelivery {
  import opened Basics
  import opened QueueTable
  import opened DeliveryLedger
  import QueueStore

  datatype UrlReason = ReasonTimeout | ReasonRefused | ReasonConnection | ReasonNameLookup | ReasonOther

  datatype SendError =
    | Timeout
    | ConnectionRefused
    | NameLookup
    | HttpStatus(reason: UrlReason)
    | Url(reason: UrlReason)
    | OtherError

  // True only when the request cannot have reached the channel.
  predicate ProvablyUndelivered(e: SendError) {
    match e
    case Timeout => false
    case ConnectionRefused => true
    case NameLookup => true
    case HttpStatus(_) => false
    case Url(reason) => reason.ReasonRefused? || reason.ReasonConnection? || reason.ReasonNameLookup?
    case OtherError => false
  }

  datatype LiveSend =
    | NoLiveChannel
    | Returned(id: Option<string>, liveAccepted: bool)
    | Raised(error: SendError, liveAccepted: bool)

  // `id` and `accepted` describe the stateless sender, should it be reached.
  datatype Attempt = Attempt(live: LiveSend, discord: bool, id: Option<string>, accepted: bool)

  datatype Report = Delivered(id: string) | NotDelivered | Unclear

  // A returned id counts only when it is a non-empty string.
  predicate LiveConfirms(live: LiveSend) { live.Returned? && live.id.Some? && live.id.value != "" }

  predicate LiveUnclear(live: LiveSend) { live.Raised? && !ProvablyUndelivered(live.error) }

  predicate FallsBack(a: Attempt, strict: bool) {
    !a.discord && !LiveConfirms(a.live) && !(strict && LiveUnclear(a.live))
  }

  function Reported(a: Attempt, strict: bool): Report {
    if LiveConfirms(a.live) then Delivered(a.live.id.value)
    else if strict && LiveUnclear(a.live) then Unclear
    else if a.discord || a.id.None? then NotDelivered
    else Delivered(a.id.value)
  }

  // How many messages the remote side took.
  function Accepts(a: Attempt, strict: bool): nat {
    (if !a.live.NoLiveChannel? && a.live.liveAccepted then 1 else 0)
    + (if FallsBack(a, strict) && a.accepted then 1 else 0)
  }

  // The caller of a strict call is left without a verdict, and nothing more is sent.
  ghost predicate MayHaveArrived(a: Attempt, strict: bool, liveAccepted: bool, report: Report, accepts: nat) {
    if strict then report == Unclear && accepts == (if liveAccepted then 1 else 0)
    else HandedOn(a, liveAccepted, report, accepts)
  }

  // The stateless sender decides, except for discord, which has none.
  ghost predicate HandedOn(a: Attempt, liveAccepted: bool, report: Report, accepts: nat) {
    if a.discord then report == NotDelivered && accepts == if liveAccepted then 1 else 0
    else
      && report == (if a.id.Some? then Delivered(a.id.value) else NotDelivered)
      && accepts == (if liveAccepted then 1 else 0) + if a.accepted then 1 else 0
  }

  // A strict call ends with the live send once that may have arrived; only errors from
  // before the connection, or no answer at all, hand the reply on.
  method DeliverResponse(a: Attempt, strict: bool) returns (report: Report, accepts: nat)
    ensures report == Reported(a, strict)
    ensures accepts == Accepts(a, strict)
    ensures match a.live
            case NoLiveChannel => HandedOn(a, false, report, accepts)
            case Returned(id, taken) =>
              if id.Some? && id.value != "" then report == Delivered(id.value) && accepts == (if taken then 1 else 0)
              else HandedOn(a, taken, report, accepts)
            case Raised(Timeout, taken) => MayHaveArrived(a, strict, taken, report, accepts)
            case Raised(HttpStatus(_), taken) => MayHaveArrived(a, strict, taken, report, accepts)
            case Raised(OtherError, taken) => MayHaveArrived(a, strict, taken, report, accepts)
            case Raised(Url(ReasonTimeout), taken) => MayHaveArrived(a, strict, taken, report, accepts)
            case Raised(Url(ReasonOther), taken) => MayHaveArrived(a, strict, taken, report, accepts)
            case Raised(ConnectionRefused, taken) => HandedOn(a, taken, report, accepts)
            case Raised(NameLookup, taken) => HandedOn(a, taken, report, accepts)
            case Raised(Url(ReasonRefused), taken) => HandedOn(a, taken, report, accepts)
            case Raised(Url(ReasonConnection), taken) => HandedOn(a, taken, report, accepts)
            case Raised(Url(ReasonNameLookup), taken) => HandedOn(a, taken, report, accepts)
  {
    accepts := 0;
    var messageId: Option<string> := None;
    if !a.live.NoLiveChannel? {
      accepts := if a.live.liveAccepted then 1 else 0;
      if a.live.Raised? {
        if strict && !ProvablyUndelivered(a.live.error) {
          return Unclear, accepts;
        }
        messageId := None;
      } else {
        messageId := a.live.id;
      }
      if messageId.Some? && messageId.value != "" {
        return Delivered(messageId.value), accepts;
      }
    }
    if a.discord {
      return NotDelivered, accepts;
    }
    accepts := accepts + if a.accepted then 1 else 0;
    messageId := a.id;
    report := if messageId.Some? then Delivered(messageId.value) else NotDelivered;
  }

  // No verdict exactly after an error that can come once the request is under way.
  lemma UnclearIff(a: Attempt)
    ensures Reported(a, true) == Unclear <==>
              a.live.Raised? && match a.live.error
                                case Timeout => true
                                case HttpStatus(_) => true
                                case OtherError => true
                                case Url(reason) => reason == ReasonTimeout || reason == ReasonOther
                                case ConnectionRefused => false
                                case NameLookup => false
    ensures Reported(a, true) == Unclear ==> Accepts(a, true) <= 1
  {
  }

  // What the ledger needs of a call: at most one message leaves, and none when
  // the caller is told that nothing was delivered.
  predicate Faithful(a: Attempt) {
    Accepts(a, true) <= 1 && (Reported(a, true).NotDelivered? ==> Accepts(a, true) == 0)
  }

  // The assumption on the channels: a falsy id or a pre-connect error from the
  // live channel, and no id from the stateless one, mean "not accepted".
  predicate HonestLive(live: LiveSend) {
    match live
    case NoLiveChannel => true
    case Returned(_, accepted) => LiveConfirms(live) || !accepted
    case Raised(e, accepted) => ProvablyUndelivered(e) ==> !accepted
  }

  predicate Honest(a: Attempt) {
    HonestLive(a.live) && (FallsBack(a, true) && a.id.None? ==> !a.accepted)
  }

  // Provided a returned stateless id means acceptance, channel honesty is
  // exactly what faithfulness asks for.
  lemma FaithfulIffHonest(a: Attempt)
    requires a.id.Some? ==> a.accepted
    ensures Faithful(a) <==> Honest(a)
  {
    var strict := true;
    if FallsBack(a, strict) && !HonestLive(a.live) {
      assert Accepts(a, strict) >= 1;
      assert a.id.Some? ==> Accepts(a, strict) == 2;
    }
  }

  // Without the strict flag an honest channel pair can still send twice: the
  // live send times out after acceptance and the stateless one repeats it.
  lemma NonStrictFallbackSendsTwice()
    ensures exists a :: Honest(a) && Accepts(a, false) == 2 && Accepts(a, true) == 1
  {
    var a := Attempt(Raised(Timeout, true), false, Some("2"), true);
    assert Honest(a) && Accepts(a, false) == 2 && Accepts(a, true) == 1;
  }

  // The stateless sender swallows every exception and answers None, so a
  // time-out after acceptance is reported as "not delivered".
  lemma SwallowedTimeoutIsUnfaithful()
    ensures var a := Attempt(NoLiveChannel, false, None, true);
            Reported(a, true) == NotDelivered && Accepts(a, true) == 1 && !Faithful(a)
  {
  }

  // The ledger-gated reply path when nothing interleaves with it.
  method DeliverIdempotent(db: QueueStore.Store, eventId: nat, channel: string, token: Option<Token>, a: Attempt, now: Time)
    returns (messageId: Option<string>, accepts: nat)
    modifies db`ledger
    ensures !(token.Some? && '#' in token.value) ==>
              db.ledger == old(db.ledger) && accepts == Accepts(a, false)
              && messageId == (match Reported(a, false) case Delivered(id) => Some(id) case _ => None)
    ensures token.Some? && '#' in token.value ==>
              var k := (eventId, channel);
              match Judge(old(db.ledger), k, token.value)
              case AlreadySent(prior) => accepts == 0 && messageId == prior && db.ledger == old(db.ledger)
              case Ambiguous => accepts == 0 && messageId == None && db.ledger == old(db.ledger)
              case Proceed =>
                && accepts == Accepts(a, true)
                && db.ledger - {k} == old(db.ledger) - {k}
                && match Reported(a, true)
                   case Delivered(id) => messageId == Some(id) && k in db.ledger && db.ledger[k].progress.Sent?
                                         && db.ledger[k].messageId == Some(id)
                   case NotDelivered => messageId == None && k !in db.ledger
                   case Unclear => messageId == None && SendingUnder(db.ledger, k, token.value)
  {
    var k := (eventId, channel);
    var report: Report;
    if !IsClaimToken(token) {
      report, accepts := DeliverResponse(a, false);
      return (match report case Delivered(id) => Some(id) case _ => None), accepts;
    }
    var verdict := db.BeginDelivery(k, token.value, now);
    if verdict.AlreadySent? {
      return verdict.messageId, 0;
    }
    if verdict.Ambiguous? {
      return None, 0;
    }
    report, accepts := DeliverResponse(a, true);
    match report {
      case Unclear =>
        messageId := None;
      case Delivered(id) =>
        db.FinishDelivery(k, Some(id), now);
        messageId := Some(id);
      case NotDelivered =>
        var _ := db.ClearDelivery(k, token.value);
        messageId := None;
    }
  }
}
