// The `deliveries` table: at most one row per (event id, channel), the durable
// marker that a reply may have left the process.
module DeliveryLedger {
  import opened Basics
  import opened QueueTable

  type Key = (nat, string)

  datatype Progress = Sending | Sent

  datatype Delivery = Delivery(
    progress: Progress,
    messageId: Option<string>,
    lockedBy: Token,
    attemptedAt: Time,
    sentAt: Option<Time>)

  type Ledger = map<Key, Delivery>

  datatype Verdict = Proceed | AlreadySent(messageId: Option<string>) | Ambiguous

  predicate SendingUnder(ledger: Ledger, k: Key, token: Token) {
    k in ledger && ledger[k].progress.Sending? && ledger[k].lockedBy == token
  }

  // begin_delivery, one immediate transaction.
  function Judge(ledger: Ledger, k: Key, token: Token): Verdict {
    if k !in ledger then Proceed
    else if ledger[k].progress.Sent? then AlreadySent(ledger[k].messageId)
    else if ledger[k].lockedBy == token then Proceed
    else Ambiguous
  }

  function Reserve(ledger: Ledger, k: Key, token: Token, now: Time): Ledger {
    if k in ledger then ledger else ledger[k := Delivery(Sending, None, token, now, None)]
  }

  // finish_delivery: unguarded, but an UPDATE creates no row.
  function Confirm(ledger: Ledger, k: Key, messageId: Option<string>, now: Time): Ledger {
    if k in ledger then ledger[k := ledger[k].(progress := Sent, messageId := messageId, sentAt := Some(now))] else ledger
  }

  // clear_delivery: only the reserving claim, only while still sending.
  function Release(ledger: Ledger, k: Key, token: Token): Ledger {
    if SendingUnder(ledger, k, token) then ledger - {k} else ledger
  }
}
