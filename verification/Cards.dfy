/** How an alert card is built and rewritten. Every writer of a card, in one
    instance or in many, goes through these functions. */
module Cards {
  import opened Domain

  /** A stored card and the revision that guards its next write. */
  datatype VersionedCard = VersionedCard(card: AlertCard, revision: nat)

  /** What one transition contributes to a card besides the decision itself. */
  datatype CardInput = CardInput(
    alertId: AlertId,
    ruleName: string,
    identity: AlertIdentity,
    eventCount: int,
    now: Instant)

  function WithTransition(card: AlertCard, state: AlertState, cause: string, now: Instant): AlertCard {
    match state
    case Pending => card.(pendingSince := Some(now), closedAt := None, resolveCause := "")
    case Firing => card.(pendingSince := None, closedAt := None, resolveCause := "")
    case Resolved => card.(closedAt := Some(now), resolveCause := cause)
    case Idle => card
  }

  /** The card of an alert that has none yet. */
  function NewCard(d: Decision, input: CardInput): AlertCard {
    var card := AlertCard(input.alertId, input.ruleName, input.identity, input.eventCount, map[],
                          d.state, input.now, None, input.now, None, "");
    WithTransition(card, d.state, d.cause, input.now)
  }

  /** The card after one transition: identity, raise time and references survive. */
  function UpdatedCard(card: AlertCard, d: Decision, input: CardInput): AlertCard {
    var rewritten := card.(lastSeenAt := input.now, state := d.state,
                           identity := card.identity.(metric := input.identity.metric),
                           eventCount := input.eventCount);
    WithTransition(rewritten, d.state, d.cause, input.now)
  }

  /** A missing raise time falls back to the last write, then to the closing time. */
  function BackfilledRaise(card: AlertCard, fallback: Time): Time {
    if card.raisedAt != ZERO_TIME then card.raisedAt
    else if card.lastSeenAt != ZERO_TIME then card.lastSeenAt
    else fallback
  }

  /** The card of an alert whose tick expired. */
  function ExpiredCard(card: AlertCard, reason: string, now: Instant): AlertCard {
    card.(state := Resolved,
          raisedAt := BackfilledRaise(card, now),
          closedAt := Some(now),
          resolveCause := if reason == "" then "ttl_expired" else reason)
  }

  /** An absent reference reads as the empty string. */
  function RefAt(refs: map<string, string>, key: string): string {
    if key in refs then refs[key] else ""
  }

  ghost predicate HoldsAll(refs: map<string, string>, updates: map<string, string>) {
    forall key :: key in updates ==> RefAt(refs, key) == updates[key]
  }

  /** The references after writing every update that differs from what is stored. */
  function MergedRefs(refs: map<string, string>, updates: map<string, string>): (merged: map<string, string>)
    ensures refs.Keys <= merged.Keys
    ensures HoldsAll(merged, updates)
    ensures forall key :: key !in updates ==> Lookup(merged, key) == Lookup(refs, key)
    ensures merged == refs <==> HoldsAll(refs, updates)
  {
    var changed := map key | key in updates && RefAt(refs, key) != updates[key] :: updates[key];
    var merged := refs + changed;
    assert !HoldsAll(refs, updates) ==> merged != refs by {
      if !HoldsAll(refs, updates) {
        var key :| key in updates && RefAt(refs, key) != updates[key];
        assert key in changed && RefAt(merged, key) == updates[key];
      }
    }
    merged
  }
}
