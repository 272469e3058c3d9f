/** The in-process store of alert cards and ticks. */
module MemoryStoreModel {
  import opened Domain
  import opened Cards
  import opened AlertFlow
  import opened AlertKey

  datatype UpdateResult = Updated(revision: nat) | Conflict | NotFound

  /** The ids that a rule's prefix selects. */
  predicate Listed(name: string, id: AlertId) {
    RulePrefix(name) <= id
  }

  class MemoryStore {
    var cards: map<AlertId, VersionedCard>
    var ticks: map<AlertId, Time>

    constructor ()
      ensures cards == map[] && ticks == map[]
    {
      cards := map[];
      ticks := map[];
    }

    /** A tick without a time to live never expires. */
    method RefreshTick(id: AlertId, lastSeen: Time, ttl: Time)
      modifies this`ticks
      ensures ticks == old(ticks)[id := TickExpiry(lastSeen, ttl)]
    {
      var expiresAt := ZERO_TIME;
      if ttl > 0 {
        expiresAt := lastSeen + ttl;
      }
      ticks := ticks[id := expiresAt];
    }

    /** Looks once for reading and once more before deleting, each with its own clock reading: the tick
        counts as present if either look finds it alive, and is deleted if neither does. */
    method HasTick(id: AlertId, first: Instant, second: Instant) returns (alive: bool)
      modifies this`ticks
      ensures alive <==> TickAlive(Lookup(old(ticks), id), first) || TickAlive(Lookup(old(ticks), id), second)
      ensures ticks == if alive then old(ticks) else old(ticks) - {id}
    {
      if id !in ticks {
        assert ticks - {id} == ticks;
        return false;
      }
      var expiresAt := ticks[id];
      if expiresAt == ZERO_TIME || first < expiresAt {
        return true;
      }
      if expiresAt == ZERO_TIME || second < expiresAt {
        return true;
      }
      ticks := ticks - {id};
      alive := false;
    }

    method GetCard(id: AlertId) returns (entry: Option<VersionedCard>)
      ensures entry == Lookup(cards, id)
    {
      entry := if id in cards then Some(cards[id]) else None;
    }

    /** None when the card exists already. */
    method CreateCard(id: AlertId, card: AlertCard) returns (revision: Option<nat>)
      modifies this`cards
      ensures if id in old(cards) then revision == None && cards == old(cards)
              else revision == Some(1) && cards == old(cards)[id := VersionedCard(card, 1)]
    {
      if id in cards {
        return None;
      }
      cards := cards[id := VersionedCard(card, 1)];
      revision := Some(1);
    }

    method PutCard(id: AlertId, card: AlertCard) returns (revision: nat)
      modifies this`cards
      ensures revision == (if id in old(cards) then old(cards)[id].revision else 0) + 1
      ensures cards == old(cards)[id := VersionedCard(card, revision)]
    {
      revision := (if id in cards then cards[id].revision else 0) + 1;
      cards := cards[id := VersionedCard(card, revision)];
    }

    /** Writes only over the revision the caller has read. */
    method UpdateCard(id: AlertId, expected: nat, card: AlertCard) returns (result: UpdateResult)
      modifies this`cards
      ensures match Lookup(old(cards), id)
              case None => result == NotFound && cards == old(cards)
              case Some(entry) =>
                if entry.revision != expected then result == Conflict && cards == old(cards)
                else result == Updated(expected + 1) && cards == old(cards)[id := VersionedCard(card, expected + 1)]
    {
      if id !in cards {
        return NotFound;
      }
      if cards[id].revision != expected {
        return Conflict;
      }
      cards := cards[id := VersionedCard(card, expected + 1)];
      result := Updated(expected + 1);
    }

    method DeleteCard(id: AlertId)
      modifies this
      ensures cards == old(cards) - {id} && ticks == old(ticks) - {id}
    {
      cards := cards - {id};
      ticks := ticks - {id};
    }

    /** The cards stored under the rule's prefix, each once. */
    method ListAlertIDsByRule(name: string) returns (ids: seq<AlertId>)
      ensures forall id :: id in ids <==> id in cards && Listed(name, id)
      ensures forall i, j :: 0 <= i < j < |ids| ==> ids[i] != ids[j]
    {
      ids := [];
      var todo := cards.Keys;
      while todo != {}
        invariant todo <= cards.Keys
        invariant forall id :: id in ids <==> id in cards && id !in todo && Listed(name, id)
        invariant forall i, j :: 0 <= i < j < |ids| ==> ids[i] != ids[j]
        decreases |todo|
      {
        var id :| id in todo;
        todo := todo - {id};
        if Listed(name, id) {
          ids := ids + [id];
        }
      }
    }
  }
}
