/**
 Nostr events as the store sees them: the packed summary of src/PackedEvent.h,
 the kind ranges of src/events.h, and the index entries golpe.yaml derives.
 */
module Events {
  import opened Lex

  datatype Option<+T> = None | Some(value: T)

  datatype Tag = Tag(name: nat, val: Bytes)

  datatype Event = Event(
    id: Bytes, pubkey: Bytes, created: nat, kind: nat, expiration: nat, tags: seq<Tag>)

  type EventTable = map<nat, Event>   // levId -> event

  const TAG_D: nat := 100   // 'd'
  const TAG_E: nat := 101   // 'e'
  const TAG_P: nat := 112   // 'p'
  const DELETION_KIND: nat := 5

  predicate IsReplaceableKind(kind: nat) {
    kind == 0 || kind == 3 || kind == 41 || 10_000 <= kind < 20_000
  }

  predicate IsParamReplaceableKind(kind: nat) {
    30_000 <= kind < 40_000
  }

  predicate IsEphemeralKind(kind: nat) {
    20_000 <= kind < 30_000
  }

  /** What the builders guarantee and the scan's packed candidate needs (created below 2^40). */
  predicate WellFormed(e: Event) {
    && |e.id| == 32
    && |e.pubkey| == 32
    && e.created < 0x100_0000_0000
    && e.kind <= MAX_U64
  }

  ghost predicate WellFormedTable(events: EventTable) {
    forall lev <- events :: 1 <= lev <= MAX_U64 && WellFormed(events[lev])
  }
}
