/**
 Compiled Nostr filters (src/filters.h): what a filter matches, and the plan
 `DBScan` compiles it to (src/DBQuery.h).

 A filter set is held as the list that `at` enumerates; FilterSets shows that the
 packed sets of the source hold exactly such lists and decide membership in them.
 */
module Filters {
  import opened Seqs
  import opened Lex
  import opened Events

  datatype TagSet = TagSet(name: nat, vals: seq<Bytes>)

  datatype NostrFilter = NostrFilter(
    ids: Option<seq<Bytes>>,
    authors: Option<seq<Bytes>>,
    kinds: Option<seq<nat>>,
    tags: seq<TagSet>,
    since: nat,
    until: nat,
    limit: nat,
    neverMatch: bool,
    indexOnlyScans: bool)

  predicate MatchesTimes(f: NostrFilter, created: nat) {
    f.since <= created <= f.until
  }

  predicate MatchesTag(t: TagSet, e: Event) {
    exists tag <- e.tags :: tag.name == t.name && tag.val in t.vals
  }

  /** Everything but the time window. */
  predicate MatchesFields(f: NostrFilter, e: Event) {
    && (f.ids.Some? ==> e.id in f.ids.value)
    && (f.authors.Some? ==> e.pubkey in f.authors.value)
    && (f.kinds.Some? ==> e.kind in f.kinds.value)
    && (forall t <- f.tags :: MatchesTag(t, e))
  }

  predicate Matches(f: NostrFilter, e: Event) {
    !f.neverMatch && MatchesTimes(f, e.created) && MatchesFields(f, e)
  }

  predicate MatchesAny(fs: seq<NostrFilter>, e: Event) {
    exists f <- fs :: Matches(f, e)
  }

  function NumMajorFields(f: NostrFilter): nat {
    (if f.ids.Some? then 1 else 0) + (if f.authors.Some? then 1 else 0) +
    (if f.kinds.Some? then 1 else 0) + |f.tags|
  }

  predicate All32(s: seq<Bytes>) {
    forall b <- s :: |b| == 32
  }

  /** The shape of every filter a filter group keeps; `FilterParser.CompiledIsValid` establishes it. */
  predicate ValidFilter(f: NostrFilter) {
    && !f.neverMatch
    && (f.ids.Some? ==> f.ids.value != [] && All32(f.ids.value))
    && (f.authors.Some? ==> f.authors.value != [] && All32(f.authors.value))
    && (f.kinds.Some? ==> f.kinds.value != [])
    && |f.tags| <= 3
    && (forall t <- f.tags :: t.vals != [])
    && f.indexOnlyScans ==
       (NumMajorFields(f) <= 1 || (NumMajorFields(f) == 2 && f.authors.Some? && f.kinds.Some?))
  }

  /** Filter sets hold no repeats and no tag is listed twice, as compiled filters do. */
  predicate CanonFilter(f: NostrFilter) {
    && (f.ids.Some? ==> Distinct(f.ids.value))
    && (f.authors.Some? ==> Distinct(f.authors.value))
    && (f.kinds.Some? ==> Distinct(f.kinds.value))
    && (forall t <- f.tags :: Distinct(t.vals))
    && (forall i, j | 0 <= i < j < |f.tags| :: f.tags[i].name != f.tags[j].name)
  }
}
