/**
 Live subscriptions, said without an index: an event goes to every subscription
 that is older than it and has a filter matching it.
 */
module MonitorSpec {
  import opened Seqs
  import opened Lex
  import opened Events
  import opened Filters

  datatype Sub = Sub(filters: seq<NostrFilter>, latest: nat)

  /** `latestEventId` of the subscription is below the event and a filter matches. */
  predicate Due(sub: Sub, e: Event, lev: nat) {
    sub.latest < lev && MatchesAny(sub.filters, e)
  }

  /** A key of one of the five lookup structures. */
  datatype LookupKey = KId(id: Bytes) | KAuthor(pubkey: Bytes) | KTag(spec: Bytes) | KKind(kind: nat) | KOther

  function TagKeys(tags: seq<TagSet>): seq<LookupKey> {
    if tags == [] then [] else
      seq(|tags[0].vals|, j requires 0 <= j < |tags[0].vals| => KTag([tags[0].name] + tags[0].vals[j])) +
        TagKeys(tags[1..])
  }

  /** Where a filter is installed: under one kind of key only. */
  function KeysOf(f: NostrFilter): seq<LookupKey> {
    if f.ids.Some? then seq(|f.ids.value|, i requires 0 <= i < |f.ids.value| => KId(f.ids.value[i]))
    else if f.authors.Some? then
      seq(|f.authors.value|, i requires 0 <= i < |f.authors.value| => KAuthor(f.authors.value[i]))
    else if f.tags != [] then TagKeys(f.tags)
    else if f.kinds.Some? then seq(|f.kinds.value|, i requires 0 <= i < |f.kinds.value| => KKind(f.kinds.value[i]))
    else [KOther]
  }

  /** Where an event looks for filters, in this order. */
  function EventKeys(e: Event): seq<LookupKey> {
    [KId(e.id), KAuthor(e.pubkey)]
    + seq(|e.tags|, i requires 0 <= i < |e.tags| => KTag([e.tags[i].name] + e.tags[i].val))
    + [KKind(e.kind), KOther]
  }

  lemma {:induction false} TagKeysHas(tags: seq<TagSet>, name: nat, val: Bytes)
    ensures KTag([name] + val) in TagKeys(tags) <==> exists t <- tags :: t.name == name && val in t.vals
    decreases |tags|
  {
    if tags != [] {
      TagKeysHas(tags[1..], name, val);
      var t := tags[0];
      var first := seq(|t.vals|, j requires 0 <= j < |t.vals| => KTag([t.name] + t.vals[j]));
      assert tags == [t] + tags[1..] && TagKeys(tags) == first + TagKeys(tags[1..]);
      assert KTag([name] + val) in first <==> t.name == name && val in t.vals by {
        if KTag([name] + val) in first {
          var j :| 0 <= j < |t.vals| && first[j] == KTag([name] + val);
          assert ([name] + val)[0] == name && ([name] + val)[1..] == val;
          assert ([t.name] + t.vals[j])[0] == t.name && ([t.name] + t.vals[j])[1..] == t.vals[j];
        }
        if t.name == name && val in t.vals {
          var j :| 0 <= j < |t.vals| && t.vals[j] == val;
          assert first[j] == KTag([name] + val);
        }
      }
    }
  }

  lemma {:induction false} TagKeysShape(tags: seq<TagSet>, k: LookupKey)
    requires k in TagKeys(tags)
    ensures k.KTag? && k.spec != [] && exists t <- tags :: t.name == k.spec[0]
    decreases |tags|
  {
    var t := tags[0];
    var first := seq(|t.vals|, j requires 0 <= j < |t.vals| => KTag([t.name] + t.vals[j]));
    if k !in first {
      TagKeysShape(tags[1..], k);
      assert forall u <- tags[1..] :: u in tags;
    }
  }

  lemma {:induction false} TagKeysDistinct(tags: seq<TagSet>)
    requires forall t <- tags :: Distinct(t.vals)
    requires forall i, j | 0 <= i < j < |tags| :: tags[i].name != tags[j].name
    ensures Distinct(TagKeys(tags))
    decreases |tags|
  {
    if tags != [] {
      var t, rest := tags[0], tags[1..];
      assert t in tags && forall u <- rest :: u in tags;
      assert forall i, j | 0 <= i < j < |rest| :: rest[i] == tags[i + 1] && rest[j] == tags[j + 1];
      TagKeysDistinct(rest);
      var first := seq(|t.vals|, j requires 0 <= j < |t.vals| => KTag([t.name] + t.vals[j]));
      forall i, j | 0 <= i < j < |first| ensures first[i] != first[j] {
        assert ([t.name] + t.vals[i])[1..] == t.vals[i] && ([t.name] + t.vals[j])[1..] == t.vals[j];
      }
      assert forall u <- rest :: u.name != t.name;
      forall k <- TagKeys(rest) ensures k !in first { TagKeysShape(rest, k); }
      assert TagKeys(tags) == first + TagKeys(rest);
      forall i, j | 0 <= i < j < |TagKeys(tags)| ensures TagKeys(tags)[i] != TagKeys(tags)[j] {
        if i < |first| <= j {
          assert TagKeys(tags)[i] in first && TagKeys(tags)[j] in TagKeys(rest);
        }
      }
    }
  }

  lemma KeysDistinct(f: NostrFilter)
    requires CanonFilter(f)
    ensures Distinct(KeysOf(f))
  {
    if f.ids.None? && f.authors.None? && f.tags != [] { TagKeysDistinct(f.tags); }
  }

  /** Although a filter is under one kind of key only, every event it matches looks there. */
  lemma MatchIsFound(f: NostrFilter, e: Event) returns (k: LookupKey)
    requires Matches(f, e)
    ensures k in KeysOf(f) && k in EventKeys(e)
  {
    var keys := EventKeys(e);
    if f.ids.Some? {
      k := KId(e.id);
      var i :| 0 <= i < |f.ids.value| && f.ids.value[i] == e.id;
      assert KeysOf(f)[i] == k && keys[0] == k;
    } else if f.authors.Some? {
      k := KAuthor(e.pubkey);
      var i :| 0 <= i < |f.authors.value| && f.authors.value[i] == e.pubkey;
      assert KeysOf(f)[i] == k && keys[1] == k;
    } else if f.tags != [] {
      assert MatchesTag(f.tags[0], e);
      var tag :| tag in e.tags && tag.name == f.tags[0].name && tag.val in f.tags[0].vals;
      var i :| 0 <= i < |e.tags| && e.tags[i] == tag;
      k := KTag([tag.name] + tag.val);
      assert keys[2 + i] == k;
      TagKeysHas(f.tags, tag.name, tag.val);
    } else if f.kinds.Some? {
      k := KKind(e.kind);
      var i :| 0 <= i < |f.kinds.value| && f.kinds.value[i] == e.kind;
      assert KeysOf(f)[i] == k && keys[|keys| - 2] == k;
    } else {
      k := KOther;
      assert keys[|keys| - 1] == k;
    }
  }
}
