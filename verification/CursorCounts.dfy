/**
 Compiled filters give few enough cursors for the packed candidate word (src/DBQuery.h):
 ids, authors and tag values are bounded by the buffer of their set, pairs of author and
 kind by the plan; only a list of kinds has no bound but the size of the message.
 */
module CursorCounts {
  import opened Lex
  import opened Events
  import opened Filters
  import opened FilterSets
  import opened JsonValues
  import opened FilterParser
  import opened Index
  import opened MergeQueue
  import opened ScanInvariant

  const MAX_CURSORS: nat := 0x100_0000

  /** As `FilterSets.Compile` packs them. */
  predicate PackedSet(s: seq<Bytes>) {
    StrictlySorted(s) && |Concat(s)| <= 65535
  }

  predicate PackedSets(f: NostrFilter) {
    && (f.ids.Some? ==> PackedSet(f.ids.value))
    && (f.authors.Some? ==> PackedSet(f.authors.value))
    && (forall t <- f.tags :: PackedSet(t.vals))
  }

  /** Only the first item of a sorted set can be empty. */
  lemma {:induction false} ItemsTakeRoom(s: seq<Bytes>)
    requires StrictlySorted(s)
    ensures |s| <= |Concat(s)| + 1
    decreases |s|
  {
    var n := |s| - 1;
    if n > 0 {
      ItemsTakeRoom(s[..n]);
      assert Less(s[0], s[n]);
    }
  }

  lemma SortedStringsPacked(v: Json, hexDecode: bool, minSize: nat, maxSize: nat)
    requires SetOk(v, hexDecode, minSize, maxSize)
    ensures PackedSet(SortedStrings(v, hexDecode))
  {
    SortSorts(Strings(v.items, hexDecode).value);
    DedupKeeps(Sort(Strings(v.items, hexDecode).value));
  }

  lemma PutPacks(f: NostrFilter, fd: Field)
    requires FieldOk(fd) && PackedSets(f)
    ensures PackedSets(Put(f, fd))
  {
    if !IsEmptyArray(fd.value) {
      match KindOf(fd.key) {
        case FIds => SortedStringsPacked(fd.value, true, 32, 32);
        case FAuthors => SortedStringsPacked(fd.value, true, 32, 32);
        case FTag(name) =>
          if IsHexTag(name) {
            SortedStringsPacked(fd.value, true, 32, 32);
          } else {
            SortedStringsPacked(fd.value, false, 0, MAX_INDEXED_TAG_VAL_SIZE);
          }
        case _ =>
      }
    }
  }

  lemma {:induction false} PutAllPacks(fields: seq<Field>)
    requires AllOk(fields)
    ensures PackedSets(PutAll(fields))
    decreases |fields|
  {
    var n := |fields| - 1;
    if n >= 0 {
      PutAllPacks(fields[..n]);
      PutPacks(PutAll(fields[..n]), fields[n]);
    }
  }

  lemma {:induction false} PairCount(authors: seq<Bytes>, kinds: seq<nat>)
    ensures |AuthorKindKeys(authors, kinds)| == |authors| * |kinds|
    decreases |authors|
  {
    if authors != [] {
      PairCount(authors[1..], kinds);
      assert |authors| * |kinds| == |kinds| + |authors[1..]| * |kinds|;
    }
  }

  lemma FewSearchKeys(f: NostrFilter)
    requires PackedSets(f) && (f.kinds.Some? ==> |f.kinds.value| < MAX_CURSORS)
    ensures |SearchKeys(f)| < MAX_CURSORS
  {
    match PlanOf(f)
    case ById => ItemsTakeRoom(f.ids.value);
    case ByTag => ItemsTakeRoom(f.tags[SmallestTag(f.tags)].vals);
    case ByPubkeyKind => PairCount(f.authors.value, f.kinds.value);
    case ByPubkey => ItemsTakeRoom(f.authors.value);
    case ByKind =>
    case ByCreated =>
  }

  /** A compiled filter has fewer than 2^24 cursors, whatever it lists, if it lists fewer than 2^24 kinds. */
  lemma CompiledHasFewCursors(j: FilterJson, maxFilterLimit: nat)
    requires Accepted(j)
    ensures var f := Compiled(j, maxFilterLimit);
      (f.kinds.Some? ==> |f.kinds.value| < MAX_CURSORS) ==> |SearchKeys(f)| < MAX_CURSORS
  {
    PutAllPacks(j.fields);
    var f := Compiled(j, maxFilterLimit);
    if f.kinds.Some? ==> |f.kinds.value| < MAX_CURSORS { FewSearchKeys(f); }
  }

  /** So every candidate a scan ever queues is in the range of `MergeQueue.CandidateExact`. */
  lemma CandidatesFit(f: NostrFilter, H: EventTable, v: View, c: Candidate)
    requires |SearchKeys(f)| < MAX_CURSORS && WellFormedTable(H)
    requires |v.cursors| == |SearchKeys(f)| && v.next <= |v.cursors| && QueueOk(f, H, v) && c in v.queue
    ensures c.created < 0x100_0000_0000 && c.scanIndex < 0x100_0000
  {
    QueueTimes(f, H, v);
  }
}
