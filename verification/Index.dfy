/**
 The secondary indices of golpe.yaml and the index plan a filter compiles to.

 An index is the list of its records in key order: by string part, then number
 part (created_at), then levId. Keys of numbers (a kind, or a public key followed
 by a kind) are strings whose last position is the number, which orders them as
 the integer comparators do.
 */
module Index {
  import opened Lex
  import opened Events
  import opened Filters

  datatype Rec = Rec(s: Bytes, n: nat, lev: nat)

  datatype Plan = ById | ByTag | ByPubkeyKind | ByPubkey | ByKind | ByCreated

  predicate RecLess(a: Rec, b: Rec) {
    Less(a.s, b.s) || (a.s == b.s && (a.n < b.n || (a.n == b.n && a.lev < b.lev)))
  }

  predicate RecLeq(a: Rec, b: Rec) {
    a == b || RecLess(a, b)
  }

  lemma RecTransitive(a: Rec, b: Rec, c: Rec)
    requires RecLeq(a, b) && RecLeq(b, c)
    ensures RecLeq(a, c)
    ensures RecLess(a, b) || RecLess(b, c) ==> RecLess(a, c)
  {
    if Less(a.s, b.s) && Less(b.s, c.s) { LessTransitive(a.s, b.s, c.s); }
  }

  lemma RecTotal(a: Rec, b: Rec)
    ensures a == b || RecLess(a, b) || RecLess(b, a)
    ensures !(RecLess(a, b) && RecLeq(b, a))
  {
    LessTotal(a.s, b.s);
    LessIrreflexive(a.s);
    if Less(a.s, b.s) { LessAsymmetric(a.s, b.s); }
    if Less(b.s, a.s) { LessAsymmetric(b.s, a.s); }
  }

  /** The string parts under which an event is entered in the index of a plan. */
  function EntryKeys(plan: Plan, e: Event): set<Bytes> {
    match plan
    case ById => {e.id}
    case ByTag => set tag <- e.tags :: [tag.name] + tag.val
    case ByPubkeyKind => {e.pubkey + [e.kind]}
    case ByPubkey => {e.pubkey}
    case ByKind => {[e.kind]}
    case ByCreated => {[]}
  }

  predicate Sorted(ix: seq<Rec>) {
    forall i, j | 0 <= i < j < |ix| :: RecLess(ix[i], ix[j])
  }

  predicate IsEntry(r: Rec, plan: Plan, events: EventTable) {
    r.lev in events && r.n == events[r.lev].created && r.s in EntryKeys(plan, events[r.lev])
  }

  ghost predicate IsIndex(ix: seq<Rec>, plan: Plan, events: EventTable) {
    Sorted(ix) && forall r :: r in ix <==> IsEntry(r, plan, events)
  }

  /** How many records lie at or below a position: where a reverse iteration from it starts. */
  function UpperBound(ix: seq<Rec>, pos: Rec): (k: nat)
    requires Sorted(ix)
    ensures k <= |ix|
    ensures forall i | 0 <= i < k :: RecLeq(ix[i], pos)
    ensures forall i | k <= i < |ix| :: !RecLeq(ix[i], pos)
  {
    if ix == [] then 0
    else if RecLeq(ix[|ix| - 1], pos) then BelowLast(ix, pos); |ix|
    else UpperBound(ix[..|ix| - 1], pos)
  }

  lemma BelowLast(ix: seq<Rec>, pos: Rec)
    requires Sorted(ix) && ix != [] && RecLeq(ix[|ix| - 1], pos)
    ensures forall i | 0 <= i < |ix| :: RecLeq(ix[i], pos)
  {
    forall i | 0 <= i < |ix| ensures RecLeq(ix[i], pos) {
      RecTransitive(ix[i], ix[|ix| - 1], pos);
    }
  }

  /** One read transaction: the event table and its indices. */
  datatype Snapshot = Snapshot(events: EventTable, index: map<Plan, seq<Rec>>)

  ghost predicate ValidSnapshot(db: Snapshot) {
    && WellFormedTable(db.events)
    && forall plan: Plan :: plan in db.index && IsIndex(db.index[plan], plan, db.events)
  }

  // ----- plan choice -----

  /** The tag with the fewest values; the first one on a tie. */
  function SmallestTag(tags: seq<TagSet>): (i: nat)
    requires tags != []
    ensures i < |tags| && forall t <- tags :: |tags[i].vals| <= |t.vals|
  {
    if |tags| == 1 then 0 else
      var rest := SmallestTag(tags[..|tags| - 1]);
      assert tags == tags[..|tags| - 1] + [tags[|tags| - 1]];
      if |tags[|tags| - 1].vals| < |tags[rest].vals| then |tags| - 1 else rest
  }

  function PlanOf(f: NostrFilter): Plan {
    if f.ids.Some? then ById
    else if f.tags != [] then ByTag
    else if f.authors.Some? && f.kinds.Some? && |f.authors.value| * |f.kinds.value| < 1_000 then ByPubkeyKind
    else if f.authors.Some? then ByPubkey
    else if f.kinds.Some? then ByKind
    else ByCreated
  }

  function AuthorKindKeys(authors: seq<Bytes>, kinds: seq<nat>): seq<Bytes> {
    if authors == [] then [] else
      seq(|kinds|, j requires 0 <= j < |kinds| => authors[0] + [kinds[j]]) + AuthorKindKeys(authors[1..], kinds)
  }

  /** The string part each cursor of the plan searches for. */
  function SearchKeys(f: NostrFilter): seq<Bytes> {
    match PlanOf(f)
    case ById => f.ids.value
    case ByTag =>
      var t := f.tags[SmallestTag(f.tags)];
      seq(|t.vals|, i requires 0 <= i < |t.vals| => [t.name] + t.vals[i])
    case ByPubkeyKind => AuthorKindKeys(f.authors.value, f.kinds.value)
    case ByPubkey => f.authors.value
    case ByKind => seq(|f.kinds.value|, i requires 0 <= i < |f.kinds.value| => [f.kinds.value[i]])
    case ByCreated => [[]]
  }

  /** The scan trusts the index alone unless the pubkey plan had to drop the kinds. */
  function IndexOnly(f: NostrFilter): bool {
    f.indexOnlyScans && !(PlanOf(f) == ByPubkey && f.kinds.Some?)
  }

  /** The `keyMatch` callback of each plan, applied to the string part of a key. */
  predicate KeyMatch(plan: Plan, search: Bytes, s: Bytes) {
    match plan
    case ById => search <= s
    case ByTag => |s| == |search| && search <= s
    case ByPubkeyKind => search <= s
    case ByPubkey => search <= s
    case ByKind => s != [] && search != [] && s[0] == search[0]
    case ByCreated => true
  }

  lemma {:induction false} AuthorKindKeysExact(authors: seq<Bytes>, kinds: seq<nat>, a: Bytes, k: nat)
    requires All32(authors) && |a| == 32
    ensures a + [k] in AuthorKindKeys(authors, kinds) <==> a in authors && k in kinds
    ensures forall s <- AuthorKindKeys(authors, kinds) :: |s| == 33
    ensures authors != [] && kinds != [] ==> AuthorKindKeys(authors, kinds) != []
  {
    if authors != [] {
      AuthorKindKeysExact(authors[1..], kinds, a, k);
      var first := seq(|kinds|, j requires 0 <= j < |kinds| => authors[0] + [kinds[j]]);
      assert AuthorKindKeys(authors, kinds) == first + AuthorKindKeys(authors[1..], kinds);
      assert a + [k] in first <==> a == authors[0] && k in kinds by {
        if a + [k] in first {
          var j :| 0 <= j < |kinds| && first[j] == a + [k];
          assert (a + [k])[..32] == a && (a + [k])[32] == k;
          assert (authors[0] + [kinds[j]])[..32] == authors[0] && (authors[0] + [kinds[j]])[32] == kinds[j];
        }
        if a == authors[0] && k in kinds {
          var j :| 0 <= j < |kinds| && kinds[j] == k;
          assert first[j] == a + [k];
        }
      }
    }
  }

  /** Every plan reaches every event its filter matches. */
  lemma PlanReaches(f: NostrFilter, e: Event) returns (i: nat)
    requires ValidFilter(f) && WellFormed(e) && Matches(f, e)
    ensures i < |SearchKeys(f)| && SearchKeys(f)[i] in EntryKeys(PlanOf(f), e)
  {
    match PlanOf(f)
    case ById => i :| 0 <= i < |f.ids.value| && f.ids.value[i] == e.id;
    case ByTag =>
      var t := f.tags[SmallestTag(f.tags)];
      assert MatchesTag(t, e);
      var tag :| tag in e.tags && tag.name == t.name && tag.val in t.vals;
      i :| 0 <= i < |t.vals| && t.vals[i] == tag.val;
      assert SearchKeys(f)[i] == [tag.name] + tag.val;
    case ByPubkeyKind =>
      AuthorKindKeysExact(f.authors.value, f.kinds.value, e.pubkey, e.kind);
      i :| 0 <= i < |SearchKeys(f)| && SearchKeys(f)[i] == e.pubkey + [e.kind];
    case ByPubkey => i :| 0 <= i < |f.authors.value| && f.authors.value[i] == e.pubkey;
    case ByKind => i :| 0 <= i < |f.kinds.value| && f.kinds.value[i] == e.kind;
    case ByCreated => i := 0;
  }

  /** When the scan is index-only, a record under a search key settles every field but the times. */
  lemma PlanDecides(f: NostrFilter, e: Event, i: nat)
    requires ValidFilter(f) && WellFormed(e) && IndexOnly(f)
    requires i < |SearchKeys(f)| && SearchKeys(f)[i] in EntryKeys(PlanOf(f), e)
    ensures MatchesFields(f, e)
  {
    match PlanOf(f)
    case ById =>
    case ByTag =>
      var t := f.tags[SmallestTag(f.tags)];
      assert f.tags == [t];
      var tag :| tag in e.tags && [tag.name] + tag.val == [t.name] + t.vals[i];
      assert ([tag.name] + tag.val)[0] == tag.name && ([tag.name] + tag.val)[1..] == tag.val;
      assert ([t.name] + t.vals[i])[0] == t.name && ([t.name] + t.vals[i])[1..] == t.vals[i];
      assert MatchesTag(t, e);
    case ByPubkeyKind =>
      AuthorKindKeysExact(f.authors.value, f.kinds.value, e.pubkey, e.kind);
    case ByPubkey =>
    case ByKind =>
    case ByCreated =>
  }

  /** On the records of its own index, each `keyMatch` accepts exactly the searched string. */
  lemma KeyMatchExact(f: NostrFilter, e: Event, i: nat, s: Bytes)
    requires ValidFilter(f) && WellFormed(e) && i < |SearchKeys(f)| && s in EntryKeys(PlanOf(f), e)
    ensures KeyMatch(PlanOf(f), SearchKeys(f)[i], s) <==> s == SearchKeys(f)[i]
  {
    if PlanOf(f) == ByPubkeyKind {
      AuthorKindKeysExact(f.authors.value, f.kinds.value, e.pubkey, e.kind);
      assert SearchKeys(f)[i] in AuthorKindKeys(f.authors.value, f.kinds.value);
    }
  }

  lemma SearchKeysNonEmpty(f: NostrFilter)
    requires ValidFilter(f)
    ensures SearchKeys(f) != []
  {
    if PlanOf(f) == ByPubkeyKind {
      AuthorKindKeysExact(f.authors.value, f.kinds.value, f.authors.value[0], f.kinds.value[0]);
    }
  }
}
