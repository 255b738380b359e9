/**
 Compiling filter JSON (src/filters.h): what a filter object means field by field,
 and the proof that the compiled filter means the same.
 */
module FilterParser {
  import opened Seqs
  import opened Lex
  import opened Events
  import opened Filters
  import opened FilterSets
  import opened Hex
  import opened JsonValues

  /** Keys are byte strings, as the source counts them. */
  datatype Field = Field(key: Bytes, value: Json)

  datatype FilterJson = FilterObject(fields: seq<Field>) | NotAnObject

  datatype FieldKind = FIds | FAuthors | FKinds | FTag(name: nat) | FSince | FUntil | FLimit | FUnknown

  function Ascii(s: string): Bytes {
    seq(|s|, i requires 0 <= i < |s| => s[i] as nat)
  }

  const HASH: nat := 35   // '#'

  function KindOf(key: Bytes): FieldKind {
    if key == Ascii("ids") then FIds
    else if key == Ascii("authors") then FAuthors
    else if key == Ascii("kinds") then FKinds
    else if |key| == 2 && key[0] == HASH then FTag(key[1])
    else if key == Ascii("since") then FSince
    else if key == Ascii("until") then FUntil
    else if key == Ascii("limit") then FLimit
    else FUnknown
  }

  /** The keys of an object are distinct, so no kind of field is set twice. */
  lemma KindsDistinct(a: Bytes, b: Bytes)
    requires KindOf(a) == KindOf(b) && KindOf(a) != FUnknown
    ensures a == b
  {
    if KindOf(a).FTag? {
      assert a == [HASH, a[1]] && b == [HASH, b[1]];
    }
  }

  // ----- values -----

  predicate IsEmptyArray(v: Json) {
    v.JArray? && v.items == []
  }

  /** The strings of an array, decoded if they are hex; nothing if one is no string or no hex. */
  function Strings(items: seq<Json>, hexDecode: bool): Option<seq<Bytes>> {
    if items == [] then Some([])
    else if !items[0].JString? then None
    else
      var first := if hexDecode then FromHex(items[0].text) else Some(items[0].text);
      var rest := Strings(items[1..], hexDecode);
      if first.None? || rest.None? then None else Some([first.value] + rest.value)
  }

  function Numbers(items: seq<Json>): Option<seq<nat>> {
    if items == [] then Some([])
    else if !items[0].JUnsigned? || Numbers(items[1..]).None? then None
    else Some([items[0].n] + Numbers(items[1..]).value)
  }

  lemma {:induction false} StringsLength(items: seq<Json>, hexDecode: bool)
    ensures Strings(items, hexDecode).Some? ==> |Strings(items, hexDecode).value| == |items|
    decreases |items|
  {
    if items != [] { StringsLength(items[1..], hexDecode); }
  }

  lemma {:induction false} NumbersLength(items: seq<Json>)
    ensures Numbers(items).Some? ==> |Numbers(items).value| == |items|
    decreases |items|
  {
    if items != [] { NumbersLength(items[1..]); }
  }

  predicate SetOk(v: Json, hexDecode: bool, minSize: nat, maxSize: nat) {
    && v.JArray? && Strings(v.items, hexDecode).Some?
    && Sizes(Strings(v.items, hexDecode).value, minSize, maxSize)
    && |Concat(Dedup(Sort(Strings(v.items, hexDecode).value)))| <= 65535
  }

  predicate IsHexTag(name: nat) {
    name == TAG_P || name == TAG_E
  }

  predicate TagOk(name: nat, v: Json) {
    if IsHexTag(name) then SetOk(v, true, 32, 32) else SetOk(v, false, 0, MAX_INDEXED_TAG_VAL_SIZE)
  }

  /** Compiling this field raises no exception. */
  predicate FieldOk(fd: Field) {
    IsEmptyArray(fd.value) ||
    match KindOf(fd.key)
    case FIds => SetOk(fd.value, true, 32, 32)
    case FAuthors => SetOk(fd.value, true, 32, 32)
    case FKinds => fd.value.JArray? && Numbers(fd.value.items).Some?
    case FTag(name) => TagOk(name, fd.value)
    case FSince => fd.value.JUnsigned?
    case FUntil => fd.value.JUnsigned?
    case FLimit => fd.value.JUnsigned?
    case FUnknown => false
  }

  /** What the field asks of an event. */
  predicate FieldHolds(fd: Field, e: Event)
    requires FieldOk(fd)
  {
    !IsEmptyArray(fd.value) &&
    match KindOf(fd.key)
    case FIds => e.id in Strings(fd.value.items, true).value
    case FAuthors => e.pubkey in Strings(fd.value.items, true).value
    case FKinds => e.kind in Numbers(fd.value.items).value
    case FTag(name) => exists tag <- e.tags ::
      tag.name == name && tag.val in Strings(fd.value.items, IsHexTag(name)).value
    case FSince => fd.value.n <= e.created
    case FUntil => e.created <= fd.value.n
    case FLimit => true
    case FUnknown => false
  }

  // ----- the compiled filter -----

  const Default := NostrFilter(None, None, None, [], 0, MAX_U64, MAX_U64, false, false)

  function SortedStrings(v: Json, hexDecode: bool): seq<Bytes>
    requires v.JArray? && Strings(v.items, hexDecode).Some?
  {
    Dedup(Sort(Strings(v.items, hexDecode).value))
  }

  function Put(f: NostrFilter, fd: Field): NostrFilter
    requires FieldOk(fd)
  {
    if IsEmptyArray(fd.value) then f.(neverMatch := true) else
      match KindOf(fd.key)
      case FIds => f.(ids := Some(SortedStrings(fd.value, true)))
      case FAuthors => f.(authors := Some(SortedStrings(fd.value, true)))
      case FKinds => f.(kinds := Some(CompileUint(Numbers(fd.value.items).value)))
      case FTag(name) => f.(tags := f.tags + [TagSet(name, SortedStrings(fd.value, IsHexTag(name)))])
      case FSince => f.(since := fd.value.n)
      case FUntil => f.(until := fd.value.n)
      case FLimit => f.(limit := fd.value.n)
      case FUnknown => f
  }

  predicate AllOk(fields: seq<Field>) {
    forall fd <- fields :: FieldOk(fd)
  }

  predicate KeysDiffer(fields: seq<Field>) {
    forall i, j | 0 <= i < j < |fields| :: fields[i].key != fields[j].key
  }

  function PutAll(fields: seq<Field>): NostrFilter
    requires AllOk(fields)
    decreases |fields|
  {
    var n := |fields| - 1;
    if n < 0 then Default else Put(PutAll(fields[..n]), fields[n])
  }

  predicate IsMajor(fd: Field) {
    !IsEmptyArray(fd.value)
    && match KindOf(fd.key)
       case FIds => true
       case FAuthors => true
       case FKinds => true
       case FTag(_) => true
       case _ => false
  }

  function MajorCount(fields: seq<Field>): nat
    decreases |fields|
  {
    var n := |fields| - 1;
    if n < 0 then 0 else MajorCount(fields[..n]) + if IsMajor(fields[n]) then 1 else 0
  }

  function Complete(f: NostrFilter, numMajorFields: nat, maxFilterLimit: nat): NostrFilter {
    f.(limit := if f.limit > maxFilterLimit then maxFilterLimit else f.limit,
       indexOnlyScans := numMajorFields <= 1 || (numMajorFields == 2 && f.authors.Some? && f.kinds.Some?))
  }

  predicate Accepted(j: FilterJson) {
    j.FilterObject? && AllOk(j.fields) && |PutAll(j.fields).tags| <= 3
  }

  function Compiled(j: FilterJson, maxFilterLimit: nat): NostrFilter
    requires Accepted(j)
  {
    Complete(PutAll(j.fields), MajorCount(j.fields), maxFilterLimit)
  }

  // ----- the constructor -----

  /** Decodes an array of strings and packs it. */
  method CompileSet(v: Json, hexDecode: bool, minSize: nat, maxSize: nat) returns (r: Option<seq<Bytes>>)
    requires maxSize <= MAX_INDEXED_TAG_VAL_SIZE
    ensures r.Some? <==> SetOk(v, hexDecode, minSize, maxSize)
    ensures r.Some? ==> r.value == SortedStrings(v, hexDecode)
  {
    if !v.JArray? || Strings(v.items, hexDecode).None? { return None; }
    var packed := Compile(Strings(v.items, hexDecode).value, minSize, maxSize);
    if packed.None? { return None; }
    return Some(Contents(packed.value));
  }

  method ParseField(f: NostrFilter, fd: Field) returns (r: Option<NostrFilter>)
    ensures r.Some? <==> FieldOk(fd)
    ensures r.Some? ==> r.value == Put(f, fd)
  {
    if IsEmptyArray(fd.value) { return Some(f.(neverMatch := true)); }
    match KindOf(fd.key) {
      case FIds =>
        var s := CompileSet(fd.value, true, 32, 32);
        if s.None? { return None; }
        return Some(f.(ids := s));
      case FAuthors =>
        var s := CompileSet(fd.value, true, 32, 32);
        if s.None? { return None; }
        return Some(f.(authors := s));
      case FKinds =>
        if !fd.value.JArray? || Numbers(fd.value.items).None? { return None; }
        return Some(f.(kinds := Some(CompileUint(Numbers(fd.value.items).value))));
      case FTag(name) =>
        var s;
        if name == TAG_P || name == TAG_E {
          s := CompileSet(fd.value, true, 32, 32);
        } else {
          s := CompileSet(fd.value, false, 0, MAX_INDEXED_TAG_VAL_SIZE);
        }
        if s.None? { return None; }
        return Some(f.(tags := f.tags + [TagSet(name, s.value)]));
      case FSince =>
        if !fd.value.JUnsigned? { return None; }
        return Some(f.(since := fd.value.n));
      case FUntil =>
        if !fd.value.JUnsigned? { return None; }
        return Some(f.(until := fd.value.n));
      case FLimit =>
        if !fd.value.JUnsigned? { return None; }
        return Some(f.(limit := fd.value.n));
      case FUnknown =>
        return None;
    }
  }

  method ParseFields(fields: seq<Field>) returns (r: Option<NostrFilter>, numMajorFields: nat)
    ensures r.Some? <==> AllOk(fields)
    ensures r.Some? ==> r.value == PutAll(fields) && numMajorFields == MajorCount(fields)
  {
    var f := Default;
    numMajorFields := 0;
    for i := 0 to |fields|
      invariant AllOk(fields[..i])
      invariant f == PutAll(fields[..i]) && numMajorFields == MajorCount(fields[..i])
    {
      var next := ParseField(f, fields[i]);
      if next.None? {
        assert fields[i] in fields;
        return None, 0;
      }
      PutNext(fields, i);
      f := next.value;
      if IsMajor(fields[i]) { numMajorFields := numMajorFields + 1; }
    }
    assert fields[..|fields|] == fields;
    r := Some(f);
  }

  lemma PutNext(fields: seq<Field>, i: nat)
    requires i < |fields| && AllOk(fields[..i]) && FieldOk(fields[i])
    ensures AllOk(fields[..i + 1]) && PutAll(fields[..i + 1]) == Put(PutAll(fields[..i]), fields[i])
    ensures MajorCount(fields[..i + 1]) == MajorCount(fields[..i]) + if IsMajor(fields[i]) then 1 else 0
  {
    assert fields[..i + 1][..i] == fields[..i];
  }

  method ParseFilter(j: FilterJson, maxFilterLimit: nat) returns (r: Option<NostrFilter>)
    ensures r.Some? <==> Accepted(j)
    ensures r.Some? ==> r.value == Compiled(j, maxFilterLimit)
  {
    if j.NotAnObject? { return None; }
    var f, numMajorFields := ParseFields(j.fields);
    if f.None? || |f.value.tags| > 3 { return None; }
    return Some(Complete(f.value, numMajorFields, maxFilterLimit));
  }

  // ----- the compiled filter means what the object says -----

  /** No field of this kind has been put yet. */
  predicate SlotFree(f: NostrFilter, k: FieldKind) {
    match k
    case FIds => f.ids.None?
    case FAuthors => f.authors.None?
    case FKinds => f.kinds.None?
    case FTag(name) => forall t <- f.tags :: t.name != name
    case FSince => f.since == 0
    case FUntil => f.until == MAX_U64
    case FLimit => f.limit == MAX_U64
    case FUnknown => true
  }

  lemma PutKeepsSlot(f: NostrFilter, fd: Field, k: FieldKind)
    requires FieldOk(fd) && SlotFree(f, k) && KindOf(fd.key) != k
    ensures SlotFree(Put(f, fd), k)
  {
  }

  lemma {:induction false} SlotIsFree(fields: seq<Field>, key: Bytes)
    requires AllOk(fields) && forall fd <- fields :: fd.key != key
    ensures SlotFree(PutAll(fields), KindOf(key))
    decreases |fields|
  {
    var n := |fields| - 1;
    if n >= 0 {
      SlotIsFree(fields[..n], key);
      if KindOf(fields[n].key) != KindOf(key) {
        PutKeepsSlot(PutAll(fields[..n]), fields[n], KindOf(key));
      } else if KindOf(key) != FUnknown {
        KindsDistinct(fields[n].key, key);
      }
    }
  }

  lemma LastIsNew(fields: seq<Field>)
    requires AllOk(fields) && KeysDiffer(fields) && fields != []
    ensures AllOk(fields[..|fields| - 1]) && KeysDiffer(fields[..|fields| - 1])
    ensures SlotFree(PutAll(fields[..|fields| - 1]), KindOf(fields[|fields| - 1].key))
  {
    SlotIsFree(fields[..|fields| - 1], fields[|fields| - 1].key);
  }

  lemma SetHas(v: Json, hexDecode: bool, x: Bytes)
    requires v.JArray? && Strings(v.items, hexDecode).Some?
    ensures x in SortedStrings(v, hexDecode) <==> x in Strings(v.items, hexDecode).value
  {
    SortSorts(Strings(v.items, hexDecode).value);
    DedupKeeps(Sort(Strings(v.items, hexDecode).value));
  }

  lemma PutTagMeans(tags: seq<TagSet>, t: TagSet, e: Event)
    ensures (forall u <- tags + [t] :: MatchesTag(u, e)) <==> (forall u <- tags :: MatchesTag(u, e)) && MatchesTag(t, e)
  {
    assert t in tags + [t];
    assert forall u <- tags :: u in tags + [t];
  }

  lemma TagFieldMeans(name: nat, v: Json, e: Event)
    requires TagOk(name, v)
    ensures MatchesTag(TagSet(name, SortedStrings(v, IsHexTag(name))), e)
      <==> exists tag <- e.tags :: tag.name == name && tag.val in Strings(v.items, IsHexTag(name)).value
  {
    forall tag <- e.tags
      ensures tag.val in SortedStrings(v, IsHexTag(name)) <==> tag.val in Strings(v.items, IsHexTag(name)).value
    {
      SetHas(v, IsHexTag(name), tag.val);
    }
  }

  lemma AddTagMeans(f: NostrFilter, t: TagSet, e: Event)
    ensures Matches(f.(tags := f.tags + [t]), e) <==> Matches(f, e) && MatchesTag(t, e)
  {
    PutTagMeans(f.tags, t, e);
  }

  lemma SetIdsMeans(f: NostrFilter, s: seq<Bytes>, e: Event)
    requires f.ids.None?
    ensures Matches(f.(ids := Some(s)), e) <==> Matches(f, e) && e.id in s
  {
  }

  lemma SetAuthorsMeans(f: NostrFilter, s: seq<Bytes>, e: Event)
    requires f.authors.None?
    ensures Matches(f.(authors := Some(s)), e) <==> Matches(f, e) && e.pubkey in s
  {
  }

  lemma SetKindsMeans(f: NostrFilter, s: seq<nat>, e: Event)
    requires f.kinds.None?
    ensures Matches(f.(kinds := Some(s)), e) <==> Matches(f, e) && e.kind in s
  {
  }

  lemma SetTimesMeans(f: NostrFilter, n: nat, e: Event)
    requires WellFormed(e)
    ensures f.since == 0 ==> (Matches(f.(since := n), e) <==> Matches(f, e) && n <= e.created)
    ensures f.until == MAX_U64 ==> (Matches(f.(until := n), e) <==> Matches(f, e) && e.created <= n)
    ensures Matches(f.(limit := n), e) <==> Matches(f, e)
  {
  }

  /** Putting a field adds exactly its condition. */
  lemma PutMeans(f: NostrFilter, fd: Field, e: Event)
    requires FieldOk(fd) && SlotFree(f, KindOf(fd.key)) && WellFormed(e)
    ensures Matches(Put(f, fd), e) <==> Matches(f, e) && FieldHolds(fd, e)
  {
    if !IsEmptyArray(fd.value) {
      match KindOf(fd.key) {
        case FIds =>
          SetHas(fd.value, true, e.id);
          SetIdsMeans(f, SortedStrings(fd.value, true), e);
        case FAuthors =>
          SetHas(fd.value, true, e.pubkey);
          SetAuthorsMeans(f, SortedStrings(fd.value, true), e);
        case FKinds =>
          UintSetExact(Numbers(fd.value.items).value);
          SetKindsMeans(f, CompileUint(Numbers(fd.value.items).value), e);
        case FTag(name) =>
          TagFieldMeans(name, fd.value, e);
          AddTagMeans(f, TagSet(name, SortedStrings(fd.value, IsHexTag(name))), e);
        case FSince => SetTimesMeans(f, fd.value.n, e);
        case FUntil => SetTimesMeans(f, fd.value.n, e);
        case FLimit => SetTimesMeans(f, fd.value.n, e);
        case FUnknown =>
      }
    }
  }

  lemma {:induction false} PutAllMeans(fields: seq<Field>, e: Event)
    requires AllOk(fields) && KeysDiffer(fields) && WellFormed(e)
    ensures Matches(PutAll(fields), e) <==> forall fd <- fields :: FieldHolds(fd, e)
    decreases |fields|
  {
    var n := |fields| - 1;
    if n >= 0 {
      LastIsNew(fields);
      PutAllMeans(fields[..n], e);
      PutMeans(PutAll(fields[..n]), fields[n], e);
      assert fields == fields[..n] + [fields[n]];
    }
  }

  /** The filter object, read as a conjunction of its fields. */
  predicate JsonMatches(j: FilterJson, e: Event)
    requires Accepted(j)
  {
    forall fd <- j.fields :: FieldHolds(fd, e)
  }

  lemma CompiledMeans(j: FilterJson, maxFilterLimit: nat, e: Event)
    requires Accepted(j) && KeysDiffer(j.fields) && WellFormed(e)
    ensures Matches(Compiled(j, maxFilterLimit), e) <==> JsonMatches(j, e)
  {
    PutAllMeans(j.fields, e);
  }

  // ----- the compiled filter has the shape the rest of the relay relies on -----

  predicate SetShape(s: seq<Bytes>) {
    s != [] && Distinct(s)
  }

  predicate IdSetShape(s: seq<Bytes>) {
    SetShape(s) && All32(s)
  }

  predicate Shape(f: NostrFilter) {
    && (f.ids.Some? ==> IdSetShape(f.ids.value))
    && (f.authors.Some? ==> IdSetShape(f.authors.value))
    && (f.kinds.Some? ==> f.kinds.value != [] && Distinct(f.kinds.value))
    && TagsShape(f.tags)
  }

  predicate TagsShape(tags: seq<TagSet>) {
    && (forall t <- tags :: SetShape(t.vals))
    && (forall i, j | 0 <= i < j < |tags| :: tags[i].name != tags[j].name)
  }

  lemma SortedStringsShape(v: Json, hexDecode: bool, minSize: nat, maxSize: nat)
    requires SetOk(v, hexDecode, minSize, maxSize) && !IsEmptyArray(v)
    ensures SetShape(SortedStrings(v, hexDecode)) && Sizes(SortedStrings(v, hexDecode), minSize, maxSize)
  {
    var vals := Strings(v.items, hexDecode).value;
    StringsLength(v.items, hexDecode);
    SortSorts(vals);
    DedupKeeps(Sort(vals));
    assert vals[0] in vals;
    StrictIsDistinct(SortedStrings(v, hexDecode));
  }

  lemma StrictIsDistinct(s: seq<Bytes>)
    requires StrictlySorted(s)
    ensures Distinct(s)
  {
    forall i, j | 0 <= i < j < |s| ensures s[i] != s[j] { LessIrreflexive(s[i]); }
  }

  lemma NumbersShape(items: seq<Json>)
    requires items != [] && Numbers(items).Some?
    ensures CompileUint(Numbers(items).value) != [] && Distinct(CompileUint(Numbers(items).value))
  {
    NumbersLength(items);
    UintSetExact(Numbers(items).value);
    assert Numbers(items).value[0] in Numbers(items).value;
  }

  lemma TagsShapeGrows(tags: seq<TagSet>, t: TagSet)
    requires TagsShape(tags) && SetShape(t.vals) && forall u <- tags :: u.name != t.name
    ensures TagsShape(tags + [t])
  {
  }

  lemma IdFieldShape(v: Json)
    requires SetOk(v, true, 32, 32) && !IsEmptyArray(v)
    ensures IdSetShape(SortedStrings(v, true))
  {
    SortedStringsShape(v, true, 32, 32);
  }

  lemma TagFieldShape(name: nat, v: Json)
    requires TagOk(name, v) && !IsEmptyArray(v)
    ensures SetShape(SortedStrings(v, IsHexTag(name)))
  {
    if IsHexTag(name) {
      SortedStringsShape(v, true, 32, 32);
    } else {
      SortedStringsShape(v, false, 0, MAX_INDEXED_TAG_VAL_SIZE);
    }
  }

  lemma PutKeepsShape(f: NostrFilter, fd: Field)
    requires FieldOk(fd) && SlotFree(f, KindOf(fd.key)) && Shape(f)
    ensures Shape(Put(f, fd))
  {
    if !IsEmptyArray(fd.value) {
      match KindOf(fd.key) {
        case FIds => IdFieldShape(fd.value);
        case FAuthors => IdFieldShape(fd.value);
        case FKinds => NumbersShape(fd.value.items);
        case FTag(name) =>
          TagFieldShape(name, fd.value);
          TagsShapeGrows(f.tags, TagSet(name, SortedStrings(fd.value, IsHexTag(name))));
        case _ =>
      }
    }
  }

  lemma PutCounts(f: NostrFilter, fd: Field)
    requires FieldOk(fd) && SlotFree(f, KindOf(fd.key))
    ensures NumMajorFields(Put(f, fd)) == NumMajorFields(f) + if IsMajor(fd) then 1 else 0
  {
  }

  lemma {:induction false} PutAllShape(fields: seq<Field>)
    requires AllOk(fields) && KeysDiffer(fields)
    ensures Shape(PutAll(fields)) && NumMajorFields(PutAll(fields)) == MajorCount(fields)
    decreases |fields|
  {
    var n := |fields| - 1;
    if n >= 0 {
      LastIsNew(fields);
      PutAllShape(fields[..n]);
      PutKeepsShape(PutAll(fields[..n]), fields[n]);
      PutCounts(PutAll(fields[..n]), fields[n]);
    }
  }

  /**
   A filter that is not trivially empty is valid, holds no repeats and scans its index alone
   exactly when that is enough.
   */
  lemma CompiledIsValid(j: FilterJson, maxFilterLimit: nat)
    requires Accepted(j) && KeysDiffer(j.fields)
    ensures var f := Compiled(j, maxFilterLimit);
      f.limit <= maxFilterLimit && CanonFilter(f) && (!f.neverMatch ==> ValidFilter(f))
  {
    PutAllShape(j.fields);
    ShapeSuffices(PutAll(j.fields), MajorCount(j.fields), maxFilterLimit);
  }

  lemma ShapeSuffices(f: NostrFilter, n: nat, maxFilterLimit: nat)
    requires Shape(f) && n == NumMajorFields(f) && |f.tags| <= 3
    ensures CanonFilter(Complete(f, n, maxFilterLimit))
    ensures !f.neverMatch ==> ValidFilter(Complete(f, n, maxFilterLimit))
  {
  }

  // ----- filter groups -----

  predicate GroupAccepted(req: seq<FilterJson>) {
    req != [] && AllAccepted(req)
  }

  /** The filters of a REQ; those that can never match are left out. */
  method ParseGroup(req: seq<FilterJson>, maxFilterLimit: nat) returns (r: Option<seq<NostrFilter>>)
    requires forall j <- req :: j.FilterObject? ==> KeysDiffer(j.fields)
    ensures r.Some? <==> GroupAccepted(req)
    ensures r.Some? ==> GroupShape(r.value, req, maxFilterLimit) && AllKept(r.value, req, maxFilterLimit)
    ensures r.Some? ==>
      forall e | WellFormed(e) :: MatchesAny(r.value, e) <==> exists j <- req :: JsonMatches(j, e)
  {
    if req == [] { return None; }
    var filters := ParseAll(req, maxFilterLimit);
    if filters.Some? {
      GroupOfIsRight(req, maxFilterLimit);
      GroupKeepsAll(req, maxFilterLimit);
    }
    return filters;
  }

  predicate AllAccepted(req: seq<FilterJson>) {
    forall j <- req :: Accepted(j)
  }

  function GroupOf(req: seq<FilterJson>, maxFilterLimit: nat): seq<NostrFilter>
    requires AllAccepted(req)
    decreases |req|
  {
    var n := |req| - 1;
    if n < 0 then [] else
      var f, before := Compiled(req[n], maxFilterLimit), GroupOf(req[..n], maxFilterLimit);
      if f.neverMatch then before else before + [f]
  }

  /** The loop over the filters. */
  method ParseAll(req: seq<FilterJson>, maxFilterLimit: nat) returns (r: Option<seq<NostrFilter>>)
    ensures r.Some? <==> AllAccepted(req)
    ensures r.Some? ==> r.value == GroupOf(req, maxFilterLimit)
  {
    var filters: seq<NostrFilter> := [];
    for i := 0 to |req|
      invariant AllAccepted(req[..i]) && filters == GroupOf(req[..i], maxFilterLimit)
    {
      var f := ParseFilter(req[i], maxFilterLimit);
      if f.None? {
        assert req[i] in req;
        return None;
      }
      assert req[..i + 1][..i] == req[..i];
      filters := filters + [f.value];
      if f.value.neverMatch {
        filters := filters[..|filters| - 1];
      }
    }
    assert req[..|req|] == req;
    r := Some(filters);
  }

  lemma {:induction false} GroupOfIsRight(req: seq<FilterJson>, maxFilterLimit: nat)
    requires AllAccepted(req) && forall j <- req :: KeysDiffer(j.fields)
    ensures GroupShape(GroupOf(req, maxFilterLimit), req, maxFilterLimit) &&
      GroupMeans(GroupOf(req, maxFilterLimit), req)
    decreases |req|
  {
    var n := |req| - 1;
    if n >= 0 {
      GroupOfIsRight(req[..n], maxFilterLimit);
      NextIsRight(GroupOf(req[..n], maxFilterLimit), req[..n], req[n], req, maxFilterLimit,
        GroupOf(req, maxFilterLimit));
    }
  }

  lemma NextIsRight(
    filters: seq<NostrFilter>, objs: seq<FilterJson>, j: FilterJson, longer: seq<FilterJson>, maxFilterLimit: nat,
    filters': seq<NostrFilter>)
    requires AllAccepted(objs) && Accepted(j) && KeysDiffer(j.fields) && longer == objs + [j] && AllAccepted(longer)
    requires GroupShape(filters, objs, maxFilterLimit) && GroupMeans(filters, objs)
    requires var f := Compiled(j, maxFilterLimit); filters' == if f.neverMatch then filters else filters + [f]
    ensures GroupShape(filters', longer, maxFilterLimit) && GroupMeans(filters', longer)
  {
    GroupGrows(filters, objs, j, maxFilterLimit);
    ShapeGrows(filters, objs, j, maxFilterLimit);
  }

  /** The filters kept are valid, and each is compiled from one of the objects. */
  ghost predicate GroupShape(filters: seq<NostrFilter>, objs: seq<FilterJson>, maxFilterLimit: nat)
    requires forall j <- objs :: Accepted(j)
  {
    && (forall f <- filters :: ValidFilter(f) && CanonFilter(f) && f.limit <= maxFilterLimit)
    && (forall f <- filters :: exists j <- objs :: f == Compiled(j, maxFilterLimit))
  }

  /** Only filters that can never match are left out. */
  predicate AllKept(filters: seq<NostrFilter>, objs: seq<FilterJson>, maxFilterLimit: nat)
    requires forall j <- objs :: Accepted(j)
  {
    forall j <- objs :: Compiled(j, maxFilterLimit) in filters || Compiled(j, maxFilterLimit).neverMatch
  }

  lemma {:induction false} GroupKeepsAll(req: seq<FilterJson>, maxFilterLimit: nat)
    requires AllAccepted(req)
    ensures AllKept(GroupOf(req, maxFilterLimit), req, maxFilterLimit)
    decreases |req|
  {
    var n := |req| - 1;
    if n >= 0 {
      GroupKeepsAll(req[..n], maxFilterLimit);
      OneMoreKept(GroupOf(req[..n], maxFilterLimit), req[..n], req[n], req, maxFilterLimit);
    }
  }

  lemma OneMoreKept(
    filters: seq<NostrFilter>, objs: seq<FilterJson>, j: FilterJson, longer: seq<FilterJson>, maxFilterLimit: nat)
    requires AllAccepted(longer) && longer == objs + [j] && AllAccepted(objs) && AllKept(filters, objs, maxFilterLimit)
    ensures var f := Compiled(j, maxFilterLimit);
      AllKept(if f.neverMatch then filters else filters + [f], longer, maxFilterLimit)
  {
  }

  lemma ShapeGrows(filters: seq<NostrFilter>, objs: seq<FilterJson>, j: FilterJson, maxFilterLimit: nat)
    requires (forall o <- objs :: Accepted(o)) && GroupShape(filters, objs, maxFilterLimit) && Accepted(j) &&
      KeysDiffer(j.fields)
    ensures var f := Compiled(j, maxFilterLimit);
      GroupShape(if f.neverMatch then filters else filters + [f], objs + [j], maxFilterLimit)
  {
    var f := Compiled(j, maxFilterLimit);
    CompiledIsValid(j, maxFilterLimit);
    assert j in objs + [j];
    forall g <- filters ensures exists o <- objs + [j] :: g == Compiled(o, maxFilterLimit) {
      var o :| o in objs && g == Compiled(o, maxFilterLimit);
      assert o in objs + [j];
    }
  }

  /** Some kept filter matches exactly when some object does. */
  ghost predicate GroupMeans(filters: seq<NostrFilter>, objs: seq<FilterJson>)
    requires forall j <- objs :: Accepted(j)
  {
    forall e | WellFormed(e) :: MatchesAny(filters, e) <==> exists j <- objs :: JsonMatches(j, e)
  }

  lemma GroupGrows(filters: seq<NostrFilter>, objs: seq<FilterJson>, j: FilterJson, maxFilterLimit: nat)
    requires (forall o <- objs :: Accepted(o)) && GroupMeans(filters, objs) && Accepted(j) && KeysDiffer(j.fields)
    ensures var f := Compiled(j, maxFilterLimit);
      GroupMeans(if f.neverMatch then filters else filters + [f], objs + [j])
  {
    var f := Compiled(j, maxFilterLimit);
    var filters' := if f.neverMatch then filters else filters + [f];
    forall e | WellFormed(e) ensures MatchesAny(filters', e) <==> exists o <- objs + [j] :: JsonMatches(o, e) {
      CompiledMeans(j, maxFilterLimit, e);
      AddedFilter(filters, f, e);
      AddedObject(objs, j, e);
    }
  }

  lemma AddedFilter(filters: seq<NostrFilter>, f: NostrFilter, e: Event)
    ensures MatchesAny(if f.neverMatch then filters else filters + [f], e) <==> MatchesAny(filters, e) || Matches(f, e)
  {
    if !f.neverMatch {
      assert f in filters + [f];
      assert forall g <- filters :: g in filters + [f];
    }
  }

  lemma AddedObject(objs: seq<FilterJson>, j: FilterJson, e: Event)
    requires forall o <- objs + [j] :: Accepted(o)
    ensures (exists o <- objs + [j] :: JsonMatches(o, e)) <==>
      (exists o <- objs :: JsonMatches(o, e)) || JsonMatches(j, e)
  {
    assert j in objs + [j];
    assert forall o <- objs :: o in objs + [j];
  }

  // ----- limits -----

  predicate IsLimit(fd: Field) {
    KindOf(fd.key) == FLimit && fd.value.JUnsigned?
  }

  /** The limit is the one asked for, or the largest there is. */
  predicate LimitIs(fields: seq<Field>, limit: nat) {
    (forall fd <- fields | IsLimit(fd) :: limit == fd.value.n)
    && ((forall fd <- fields :: !IsLimit(fd)) ==> limit == MAX_U64)
  }

  lemma {:induction false} PutAllLimit(fields: seq<Field>)
    requires AllOk(fields) && KeysDiffer(fields)
    ensures LimitIs(fields, PutAll(fields).limit)
    decreases |fields|
  {
    var n := |fields| - 1;
    if n >= 0 {
      PutAllLimit(fields[..n]);
      PutLimit(PutAll(fields[..n]), fields[..n], fields[n], fields);
    }
  }

  lemma PutLimit(f: NostrFilter, before: seq<Field>, fd: Field, fields: seq<Field>)
    requires FieldOk(fd) && KeysDiffer(fields) && fields == before + [fd] && LimitIs(before, f.limit)
    ensures LimitIs(fields, Put(f, fd).limit)
  {
    assert Put(f, fd).limit == if IsLimit(fd) then fd.value.n else f.limit;
    if IsLimit(fd) {
      forall other <- before ensures !IsLimit(other) {
        var k :| 0 <= k < |before| && before[k] == other;
        assert fields[k].key != fields[|before|].key;
        if IsLimit(other) { KindsDistinct(other.key, fd.key); }
      }
    }
    assert fd in fields;
  }

  /** The limit of a filter is what the object asks for, cut by the configured maximum and by nothing else. */
  lemma CompiledLimit(j: FilterJson, maxFilterLimit: nat)
    requires Accepted(j) && KeysDiffer(j.fields)
    ensures forall fd <- j.fields | IsLimit(fd) :: Compiled(j, maxFilterLimit).limit == Min(fd.value.n, maxFilterLimit)
    ensures (forall fd <- j.fields :: !IsLimit(fd)) ==>
      Compiled(j, maxFilterLimit).limit == Min(MAX_U64, maxFilterLimit)
  {
    PutAllLimit(j.fields);
  }
}
