/**
 Packed filter sets (src/filters.h): the items of a set laid end to end in one
 buffer, each with a 16-bit offset, an 8-bit size and its first byte.
 */
module FilterSets {
  import opened Lex
  import opened Events

  const MAX_INDEXED_TAG_VAL_SIZE: nat := 255

  datatype Item = Item(offset: nat, size: nat, firstByte: nat)

  datatype FilterSetBytes = FilterSetBytes(items: seq<Item>, buf: Bytes)

  // ----- sorting and removing repeats -----

  predicate Sorted(s: seq<Bytes>) {
    forall i, j | 0 <= i < j < |s| :: Leq(s[i], s[j])
  }

  predicate StrictlySorted(s: seq<Bytes>) {
    forall i, j | 0 <= i < j < |s| :: Less(s[i], s[j])
  }

  function Insert(s: seq<Bytes>, x: Bytes): seq<Bytes> {
    if s == [] || Less(x, s[0]) then [x] + s else [s[0]] + Insert(s[1..], x)
  }

  function Sort(s: seq<Bytes>): seq<Bytes> {
    if s == [] then [] else Insert(Sort(s[1..]), s[0])
  }

  lemma {:induction false} InsertSorts(s: seq<Bytes>, x: Bytes)
    requires Sorted(s)
    ensures Sorted(Insert(s, x))
    ensures forall y :: y in Insert(s, x) <==> y == x || y in s
    decreases |s|
  {
    if s != [] {
      assert s == [s[0]] + s[1..];
      if Less(x, s[0]) {
        forall j | 0 <= j < |s| ensures Leq(x, s[j]) {
          if j > 0 && s[0] != s[j] { LessTransitive(x, s[0], s[j]); }
        }
      } else {
        var rest := Insert(s[1..], x);
        InsertSorts(s[1..], x);
        LessTotal(x, s[0]);
        forall j | 0 <= j < |rest| ensures Leq(s[0], rest[j]) {
          assert rest[j] in rest;
        }
      }
    }
  }

  lemma {:induction false} SortSorts(s: seq<Bytes>)
    ensures Sorted(Sort(s))
    ensures forall y :: y in Sort(s) <==> y in s
    decreases |s|
  {
    if s != [] {
      SortSorts(s[1..]);
      InsertSorts(Sort(s[1..]), s[0]);
      assert s == [s[0]] + s[1..];
    }
  }

  /** Drops each item equal to the one before it. */
  function Dedup(s: seq<Bytes>): seq<Bytes>
    decreases |s|
  {
    var n := |s| - 1;
    if n <= 0 then s
    else if s[n] == s[n - 1] then Dedup(s[..n])
    else Dedup(s[..n]) + [s[n]]
  }

  lemma {:induction false} DedupKeeps(s: seq<Bytes>)
    requires Sorted(s)
    ensures StrictlySorted(Dedup(s))
    ensures forall y :: y in Dedup(s) <==> y in s
    decreases |s|
  {
    var n := |s| - 1;
    if n > 0 {
      var init := s[..n];
      DedupKeeps(init);
      assert s == init + [s[n]];
      if s[n] != s[n - 1] {
        var d := Dedup(init);
        forall i | 0 <= i < |d| ensures Less(d[i], s[n]) {
          assert d[i] in init;
          var k :| 0 <= k < n && s[k] == d[i];
          assert Leq(s[k], s[n - 1]) && Less(s[n - 1], s[n]);
          if s[k] != s[n - 1] { LessTransitive(s[k], s[n - 1], s[n]); }
        }
      } else {
        assert s[n - 1] in init;
      }
    }
  }

  lemma DedupNext(s: seq<Bytes>, i: nat)
    requires i < |s|
    ensures Dedup(s[..i + 1]) == Dedup(s[..i]) + if i > 0 && s[i] == s[i - 1] then [] else [s[i]]
    ensures i > 0 && s[i] == s[i - 1] ==> Dedup(s[..i + 1]) == Dedup(s[..i])
  {
    assert s[..i + 1][..i] == s[..i];
  }

  // ----- the packed layout -----

  function Concat(s: seq<Bytes>): Bytes {
    if s == [] then [] else Concat(s[..|s| - 1]) + s[|s| - 1]
  }

  predicate Sizes(s: seq<Bytes>, minSize: nat, maxSize: nat) {
    forall b <- s :: minSize <= |b| <= maxSize
  }

  function FirstByte(b: Bytes): nat {
    if b == [] then 0 else b[0]
  }

  predicate InBuffer(fs: FilterSetBytes) {
    forall i | 0 <= i < |fs.items| :: fs.items[i].offset + fs.items[i].size <= |fs.buf|
  }

  function At(fs: FilterSetBytes, n: nat): Option<Bytes>
    requires InBuffer(fs)
  {
    if n >= |fs.items| then None
    else Some(fs.buf[fs.items[n].offset..fs.items[n].offset + fs.items[n].size])
  }

  /** What `at` enumerates. */
  function Contents(fs: FilterSetBytes): seq<Bytes>
    requires InBuffer(fs)
  {
    seq(|fs.items|, i requires 0 <= i < |fs.items| => At(fs, i).value)
  }

  /** The layout is that of `s`: offsets, sizes and first bytes are exact. */
  predicate Packs(fs: FilterSetBytes, s: seq<Bytes>) {
    && InBuffer(fs) && Contents(fs) == s
    && forall i | 0 <= i < |s| :: fs.items[i] == Item(|Concat(s[..i])|, |s[i]|, FirstByte(s[i]))
  }

  ghost predicate ValidSet(fs: FilterSetBytes) {
    InBuffer(fs) && StrictlySorted(Contents(fs)) && Packs(fs, Contents(fs))
  }

  lemma {:induction false} ConcatAt(s: seq<Bytes>, i: nat)
    requires i < |s|
    ensures |Concat(s[..i])| + |s[i]| <= |Concat(s)|
    ensures Concat(s)[|Concat(s[..i])|..|Concat(s[..i])| + |s[i]|] == s[i]
    decreases |s|
  {
    var n := |s| - 1;
    var front := Concat(s[..n]);
    assert Concat(s) == front + s[n];
    if i < n {
      ConcatAt(s[..n], i);
      assert s[..n][..i] == s[..i];
      InFront(front, s[n], |Concat(s[..i])|, |Concat(s[..i])| + |s[i]|);
    } else {
      AtEnd(front, s[n]);
    }
  }

  lemma InFront(a: Bytes, b: Bytes, lo: nat, hi: nat)
    requires lo <= hi <= |a|
    ensures (a + b)[lo..hi] == a[lo..hi]
  {
  }

  lemma AtEnd(a: Bytes, b: Bytes)
    ensures (a + b)[|a|..|a| + |b|] == b
  {
  }

  /** The truncated fields of an item as the packing loop writes it. */
  function PackItem(buf: Bytes, item: Bytes): Item {
    Item(|buf| % 0x1_0000, |item| % 0x100, FirstByte(item))
  }

  /** The offsets are right modulo 2^16, whatever the total. */
  predicate Packing(items: seq<Item>, buf: Bytes, s: seq<Bytes>) {
    && |items| == |s| && buf == Concat(s)
    && forall i | 0 <= i < |s| :: items[i] == PackItem(Concat(s[..i]), s[i])
  }

  lemma PackingGrows(items: seq<Item>, buf: Bytes, s: seq<Bytes>, item: Bytes)
    requires Packing(items, buf, s)
    ensures Packing(items + [PackItem(buf, item)], buf + item, s + [item])
  {
    assert (s + [item])[..|s|] == s;
    forall i | 0 <= i < |s| ensures (s + [item])[..i] == s[..i] {
    }
  }

  /** The check of the total comes after packing, but once it passes no field was truncated. */
  lemma PackingIsExact(items: seq<Item>, buf: Bytes, s: seq<Bytes>)
    requires Packing(items, buf, s) && |buf| <= 65535 && Sizes(s, 0, 255)
    ensures Packs(FilterSetBytes(items, buf), s)
  {
    forall i | 0 <= i < |s|
      ensures items[i] == Item(|Concat(s[..i])|, |s[i]|, FirstByte(s[i])) && Holds(buf, items[i], s[i])
    {
      ConcatAt(s, i);
      assert s[i] in s;
      NotTruncated(Concat(s[..i]), s[i], buf);
    }
    HoldsAll(items, buf, s);
  }

  lemma HoldsAll(items: seq<Item>, buf: Bytes, s: seq<Bytes>)
    requires |items| == |s| && forall i | 0 <= i < |s| :: Holds(buf, items[i], s[i])
    ensures InBuffer(FilterSetBytes(items, buf)) && Contents(FilterSetBytes(items, buf)) == s
  {
  }

  predicate Holds(buf: Bytes, item: Item, b: Bytes) {
    item.offset + item.size <= |buf| && buf[item.offset..item.offset + item.size] == b
  }

  lemma NotTruncated(prefix: Bytes, b: Bytes, buf: Bytes)
    requires |prefix| + |b| <= |buf| <= 65535 && |b| <= 255 && buf[|prefix|..|prefix| + |b|] == b
    ensures PackItem(prefix, b) == Item(|prefix|, |b|, FirstByte(b)) && Holds(buf, PackItem(prefix, b), b)
  {
  }

  method SizesOk(values: seq<Bytes>, minSize: nat, maxSize: nat) returns (ok: bool)
    ensures ok <==> Sizes(values, minSize, maxSize)
  {
    for i := 0 to |values|
      invariant forall k | 0 <= k < i :: minSize <= |values[k]| <= maxSize
    {
      if |values[i]| < minSize || |values[i]| > maxSize {
        assert values[i] in values;
        return false;
      }
    }
    return true;
  }

  /** The packing loop, over the sorted items. */
  method PackSorted(arr: seq<Bytes>) returns (items: seq<Item>, buf: Bytes)
    ensures Packing(items, buf, Dedup(arr))
  {
    items, buf := [], [];
    for i := 0 to |arr|
      invariant Packing(items, buf, Dedup(arr[..i]))
    {
      DedupNext(arr, i);
      if i > 0 && arr[i] == arr[i - 1] { continue; }
      PackingGrows(items, buf, Dedup(arr[..i]), arr[i]);
      items := items + [PackItem(buf, arr[i])];
      buf := buf + arr[i];
    }
    assert arr[..|arr|] == arr;
  }

  /** The constructor. `None` is an exception. */
  method Compile(values: seq<Bytes>, minSize: nat, maxSize: nat) returns (r: Option<FilterSetBytes>)
    ensures r.Some? <==>
      maxSize <= MAX_INDEXED_TAG_VAL_SIZE && Sizes(values, minSize, maxSize) && |Concat(Dedup(Sort(values)))| <= 65535
    ensures r.Some? ==> ValidSet(r.value) && forall y :: y in Contents(r.value) <==> y in values
    ensures r.Some? ==> Packs(r.value, Dedup(Sort(values)))
  {
    if maxSize > MAX_INDEXED_TAG_VAL_SIZE { return None; }
    var ok := SizesOk(values, minSize, maxSize);
    if !ok { return None; }
    var arr := Sort(values);
    SortSorts(values);
    var items, buf := PackSorted(arr);
    DedupKeeps(arr);
    if |buf| > 65535 { return None; }
    PackingIsExact(items, buf, Dedup(arr));
    return Some(FilterSetBytes(items, buf));
  }

  // ----- searching -----

  /** Comparing first bytes when both exist and differ is comparing the strings. */
  lemma Shortcut(candidate: Bytes, item: Bytes)
    requires candidate != [] && item != [] && candidate[0] != item[0]
    ensures Less(candidate, item) <==> candidate[0] < item[0]
  {
  }

  /** The comparison of the search: by first byte where that decides, else in full. */
  predicate ComesBefore(fs: FilterSetBytes, candidate: Bytes, i: nat)
    requires InBuffer(fs) && i < |fs.items|
  {
    if |candidate| > 0 && fs.items[i].size > 0 && candidate[0] != fs.items[i].firstByte
    then candidate[0] < fs.items[i].firstByte
    else Less(candidate, fs.buf[fs.items[i].offset..fs.items[i].offset + fs.items[i].size])
  }

  lemma ComparesRight(fs: FilterSetBytes, candidate: Bytes, i: nat)
    requires ValidSet(fs) && i < |fs.items|
    ensures ComesBefore(fs, candidate, i) <==> Less(candidate, Contents(fs)[i])
  {
    var text := Contents(fs)[i];
    assert fs.items[i].firstByte == FirstByte(text);
    if candidate != [] && text != [] && candidate[0] != text[0] { Shortcut(candidate, text); }
  }

  /** Everything before `lo` is at most c, everything from `hi` on is above it. */
  predicate Bracketed(s: seq<Bytes>, c: Bytes, lo: int, hi: int) {
    && 0 <= lo <= hi <= |s|
    && (forall i | 0 <= i < lo :: !Less(c, s[i]))
    && (forall i | hi <= i < |s| :: Less(c, s[i]))
  }

  /** Binary search for the upper bound, then one comparison. */
  method DoesMatch(fs: FilterSetBytes, candidate: Bytes) returns (found: bool)
    requires ValidSet(fs)
    ensures found <==> candidate in Contents(fs)
  {
    var first, count := 0, |fs.items|;
    while count > 0
      invariant Bracketed(Contents(fs), candidate, first, first + count)
      decreases count
    {
      var step := count / 2;
      var curr := first + step;
      Narrowed(fs, candidate, first, curr, first + count);
      if !ComesBefore(fs, candidate, curr) {
        first := curr + 1;
        count := count - (step + 1);
      } else {
        count := step;
      }
    }
    FoundAtBound(Contents(fs), candidate, first);
    if first == 0 { return false; }
    var item := fs.items[first - 1];
    return candidate == fs.buf[item.offset..item.offset + item.size];
  }

  /** One comparison leaves the part on the right side of it. */
  lemma Narrowed(fs: FilterSetBytes, c: Bytes, lo: nat, curr: nat, hi: nat)
    requires ValidSet(fs) && lo <= curr < hi && Bracketed(Contents(fs), c, lo, hi)
    ensures if ComesBefore(fs, c, curr) then Bracketed(Contents(fs), c, lo, curr)
      else Bracketed(Contents(fs), c, curr + 1, hi)
  {
    ComparesRight(fs, c, curr);
    if ComesBefore(fs, c, curr) { AllAbove(Contents(fs), c, curr); } else { NotBelow(Contents(fs), c, curr); }
  }

  lemma NotBelow(s: seq<Bytes>, c: Bytes, k: nat)
    requires StrictlySorted(s) && k < |s| && !Less(c, s[k])
    ensures forall i | 0 <= i <= k :: !Less(c, s[i])
  {
    forall i | 0 <= i < k ensures !Less(c, s[i]) {
      if Less(c, s[i]) { LessTransitive(c, s[i], s[k]); }
    }
  }

  lemma AllAbove(s: seq<Bytes>, c: Bytes, k: nat)
    requires StrictlySorted(s) && k < |s| && Less(c, s[k])
    ensures forall i | k <= i < |s| :: Less(c, s[i])
  {
    forall i | k < i < |s| ensures Less(c, s[i]) { LessTransitive(c, s[k], s[i]); }
  }

  /** A member is the last item not above the candidate. */
  lemma FoundAtBound(s: seq<Bytes>, c: Bytes, first: nat)
    requires StrictlySorted(s) && Bracketed(s, c, first, first)
    ensures c in s <==> first > 0 && s[first - 1] == c
  {
    if c in s {
      var k :| 0 <= k < |s| && s[k] == c;
      LessIrreflexive(c);
    }
  }

  // ----- numbers -----

  predicate StrictlyIncreasing(s: seq<nat>) {
    forall i, j | 0 <= i < j < |s| :: s[i] < s[j]
  }

  function InsertNew(s: seq<nat>, x: nat): seq<nat> {
    if s == [] || x < s[0] then [x] + s
    else if x == s[0] then s
    else [s[0]] + InsertNew(s[1..], x)
  }

  /** `FilterSetUint`: sorted, repeats removed. */
  function CompileUint(values: seq<nat>): seq<nat> {
    if values == [] then [] else InsertNew(CompileUint(values[1..]), values[0])
  }

  lemma {:induction false} InsertNewKeeps(s: seq<nat>, x: nat)
    requires StrictlyIncreasing(s)
    ensures StrictlyIncreasing(InsertNew(s, x))
    ensures forall y :: y in InsertNew(s, x) <==> y == x || y in s
    decreases |s|
  {
    if s == [] || x < s[0] {
      InFrontOfAll(x, s);
    } else if x > s[0] {
      InsertNewKeeps(s[1..], x);
      assert s == [s[0]] + s[1..];
      InFrontOfAll(s[0], InsertNew(s[1..], x));
    }
  }

  lemma InFrontOfAll(x: nat, s: seq<nat>)
    requires StrictlyIncreasing(s) && (s == [] || x < s[0] || forall y <- s :: x < y)
    ensures StrictlyIncreasing([x] + s)
  {
    if s != [] { assert s[0] in s; }
  }

  lemma {:induction false} UintSetExact(values: seq<nat>)
    ensures StrictlyIncreasing(CompileUint(values))
    ensures forall y :: y in CompileUint(values) <==> y in values
    decreases |values|
  {
    if values != [] {
      UintSetExact(values[1..]);
      InsertNewKeeps(CompileUint(values[1..]), values[0]);
      assert values == [values[0]] + values[1..];
    }
  }
}
