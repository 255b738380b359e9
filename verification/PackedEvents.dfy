/**
 The packed event (src/PackedEvent.h): 88 bytes of fixed fields, then the indexable
 tags, each as a name byte, a length byte and the value.
 */
module PackedEvents {
  import opened Lex
  import opened Events

  // ----- 64-bit little-endian integers -----

  function LittleEndian(n: nat, size: nat): Bytes {
    if size == 0 then [] else [n % 256] + LittleEndian(n / 256, size - 1)
  }

  function FromLittleEndian(b: Bytes): nat {
    if b == [] then 0 else b[0] + 256 * FromLittleEndian(b[1..])
  }

  function Pow256(k: nat): nat {
    if k == 0 then 1 else 256 * Pow256(k - 1)
  }

  lemma {:induction false} LittleEndianRoundTrip(n: nat, size: nat)
    requires n < Pow256(size)
    ensures |LittleEndian(n, size)| == size && FromLittleEndian(LittleEndian(n, size)) == n
    decreases size
  {
    if size > 0 {
      LittleEndianRoundTrip(n / 256, size - 1);
      assert LittleEndian(n, size)[1..] == LittleEndian(n / 256, size - 1);
    }
  }

  function ToU64(n: nat): Bytes {
    LittleEndian(n, 8)
  }

  lemma U64RoundTrip(n: nat)
    requires n <= MAX_U64
    ensures |ToU64(n)| == 8 && FromLittleEndian(ToU64(n)) == n
  {
    assert Pow256(2) == 65536;
    assert Pow256(4) == 65536 * 65536;
    assert Pow256(6) == 65536 * 65536 * 65536;
    assert Pow256(8) == 65536 * 65536 * 65536 * 65536;
    LittleEndianRoundTrip(n, 8);
  }

  // ----- tags -----

  predicate Packable(tags: seq<Tag>) {
    forall t <- tags :: |t.val| <= 255
  }

  function PackTag(t: Tag): Bytes {
    [t.name, |t.val|] + t.val
  }

  function PackTags(tags: seq<Tag>): Bytes {
    if tags == [] then [] else PackTag(tags[0]) + PackTags(tags[1..])
  }

  class PackedEventTagBuilder {
    var buf: Bytes

    constructor ()
      ensures buf == []
    {
      buf := [];
    }

    /** False is the exception "tagVal too long". */
    method Add(tagKey: nat, tagVal: Bytes) returns (ok: bool)
      modifies this
      ensures ok <==> |tagVal| <= 255
      ensures buf == old(buf) + if ok then PackTag(Tag(tagKey, tagVal)) else []
    {
      if |tagVal| > 255 { return false; }
      buf := buf + [tagKey];
      buf := buf + [|tagVal|];
      buf := buf + tagVal;
      return true;
    }
  }

  /** Reads back the tags; nothing where `foreachTag` would run off the buffer. */
  function ReadTags(b: Bytes): Option<seq<Tag>>
    decreases |b|
  {
    if b == [] then Some([])
    else if |b| < 2 || |b| < 2 + b[1] then None
    else
      var rest := ReadTags(b[2 + b[1]..]);
      if rest.None? then None else Some([Tag(b[0], b[2..2 + b[1]])] + rest.value)
  }

  lemma ReadFront(t: Tag, rest: Bytes, tags: seq<Tag>)
    requires |t.val| <= 255 && ReadTags(rest) == Some(tags)
    ensures ReadTags(PackTag(t) + rest) == Some([t] + tags)
  {
    var b := PackTag(t) + rest;
    assert b[2..2 + b[1]] == t.val && b[2 + b[1]..] == rest;
  }

  lemma {:induction false} TagsRoundTrip(tags: seq<Tag>)
    requires Packable(tags)
    ensures ReadTags(PackTags(tags)) == Some(tags)
    decreases |tags|
  {
    if tags != [] {
      TagsRoundTrip(tags[1..]);
      ReadFront(tags[0], PackTags(tags[1..]), tags[1..]);
      assert tags == [tags[0]] + tags[1..];
    }
  }

  /** No two tag lists are packed alike. */
  lemma {:induction false} ReadThenPack(b: Bytes)
    requires ReadTags(b).Some?
    ensures PackTags(ReadTags(b).value) == b
    decreases |b|
  {
    if b != [] {
      var t, rest := Tag(b[0], b[2..2 + b[1]]), b[2 + b[1]..];
      ReadThenPack(rest);
      assert ReadTags(b).value[1..] == ReadTags(rest).value;
      assert b == PackTag(t) + rest;
    }
  }

  /** The tags up to and including the first the callback refuses. */
  function Visited(tags: seq<Tag>, cb: Tag -> bool): seq<Tag> {
    if tags == [] then [] else if !cb(tags[0]) then [tags[0]] else [tags[0]] + Visited(tags[1..], cb)
  }

  /** The tag at the front, its value cut short where the buffer ends. */
  function FrontTag(b: Bytes): Tag
    requires |b| >= 2
  {
    Tag(b[0], if 2 + b[1] <= |b| then b[2..2 + b[1]] else b[2..])
  }

  /**
   What `foreachTag` hands to the callback, on any bytes: a value cut short by the end of the
   buffer is still handed over, and the step past the end is an exception (false).
   */
  function Walk(b: Bytes, cb: Tag -> bool): (seq<Tag>, bool)
    decreases |b|
  {
    if b == [] then ([], true)
    else if |b| == 1 then ([], false)
    else
      var end, tag := 2 + b[1], FrontTag(b);
      if !cb(tag) then ([tag], true)
      else if end > |b| then ([tag], false)
      else var (rest, ok) := Walk(b[end..], cb); ([tag] + rest, ok)
  }

  /** The walk from some point on: what it visits, after what was visited before, and how it ends. */
  function WalkFrom(visited: seq<Tag>, b: Bytes, cb: Tag -> bool): (seq<Tag>, bool) {
    (visited + Walk(b, cb).0, Walk(b, cb).1)
  }

  lemma WalkEnds(visited: seq<Tag>, b: Bytes, cb: Tag -> bool)
    requires |b| < 2
    ensures WalkFrom(visited, b, cb) == (visited, b == [])
  {
    assert visited + [] == visited;
  }

  /** One turn of the walk. */
  lemma WalkTurn(visited: seq<Tag>, b: Bytes, cb: Tag -> bool, tag: Tag)
    requires |b| >= 2 && tag == FrontTag(b)
    ensures !cb(tag) ==> WalkFrom(visited, b, cb) == (visited + [tag], true)
    ensures cb(tag) && 2 + b[1] > |b| ==> WalkFrom(visited, b, cb) == (visited + [tag], false)
    ensures cb(tag) && 2 + b[1] <= |b| ==> WalkFrom(visited, b, cb) == WalkFrom(visited + [tag], b[2 + b[1]..], cb)
  {
    if cb(tag) && 2 + b[1] <= |b| {
      var rest := Walk(b[2 + b[1]..], cb).0;
      assert visited + ([tag] + rest) == visited + [tag] + rest;
    }
  }

  method ForeachTag(buf: Bytes, cb: Tag -> bool) returns (visited: seq<Tag>, ok: bool)
    requires |buf| >= 88
    ensures (visited, ok) == Walk(buf[88..], cb)
  {
    var b := buf[88..];
    visited := [];
    ghost var all := Walk(b, cb);
    assert [] + all.0 == all.0;
    while |b| > 0
      invariant WalkFrom(visited, b, cb) == all
      decreases |b|
    {
      if |b| == 1 {
        WalkEnds(visited, b, cb);
        return visited, false;
      }
      var tagName, tagLen := b[0], b[1];
      var tag := Tag(tagName, if 2 + tagLen <= |b| then b[2..2 + tagLen] else b[2..]);
      WalkTurn(visited, b, cb, tag);
      visited := visited + [tag];
      if !cb(tag) { return visited, true; }
      if 2 + tagLen > |b| { return visited, false; }
      b := b[2 + tagLen..];
    }
    WalkEnds(visited, b, cb);
    return visited, true;
  }

  /** On a buffer that holds tags, exactly those are visited, in order, until the callback stops. */
  lemma {:induction false} WalkVisits(b: Bytes, cb: Tag -> bool)
    requires ReadTags(b).Some?
    ensures Walk(b, cb) == (Visited(ReadTags(b).value, cb), true)
    decreases |b|
  {
    if b != [] {
      WalkVisits(b[2 + b[1]..], cb);
      assert ReadTags(b).value[1..] == ReadTags(b[2 + b[1]..]).value;
    }
  }

  /** A callback that never stops gets through exactly the buffers that hold tags. */
  lemma {:induction false} WalkFails(b: Bytes, cb: Tag -> bool)
    requires forall t :: cb(t)
    ensures Walk(b, cb).1 <==> ReadTags(b).Some?
    decreases |b|
  {
    if |b| >= 2 && 2 + b[1] <= |b| {
      WalkFails(b[2 + b[1]..], cb);
    }
  }

  lemma {:induction false} VisitsAll(tags: seq<Tag>, cb: Tag -> bool)
    requires forall t <- tags :: cb(t)
    ensures Visited(tags, cb) == tags
    decreases |tags|
  {
    if tags != [] { VisitsAll(tags[1..], cb); }
  }

  // ----- events -----

  function PackHeader(e: Event): Bytes {
    e.id + e.pubkey + ToU64(e.created) + ToU64(e.kind) + ToU64(e.expiration)
  }

  function Pack(e: Event): Bytes {
    PackHeader(e) + PackTags(e.tags)
  }

  predicate FieldsFit(e: Event) {
    && |e.id| == 32 && |e.pubkey| == 32
    && e.created <= MAX_U64 && e.kind <= MAX_U64 && e.expiration <= MAX_U64
  }

  /** `PackedEventBuilder`; `None` is an exception. */
  method BuildEvent(id: Bytes, pubkey: Bytes, created: nat, kind: nat, expiration: nat, tagBuf: Bytes)
    returns (r: Option<Bytes>)
    ensures r.Some? <==> |id| == 32 && |pubkey| == 32
    ensures r.Some? ==> r.value == PackHeader(Event(id, pubkey, created, kind, expiration, [])) + tagBuf
  {
    if |id| != 32 { return None; }
    if |pubkey| != 32 { return None; }
    var buf: Bytes := [];
    buf := buf + id;
    buf := buf + pubkey;
    buf := buf + ToU64(created);
    buf := buf + ToU64(kind);
    buf := buf + ToU64(expiration);
    buf := buf + tagBuf;
    return Some(buf);
  }

  /** The accessors of `PackedEventView`, together. */
  function View(buf: Bytes): Option<Event> {
    if |buf| < 88 || ReadTags(buf[88..]).None? then None
    else Some(Event(
      buf[0..32], buf[32..64], FromLittleEndian(buf[64..72]), FromLittleEndian(buf[72..80]),
      FromLittleEndian(buf[80..88]), ReadTags(buf[88..]).value))
  }

  lemma HeaderParts(e: Event, rest: Bytes)
    requires FieldsFit(e)
    ensures var b := PackHeader(e) + rest;
      && |b| == 88 + |rest| && b[0..32] == e.id && b[32..64] == e.pubkey && b[64..72] == ToU64(e.created)
      && b[72..80] == ToU64(e.kind) && b[80..88] == ToU64(e.expiration) && b[88..] == rest
  {
    U64RoundTrip(e.created);
    U64RoundTrip(e.kind);
    U64RoundTrip(e.expiration);
  }

  /** Packing and reading back returns every field and every tag unchanged. */
  lemma PackRoundTrip(e: Event)
    requires FieldsFit(e) && Packable(e.tags)
    ensures View(Pack(e)) == Some(e)
  {
    HeaderParts(e, PackTags(e.tags));
    TagsRoundTrip(e.tags);
    U64RoundTrip(e.created);
    U64RoundTrip(e.kind);
    U64RoundTrip(e.expiration);
  }
}
