/**
 From event JSON to packed event (`nostrJsonToPackedEvent` in src/events.cpp).
 */
module EventPacking {
  import opened Lex
  import opened Events
  import opened JsonValues
  import opened Hex
  import opened PackedEvents
  import opened Writes

  datatype EventJson = EventJson(id: Json, pubkey: Json, created: Json, kind: Json, content: Json, tags: Json)

  datatype Limits = Limits(maxNumTags: nat, maxTagValSize: nat)

  const EXPIRATION: Bytes := [101, 120, 112, 105, 114, 97, 116, 105, 111, 110]   // "expiration"

  /** `parseUint64`: decimal digits only, at least one, within 64 bits. */
  function ParseUint64(s: Bytes): Option<nat> {
    if s == [] || (exists c <- s :: !(48 <= c <= 57)) || Decimal(s) > MAX_U64 then None else Some(Decimal(s))
  }

  function Decimal(s: Bytes): nat {
    if s == [] then 0
    else 10 * Decimal(s[..|s| - 1]) + if s[|s| - 1] >= 48 then s[|s| - 1] - 48 else 0
  }

  /** The tags packed so far and the expiration found so far. */
  datatype Packing = Packing(tags: seq<Tag>, expiration: nat)

  predicate TagIsStrings(t: Json) {
    t.JArray? && |t.items| >= 1 && t.items[0].JString? && (|t.items| >= 2 ==> t.items[1].JString?)
  }

  function TagVal(t: Json): Bytes
    requires TagIsStrings(t)
  {
    if |t.items| >= 2 then t.items[1].text else []
  }

  /** One turn of the tag loop; `None` is an exception. */
  function AddTag(p: Packing, t: Json, maxTagValSize: nat): Option<Packing> {
    if !TagIsStrings(t) then None else
      var name, val := t.items[0].text, TagVal(t);
      if name == [TAG_E] || name == [TAG_P] then
        if |val| != 64 || FromHex(val).None? then None
        else Some(p.(tags := p.tags + [Tag(name[0], FromHex(val).value)]))
      else if name == EXPIRATION then
        if p.expiration != 0 then Some(p)
        else if ParseUint64(val).None? || ParseUint64(val).value < 100 then None
        else Some(p.(expiration := ParseUint64(val).value))
      else if |name| == 1 then
        if |val| > maxTagValSize then None
        else if |val| <= 255 then Some(p.(tags := p.tags + [Tag(name[0], val)]))
        else Some(p)
      else Some(p)
  }

  function AddTags(p: Packing, tags: seq<Json>, maxTagValSize: nat): Option<Packing>
    decreases |tags|
  {
    if tags == [] then Some(p)
    else
      var p' := AddTag(p, tags[0], maxTagValSize);
      if p'.None? then None else AddTags(p'.value, tags[1..], maxTagValSize)
  }

  const VirtualD := Tag(TAG_D, [])

  function StartPacking(kind: nat): Packing {
    Packing(if IsReplaceableKind(kind) then [VirtualD] else [], 0)
  }

  function FinishTags(kind: nat, tags: seq<Tag>): seq<Tag> {
    if IsParamReplaceableKind(kind) then tags + [VirtualD] else tags
  }

  predicate FieldsParse(v: EventJson) {
    && v.id.JString? && v.pubkey.JString? && v.created.JUnsigned? && v.kind.JUnsigned? && v.content.JString? &&
      v.tags.JArray?
    && FromHex(v.id.text).Some? && |FromHex(v.id.text).value| == 32
    && FromHex(v.pubkey.text).Some? && |FromHex(v.pubkey.text).value| == 32
  }

  /** The event that the JSON stands for, or nothing where packing raises an exception. */
  function EventOf(v: EventJson, lim: Limits): Option<Event> {
    if !FieldsParse(v) || |v.tags.items| > lim.maxNumTags then None else
      var p := AddTags(StartPacking(v.kind.n), v.tags.items, lim.maxTagValSize);
      if p.None? then None else
        Some(Event(
          FromHex(v.id.text).value, FromHex(v.pubkey.text).value, v.created.n, v.kind.n,
          if IsEphemeralKind(v.kind.n) then 1 else p.value.expiration,
          FinishTags(v.kind.n, p.value.tags)))
  }

  lemma {:induction false} PackTagsSnoc(tags: seq<Tag>, t: Tag)
    ensures PackTags(tags + [t]) == PackTags(tags) + PackTag(t)
    decreases |tags|
  {
    if tags != [] {
      PackTagsSnoc(tags[1..], t);
      assert (tags + [t])[1..] == tags[1..] + [t];
    } else {
      assert [t][1..] == [];
    }
  }

  /** One turn of the loop on the builder; `p` is what the builder holds, as a value. */
  method AddJsonTag(builder: PackedEventTagBuilder, ghost p: Packing, expiration: nat, t: Json, maxTagValSize: nat)
    returns (ok: bool, expiration': nat)
    requires builder.buf == PackTags(p.tags) && expiration == p.expiration
    modifies builder
    ensures ok <==> AddTag(p, t, maxTagValSize).Some?
    ensures ok ==> builder.buf == PackTags(AddTag(p, t, maxTagValSize).value.tags)
    ensures ok ==> expiration' == AddTag(p, t, maxTagValSize).value.expiration
  {
    expiration' := expiration;
    if !TagIsStrings(t) { return false, 0; }
    var name, val := t.items[0].text, TagVal(t);
    if name == [TAG_E] || name == [TAG_P] {
      if |val| != 64 { return false, 0; }
      var raw := FromHex(val);
      if raw.None? { return false, 0; }
      FromHexIsBytes(val);
      PackTagsSnoc(p.tags, Tag(name[0], raw.value));
      ok := builder.Add(name[0], raw.value);
    } else if name == EXPIRATION {
      if expiration == 0 {
        var n := ParseUint64(val);
        if n.None? || n.value < 100 { return false, 0; }
        expiration' := n.value;
      }
      ok := true;
    } else if |name| == 1 {
      if |val| > maxTagValSize { return false, 0; }
      ok := true;
      if |val| <= 255 {
        PackTagsSnoc(p.tags, Tag(name[0], val));
        ok := builder.Add(name[0], val);
      }
    } else {
      ok := true;
    }
  }

  /** `nostrJsonToPackedEvent`; `None` is an exception. */
  method PackJson(v: EventJson, lim: Limits) returns (r: Option<Bytes>)
    ensures r.Some? <==> EventOf(v, lim).Some?
    ensures r.Some? ==> r.value == Pack(EventOf(v, lim).value)
  {
    if !FieldsParse(v) || |v.tags.items| > lim.maxNumTags { return None; }
    var kind, tags, maxVal := v.kind.n, v.tags.items, lim.maxTagValSize;
    ghost var p := StartPacking(kind);
    var builder := new PackedEventTagBuilder();
    var expiration, ok := 0, true;
    if IsReplaceableKind(kind) {
      PackTagsSnoc([], VirtualD);
      ok := builder.Add(TAG_D, []);
    }
    for i := 0 to |tags|
      invariant builder.buf == PackTags(p.tags) && expiration == p.expiration
      invariant AddTags(StartPacking(kind), tags, maxVal) == AddTags(p, tags[i..], maxVal)
    {
      assert tags[i..][0] == tags[i] && tags[i..][1..] == tags[i + 1..];
      ok, expiration := AddJsonTag(builder, p, expiration, tags[i], maxVal);
      if !ok { return None; }
      p := AddTag(p, tags[i], maxVal).value;
    }
    if IsParamReplaceableKind(kind) {
      PackTagsSnoc(p.tags, VirtualD);
      ok := builder.Add(TAG_D, []);
    }
    if IsEphemeralKind(kind) {
      expiration := 1;
    }
    r := BuildEvent(FromHex(v.id.text).value, FromHex(v.pubkey.text).value, v.created.n, kind, expiration, builder.buf);
  }

  // ----- what every packed event satisfies -----

  /** A 32-byte value for e and p tags, at most 255 bytes for the others. */
  predicate TagFits(t: Tag) {
    |t.val| <= 255 && (t.name == TAG_E || t.name == TAG_P ==> |t.val| == 32)
  }

  predicate PackingFits(p: Packing) {
    (forall t <- p.tags :: TagFits(t)) && (p.expiration == 0 || 100 <= p.expiration <= MAX_U64)
  }

  lemma AddTagFits(p: Packing, t: Json, maxTagValSize: nat)
    requires PackingFits(p) && AddTag(p, t, maxTagValSize).Some?
    ensures PackingFits(AddTag(p, t, maxTagValSize).value)
    ensures p.tags <= AddTag(p, t, maxTagValSize).value.tags
  {
    FromHexIsBytes(TagVal(t));
  }

  lemma {:induction false} AddTagsFit(p: Packing, tags: seq<Json>, maxTagValSize: nat)
    requires PackingFits(p) && AddTags(p, tags, maxTagValSize).Some?
    ensures PackingFits(AddTags(p, tags, maxTagValSize).value)
    ensures p.tags <= AddTags(p, tags, maxTagValSize).value.tags
    decreases |tags|
  {
    if tags != [] {
      AddTagFits(p, tags[0], maxTagValSize);
      AddTagsFit(AddTag(p, tags[0], maxTagValSize).value, tags[1..], maxTagValSize);
    }
  }

  lemma {:induction false} FirstDAppend(a: seq<Tag>, b: seq<Tag>)
    ensures FirstD(a + b) == if FirstD(a).Some? then FirstD(a) else FirstD(b)
    decreases |a|
  {
    if a != [] {
      assert (a + b)[1..] == a[1..] + b;
      FirstDAppend(a[1..], b);
    } else {
      assert a + b == b;
    }
  }

  predicate JsonInRange(v: EventJson) {
    (v.created.JUnsigned? ==> v.created.n <= MAX_U64) && (v.kind.JUnsigned? ==> v.kind.n <= MAX_U64)
  }

  /** Whatever JSON is accepted, reading the packed bytes gives back the event it stands for. */
  lemma PackedJsonReadsBack(v: EventJson, lim: Limits)
    requires JsonInRange(v) && EventOf(v, lim).Some?
    ensures View(Pack(EventOf(v, lim).value)) == EventOf(v, lim)
  {
    var p := AddTags(StartPacking(v.kind.n), v.tags.items, lim.maxTagValSize);
    AddTagsFit(StartPacking(v.kind.n), v.tags.items, lim.maxTagValSize);
    PackRoundTrip(EventOf(v, lim).value);
  }

  /** Every replaceable event has an address, and for plain replaceable kinds its d-tag counts as empty. */
  lemma ReplaceableHasAddress(v: EventJson, lim: Limits)
    requires EventOf(v, lim).Some?
    ensures var e := EventOf(v, lim).value;
      (IsReplaceableKind(e.kind) || IsParamReplaceableKind(e.kind)) <==> Address(e).Some?
    ensures var e := EventOf(v, lim).value;
      IsReplaceableKind(e.kind) ==> Address(e) == Some(Addr(e.pubkey, [], e.kind))
  {
    var kind := v.kind.n;
    var p := AddTags(StartPacking(kind), v.tags.items, lim.maxTagValSize);
    AddTagsFit(StartPacking(kind), v.tags.items, lim.maxTagValSize);
    if IsReplaceableKind(kind) {
      assert FinishTags(kind, p.value.tags)[0] == VirtualD;
    } else if IsParamReplaceableKind(kind) {
      FirstDAppend(p.value.tags, [VirtualD]);
    }
  }

  /** Expiration 1 marks the ephemeral events and no others. */
  lemma ExpirationMarksEphemeral(v: EventJson, lim: Limits)
    requires EventOf(v, lim).Some?
    ensures var e := EventOf(v, lim).value;
      e.expiration == 1 <==> IsEphemeralKind(e.kind)
    ensures var e := EventOf(v, lim).value;
      e.expiration <= 1 || e.expiration >= 100
  {
    AddTagsFit(StartPacking(v.kind.n), v.tags.items, lim.maxTagValSize);
  }
}
