/**
 Fried lines: `export --fried` appends the packed event, in hex, as the last field of
 the JSON line (src/apps/dbutils/cmd_export.cpp); `import --fried` takes it off again
 without parsing JSON (src/apps/dbutils/cmd_import.cpp).
 */
module Fried {
  import opened Lex
  import opened Events
  import opened Hex

  const QUOTE: nat := 34
  const CLOSE: nat := 125
  const NEWLINE: nat := 10
  const MARK: Bytes := [44, 34, 102, 114, 105, 101, 100, 34, 58, 34]   // ,"fried":"

  /** The line after its last byte is dropped: the mark, the hex, a quote and a brace. */
  function FriedLine(json: Bytes, packed: Bytes): Bytes
    requires json != [] && IsBytes(packed)
  {
    json[..|json| - 1] + MARK + ToHex(packed) + [QUOTE, CLOSE]
  }

  /** The writer's buffer for one event; an empty JSON text would make `resize` fail (`None`). */
  method ExportFried(json: Bytes, packed: Bytes) returns (o: Option<Bytes>)
    requires IsBytes(packed)
    ensures o.Some? <==> json != []
    ensures o.Some? ==> o.value == FriedLine(json, packed) + [NEWLINE]
  {
    var buf := json;
    if |buf| == 0 { return None; }
    buf := buf[..|buf| - 1];
    buf := buf + MARK;
    buf := buf + ToHex(packed);
    buf := buf + [QUOTE, CLOSE, NEWLINE];
    return Some(buf);
  }

  predicate EndsWith(s: Bytes, suffix: Bytes) {
    |suffix| <= |s| && s[|s| - |suffix|..] == suffix
  }

  /** The last quote before the closing two bytes, or 0. */
  function QuoteBefore(line: Bytes, i: nat): (q: nat)
    requires i < |line|
    ensures q <= i && (q == 0 || line[q] == QUOTE) && forall k | q < k <= i :: line[k] != QUOTE
  {
    if i == 0 || line[i] == QUOTE then i else QuoteBefore(line, i - 1)
  }

  /** What a line holds, or nothing where parsing raises an exception. */
  function Parsed(line: Bytes): Option<(Bytes, Bytes)> {
    if |line| < 64 || !EndsWith(line, [QUOTE, CLOSE]) then None else
      var i := QuoteBefore(line, |line| - 3);
      if !EndsWith(line[..i + 1], MARK) then None else
        var packed := FromHex(line[i + 1..|line| - 2]);
        if packed.None? then None else Some((packed.value, line[..i - 9] + [CLOSE]))
  }

  method ParseFried(line: Bytes) returns (r: Option<(Bytes, Bytes)>)
    ensures r == Parsed(line)
  {
    if |line| < 64 { return None; }
    if !EndsWith(line, [QUOTE, CLOSE]) { return None; }
    var i := |line| - 3;
    while i > 0 && line[i] != QUOTE
      invariant 0 <= i <= |line| - 3
      invariant QuoteBefore(line, i) == QuoteBefore(line, |line| - 3)
    {
      i := i - 1;
    }
    if !EndsWith(line[..i + 1], MARK) { return None; }
    var packed := FromHex(line[i + 1..|line| - 2]);
    if packed.None? { return None; }
    var rest := line;
    rest := rest[i - 9 := CLOSE];
    rest := rest[..i - 8];
    assert rest == line[..i - 9] + [CLOSE];
    return Some((packed.value, rest));
  }

  lemma FindsQuote(line: Bytes, i: nat, q: nat)
    requires 0 < q <= i < |line| && line[q] == QUOTE && forall k | q < k <= i :: line[k] != QUOTE
    ensures QuoteBefore(line, i) == q
  {
    assert !(QuoteBefore(line, i) < q <= i);
  }

  /**
   Parsing an exported line of at least 64 bytes returns the packed event and the JSON text, on
   every text that ends with a brace; the last byte of any other text comes back as a brace.
   */
  lemma FriedRoundTrip(json: Bytes, packed: Bytes)
    requires json != [] && IsBytes(packed)
    ensures Parsed(FriedLine(json, packed))
      == if |json| + 2 * |packed| < 53 then None else Some((packed, json[..|json| - 1] + [CLOSE]))
    ensures Parsed(FriedLine(json, packed)) == Some((packed, json)) <==>
      |json| + 2 * |packed| >= 53 && json[|json| - 1] == CLOSE
  {
    var hex, line, n := ToHex(packed), FriedLine(json, packed), |json| - 1;
    HexRoundTrip(packed);
    assert |line| == n + 10 + |hex| + 2;
    assert json == json[..n] + [json[n]];
    if |line| >= 64 {
      LineParts(json, packed);
    }
  }

  lemma LineParts(json: Bytes, packed: Bytes)
    requires json != [] && IsBytes(packed) && |FriedLine(json, packed)| >= 64
    ensures Parsed(FriedLine(json, packed)) == Some((packed, json[..|json| - 1] + [CLOSE]))
  {
    var front, hex := json[..|json| - 1], ToHex(packed);
    HexRoundTrip(packed);
    PartsParse(front, hex, front + MARK + hex + [QUOTE, CLOSE], packed);
  }

  lemma PartsParse(front: Bytes, hex: Bytes, line: Bytes, packed: Bytes)
    requires line == front + MARK + hex + [QUOTE, CLOSE] && |line| >= 64
    requires (forall c <- hex :: DigitValue(c).Some?) && FromHex(hex) == Some(packed)
    ensures Parsed(line) == Some((packed, front + [CLOSE]))
  {
    LastQuote(front, hex, line);
    Slices(front, hex, line);
  }

  /** Hex has no quote, so the last quote before the end is that of the mark. */
  lemma LastQuote(front: Bytes, hex: Bytes, line: Bytes)
    requires line == front + MARK + hex + [QUOTE, CLOSE] && forall c <- hex :: DigitValue(c).Some?
    ensures |line| >= 3 && QuoteBefore(line, |line| - 3) == |front| + 9
  {
    var q := |front| + 9;
    assert line[q] == MARK[9];
    forall k | q < k <= |line| - 3 ensures line[k] != QUOTE {
      assert line[k] == hex[k - q - 1];
      assert hex[k - q - 1] in hex;
    }
    FindsQuote(line, |line| - 3, q);
  }

  lemma Slices(front: Bytes, hex: Bytes, line: Bytes)
    requires line == front + MARK + hex + [QUOTE, CLOSE]
    ensures var q, n := |front| + 9, |line|;
      && line[..q + 1] == front + MARK && line[q + 1..n - 2] == hex && line[..q - 9] == front
      && EndsWith(line, [QUOTE, CLOSE]) && EndsWith(line[..q + 1], MARK)
  {
  }

  /** Every line that parses is one that export could have written. */
  lemma ParsedIsFried(line: Bytes)
    requires Parsed(line).Some?
    ensures var (packed, json) := Parsed(line).value;
      IsBytes(packed) && EndsWith(json, [CLOSE]) && |line| == |json| + 11 + 2 * |packed|
    ensures var (packed, json) := Parsed(line).value;
      line[..|json| + 9] == json[..|json| - 1] + MARK && FromHex(line[|json| + 9..|line| - 2]) == Some(packed)
  {
    var i := QuoteBefore(line, |line| - 3);
    FromHexIsBytes(line[i + 1..|line| - 2]);
    assert line[..i + 1] == line[..i - 9] + MARK;
  }

  const EMPTY_END: Bytes := MARK + [QUOTE, CLOSE]   // ,"fried":""}

  lemma EndsEmpty(line: Bytes)
    requires |line| >= 64 && EndsWith(line, EMPTY_END)
    ensures Parsed(line) == Some(([], line[..|line| - 12] + [CLOSE]))
  {
    var n := |line|;
    assert line[n - 12..] == EMPTY_END;
    assert line[n - 2..] == line[n - 12..][10..] == [QUOTE, CLOSE];
    assert line[n - 3] == line[n - 12..][9] == QUOTE;
    assert line[..n - 2][n - 12..] == line[n - 12..][..10] == MARK;
    assert line[n - 2..n - 2] == [];
  }

  /**
   A line parses to an empty packed string, which the writer takes for the end of its input,
   if and only if it is long enough and its last field is an empty fried one.
   */
  lemma ParsesToEmptyIff(line: Bytes)
    ensures Parsed(line).Some? && Parsed(line).value.0 == [] <==> |line| >= 64 && EndsWith(line, EMPTY_END)
  {
    if |line| >= 64 && EndsWith(line, EMPTY_END) {
      EndsEmpty(line);
    }
    if Parsed(line).Some? && Parsed(line).value.0 == [] {
      var n, i := |line|, QuoteBefore(line, |line| - 3);
      FromHexIsBytes(line[i + 1..n - 2]);
      assert i == n - 3;
      assert line[n - 12..] == line[..i + 1][i - 9..] + line[n - 2..];
    }
  }
}
