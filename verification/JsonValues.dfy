/** Parsed JSON, as far as filters and events use it. */
module JsonValues {
  import opened Lex

  /** `JOther` stands for every other value and for a missing key. */
  datatype Json = JString(text: Bytes) | JUnsigned(n: nat) | JArray(items: seq<Json>) | JOther
}
