/** The field container (logger_fields.go): a string-keyed map of arbitrary
    values, the fixed-field record, and the last-writer-wins merge. */
module LogFields {

  /** A field value. Go stores `interface{}`; the formatter only distinguishes
      strings from everything else, and renders everything else with `%+v`.
      `Other` carries that `%+v` text. */
  datatype Value = Str(s: string) | Other(shown: string)

  /** `Fields` (logger_fields.go:4). A nil Go map reads like the empty map. */
  type Fields = map<string, Value>

  /** The fixed-field record computed at emission time (logger_fields.go:7-12). */
  datatype FixedField = FixedField(file: string, fn: string, timestamp: int, formattedTime: string)

  /** `copyFields(dst, src)` as a value: what `dst` holds once the call returns.
      `src` is never written. */
  function CopyFields(dst: Fields, src: Fields): (r: Fields)
    ensures r.Keys == dst.Keys + src.Keys
    ensures forall k | k in src :: r[k] == src[k]
    ensures forall k | k in dst && k !in src :: r[k] == dst[k]
  {
    dst + src
  }

  /** The loop of `copyFields` (logger_fields.go:15-19): it visits the keys of
      `src` in whatever order the map range yields (any order is allowed) and
      assigns each one into `dst`. */
  method CopyFieldsLoop(dst: Fields, src: Fields) returns (r: Fields)
    ensures r.Keys == dst.Keys + src.Keys
    ensures forall k | k in src :: r[k] == src[k]
    ensures forall k | k in dst && k !in src :: r[k] == dst[k]
  {
    r := dst;
    var todo := src.Keys;
    while todo != {}
      invariant todo <= src.Keys
      invariant r.Keys == dst.Keys + (src.Keys - todo)
      invariant forall k | k in r :: r[k] == if k in src && k !in todo then src[k] else dst[k]
      decreases todo
    {
      var k :| k in todo;
      r := r[k := src[k]];
      todo := todo - {k};
    }
  }

  /** Copying the same source twice changes nothing the first copy did not. */
  lemma CopyFieldsIdempotent(dst: Fields, src: Fields)
    ensures CopyFields(CopyFields(dst, src), src) == CopyFields(dst, src)
  {
  }
}
