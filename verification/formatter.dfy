/** The text formatter (logger_formatter.go): one line made of the level
    label, the fixed fields, the user fields and a newline, every field
    written as `key="value"`. */
module Formatter {
  import opened Wrappers
  import opened Text
  import opened Levels
  import opened LogFields
  import opened Quoting
  import opened Sorting

  const FileKey: string := "_filepath"
  const FuncKey: string := "_func"
  const TimestampKey: string := "_ts"
  const FormatTimeKey: string := "_fmt_time"

  /** The ANSI escape character. */
  const Esc: char := 27 as char

  /** Library behaviour the formatter calls but that is not part of this
      model: `Level.String()`, `Level.Color()` and
      `time.Unix(ts, 0).Format(layout)`. */
  datatype Externals = Externals(
    levelName: Level -> string,
    levelColor: Level -> int,
    timeFormat: (int, string) -> string)

  /** `TextFormatter` (logger_formatter.go:28-39). */
  datatype TextFormatter = TextFormatter(
    isTerminal: bool,
    sortField: bool,
    formatTime: bool,
    formatTimeLayout: string)

  /** `newTextFormatter` (logger_formatter.go:41-51). */
  function NewTextFormatter(isTerminal: bool, sortField: bool, formatTime: bool, layout: string): TextFormatter {
    TextFormatter(isTerminal, sortField, formatTime, layout)
  }

  /** One `key=value` pair as the formatter emits it. */
  datatype Pair = Pair(key: string, value: Value)

  /** `order` lists every key of the set exactly once: what a Go map range
      yields, in some order the runtime chooses. */
  ghost predicate Enumerates(order: seq<string>, keys: set<string>) {
    Distinct(order) && forall k :: k in order <==> k in keys
  }

  /** A map range over `keys`: the loop hands out one not yet visited key
      per step, in an order of its own choosing, so every key comes out
      exactly once. */
  method RangeOrder(keys: set<string>) returns (order: seq<string>)
    ensures Enumerates(order, keys)
  {
    order := [];
    var todo := keys;
    while todo != {}
      invariant todo <= keys
      invariant Distinct(order)
      invariant forall k :: k in order <==> k in keys - todo
      decreases todo
    {
      var k :| k in todo;
      assert k !in order;
      forall i | 0 <= i < |order|
        ensures order[i] != k
      {
        assert order[i] in order;
      }
      order := order + [k];
      todo := todo - {k};
    }
  }

  function KeysOf(ps: seq<Pair>): (ks: seq<string>)
    ensures |ks| == |ps|
    ensures forall i | 0 <= i < |ps| :: ks[i] == ps[i].key
  {
    if |ps| == 0 then [] else [ps[0].key] + KeysOf(ps[1..])
  }

  /** The text `appendValue` quotes: a string as it is, anything else as
      its `%+v` rendering. */
  function ValueText(v: Value): string {
    match v
    case Str(s) => s
    case Other(shown) => shown
  }

  /** `appendValue` (logger_formatter.go:133-140): the value's text, quoted. */
  function AppendValue(b: string, value: Value): string {
    b + Quote(ValueText(value))
  }

  /** `appendKeyValue` (logger_formatter.go:124-131). */
  function AppendKeyValue(b: string, key: string, value: Value): string {
    AppendValue((if |b| > 0 then b + " " else b) + key + "=", value)
  }

  /** What `appendKeyValue` leaves in the buffer: the old contents, one space
      only if they were non-empty, the key, `=`, and a quoted text that reads
      back as the value's text. */
  lemma AppendKeyValueLayout(b: string, key: string, value: Value)
    ensures var r := AppendKeyValue(b, key, value);
      var at := if |b| > 0 then |b| + 1 else 0;
      && |b| < |r|
      && r[..|b|] == b
      && (|b| > 0 ==> r[|b|] == ' ')
      && at + |key| < |r|
      && r[at..at + |key|] == key
      && r[at + |key|] == '='
      && Unquote(r[at + |key| + 1..]) == Some(ValueText(value))
  {
    var sep := if |b| > 0 then b + " " else b;
    var q := Quote(ValueText(value));
    var r := AppendKeyValue(b, key, value);
    assert r == sep + key + "=" + q;
    assert r[..|b|] == b;
    assert r[|sep|..|sep| + |key|] == key;
    assert r[|sep| + |key| + 1..] == q;
    QuoteRoundTrip(ValueText(value));
  }

  /** The buffer after appending each pair in turn. */
  function AppendAll(b: string, ps: seq<Pair>): string
    decreases |ps|
  {
    if |ps| == 0 then b else AppendAll(AppendKeyValue(b, ps[0].key, ps[0].value), ps[1..])
  }

  /** Reference rendering of the pairs: each one preceded by a single space. */
  function PairText(p: Pair): (s: string)
    ensures 0 < |s|
  {
    p.key + "=" + Quote(ValueText(p.value))
  }

  function Spaced(ps: seq<Pair>): string {
    if |ps| == 0 then "" else " " + PairText(ps[0]) + Spaced(ps[1..])
  }

  /** What a buffer holding `b` looks like after the pairs: separated by
      single spaces, with no leading space when `b` was empty. */
  function Line(b: string, ps: seq<Pair>): string {
    if |b| > 0 || |ps| == 0 then b + Spaced(ps) else PairText(ps[0]) + Spaced(ps[1..])
  }

  lemma AppendKeyValueText(b: string, p: Pair)
    ensures AppendKeyValue(b, p.key, p.value) == (if |b| > 0 then b + " " else b) + PairText(p)
  {
  }

  lemma {:induction false} AppendAllSpaced(b: string, ps: seq<Pair>)
    requires |b| > 0
    ensures AppendAll(b, ps) == b + Spaced(ps)
    decreases |ps|
  {
    if |ps| > 0 {
      var b1 := AppendKeyValue(b, ps[0].key, ps[0].value);
      var h := " " + PairText(ps[0]);
      AppendKeyValueText(b, ps[0]);
      ConcatAssoc(b, " ", PairText(ps[0]));
      assert b1 == b + h;
      AppendAllSpaced(b1, ps[1..]);
      assert Spaced(ps) == h + Spaced(ps[1..]);
      ConcatAssoc(b, h, Spaced(ps[1..]));
    }
  }

  /** Appending pairs one by one yields the reference rendering. */
  lemma AppendAllIsLine(b: string, ps: seq<Pair>)
    ensures AppendAll(b, ps) == Line(b, ps)
  {
    if |b| > 0 {
      AppendAllSpaced(b, ps);
    } else if |ps| > 0 {
      var first := AppendKeyValue(b, ps[0].key, ps[0].value);
      AppendKeyValueText(b, ps[0]);
      assert first == PairText(ps[0]);
      AppendAllSpaced(first, ps[1..]);
      assert AppendAll(b, ps) == AppendAll(first, ps[1..]);
    }
  }

  /** `printColoredLevel` (logger_formatter.go:73-80). */
  function ColoredLevel(f: TextFormatter, lv: Level, ext: Externals): string {
    if f.isTerminal then
      [Esc] + "[" + IntToString(ext.levelColor(lv)) + "m" + ext.levelName(lv) + [Esc] + "[0m"
    else ext.levelName(lv)
  }

  /** The pairs `printFixedFields` emits (logger_formatter.go:83-97). */
  function FixedPairs(f: TextFormatter, fixed: FixedField, printCaller: bool, ext: Externals): (r: seq<Pair>)
    ensures printCaller ==> |r| == 3 && r[0] == Pair(FileKey, Str(fixed.file)) && r[1] == Pair(FuncKey, Str(fixed.fn))
    ensures !printCaller ==> |r| == 1
    ensures forall i | 0 <= i < |r| - 1 :: r[i].key != FormatTimeKey && r[i].key != TimestampKey
    ensures r[|r| - 1].key == if f.formatTime then FormatTimeKey else TimestampKey
    ensures f.formatTime ==> r[|r| - 1].value == Str(ext.timeFormat(fixed.timestamp, f.formatTimeLayout))
    ensures !f.formatTime ==> r[|r| - 1].value.Other? && ParseInt(ValueText(r[|r| - 1].value)) == Some(fixed.timestamp)
  {
    var caller := if printCaller then [Pair(FileKey, Str(fixed.file)), Pair(FuncKey, Str(fixed.fn))] else [];
    IntToStringRoundTrip(fixed.timestamp);
    var time :=
      if f.formatTime then Pair(FormatTimeKey, Str(ext.timeFormat(fixed.timestamp, f.formatTimeLayout)))
      else Pair(TimestampKey, Other(IntToString(fixed.timestamp)));
    caller + [time]
  }

  function PairsFor(fields: Fields, keys: seq<string>): (r: seq<Pair>)
    requires forall i | 0 <= i < |keys| :: keys[i] in fields
    ensures |r| == |keys|
    ensures forall i | 0 <= i < |keys| :: r[i] == Pair(keys[i], fields[keys[i]])
  {
    if |keys| == 0 then [] else [Pair(keys[0], fields[keys[0]])] + PairsFor(fields, keys[1..])
  }

  /** The key order `printFields` walks: the range order itself, or that
      order sorted with `sort.Strings` when `sortField` is set. */
  function FieldOrder(f: TextFormatter, order: seq<string>): (keys: seq<string>)
    requires Distinct(order)
    ensures Distinct(keys)
    ensures forall k :: k in keys <==> k in order
    ensures f.sortField ==> StrictlySorted(keys)
    ensures !f.sortField ==> keys == order
  {
    if f.sortField then
      SortSorted(order);
      SortSameElements(order);
      StrictlySortedDistinct(Sort(order));
      Sort(order)
    else order
  }

  lemma SortSameElements(s: seq<string>)
    ensures forall k :: k in Sort(s) <==> k in s
  {
    SortPermutes(s);
    forall k
      ensures k in Sort(s) <==> k in s
    {
      assert k in Sort(s) <==> k in multiset(Sort(s));
      assert k in s <==> k in multiset(s);
    }
  }

  /** The pairs `printFields` emits (logger_formatter.go:101-122): every field
      exactly once, in range order or, with `sortField`, in increasing key
      order. `order` is the order the map range happens to yield. */
  function FieldPairs(f: TextFormatter, fields: Fields, order: seq<string>): (r: seq<Pair>)
    requires Enumerates(order, fields.Keys)
    ensures Enumerates(KeysOf(r), fields.Keys)
    ensures forall i | 0 <= i < |r| :: r[i].key in fields && r[i].value == fields[r[i].key]
    ensures f.sortField ==> StrictlySorted(KeysOf(r))
    ensures !f.sortField ==> KeysOf(r) == order
  {
    var keys := FieldOrder(f, order);
    var r := PairsFor(fields, keys);
    assert KeysOf(r) == keys;
    r
  }

  /** Every pair of the line, in the order the formatter writes them. */
  function LinePairs(f: TextFormatter, fixed: FixedField, printCaller: bool, fields: Fields,
                     order: seq<string>, ext: Externals): seq<Pair>
    requires Enumerates(order, fields.Keys)
  {
    FixedPairs(f, fixed, printCaller, ext) + FieldPairs(f, fields, order)
  }

  /** `TextFormatter.Format` (logger_formatter.go:54-70). The Go method takes
      the entry and reads its level, fixed fields, caller flag and fields;
      those are the parameters here. Its error result is always nil, so only
      the line is returned. */
  function Format(f: TextFormatter, lv: Level, fixed: FixedField, printCaller: bool, fields: Fields,
                  order: seq<string>, ext: Externals): (data: string)
    requires Enumerates(order, fields.Keys)
    ensures 0 < |data| && data[|data| - 1] == '\n'
    ensures var head := ColoredLevel(f, lv, ext);
      |head| < |data| && data[..|head|] == head
    ensures f.isTerminal ==>
      var w := [Esc] + "[" + IntToString(ext.levelColor(lv)) + "m" + ext.levelName(lv) + [Esc] + "[0m";
      |w| < |data| && data[..|w|] == w
    ensures !f.isTerminal ==> |ext.levelName(lv)| < |data| && data[..|ext.levelName(lv)|] == ext.levelName(lv)
    ensures data == Line(ColoredLevel(f, lv, ext), LinePairs(f, fixed, printCaller, fields, order, ext)) + "\n"
  {
    var head := ColoredLevel(f, lv, ext);
    var ps := LinePairs(f, fixed, printCaller, fields, order, ext);
    var withFixed := AppendAll(head, FixedPairs(f, fixed, printCaller, ext));
    var body := AppendAll(withFixed, FieldPairs(f, fields, order));
    AppendAllIsLine(head, FixedPairs(f, fixed, printCaller, ext));
    AppendAllIsLine(withFixed, FieldPairs(f, fields, order));
    AppendAllConcat(head, FixedPairs(f, fixed, printCaller, ext), FieldPairs(f, fields, order));
    AppendAllIsLine(head, ps);
    LinePrefix(head, ps);
    body + "\n"
  }

  lemma {:induction false} AppendAllConcat(b: string, ps: seq<Pair>, qs: seq<Pair>)
    ensures AppendAll(b, ps + qs) == AppendAll(AppendAll(b, ps), qs)
    decreases |ps|
  {
    if |ps| == 0 {
      assert ps + qs == qs;
    } else {
      assert (ps + qs)[0] == ps[0];
      assert (ps + qs)[1..] == ps[1..] + qs;
      AppendAllConcat(AppendKeyValue(b, ps[0].key, ps[0].value), ps[1..], qs);
    }
  }

  lemma {:induction false} SpacedConcat(ps: seq<Pair>, qs: seq<Pair>)
    ensures Spaced(ps + qs) == Spaced(ps) + Spaced(qs)
    decreases |ps|
  {
    if |ps| == 0 {
      assert ps + qs == qs;
    } else {
      assert (ps + qs)[0] == ps[0];
      assert (ps + qs)[1..] == ps[1..] + qs;
      SpacedConcat(ps[1..], qs);
    }
  }

  lemma SpacedSplit(ps: seq<Pair>, i: nat)
    requires i <= |ps|
    ensures Spaced(ps) == Spaced(ps[..i]) + Spaced(ps[i..])
  {
    assert ps == ps[..i] + ps[i..];
    SpacedConcat(ps[..i], ps[i..]);
  }

  lemma SpacedAt(ps: seq<Pair>, i: nat)
    requires i < |ps|
    ensures Spaced(ps[i..]) == " " + PairText(ps[i]) + Spaced(ps[i + 1..])
  {
    assert ps[i..][1..] == ps[i + 1..];
  }

  lemma LineOnText(b: string, ps: seq<Pair>)
    requires 0 < |b|
    ensures Line(b, ps) == b + Spaced(ps)
  {
  }

  lemma ConcatRegroup(a: string, b: string, c: string, d: string)
    requires b == c + d
    ensures a + b == a + c + d
  {
  }

  lemma LineShowsPairOnText(b: string, ps: seq<Pair>, i: nat)
    requires 0 < i < |ps| && 0 < |b|
    ensures Line(b, ps) == Line(b, ps[..i]) + (" " + PairText(ps[i])) + Spaced(ps[i + 1..])
  {
    SpacedAt(ps, i);
    SpacedSplit(ps, i);
    LineOnText(b, ps);
    LineOnText(b, ps[..i]);
    ConcatRegroup(b + Spaced(ps[..i]), Spaced(ps[i..]), " " + PairText(ps[i]), Spaced(ps[i + 1..]));
  }

  lemma LineShowsPairBare(b: string, ps: seq<Pair>, i: nat)
    requires 0 < i < |ps| && |b| == 0
    ensures Line(b, ps) == Line(b, ps[..i]) + (" " + PairText(ps[i])) + Spaced(ps[i + 1..])
  {
    SpacedAt(ps, i);
    var rest := ps[1..];
    var first := PairText(ps[0]);
    SpacedSplit(rest, i - 1);
    assert rest[i - 1..] == ps[i..];
    assert rest[..i - 1] == ps[..i][1..];
    assert ps[..i][0] == ps[0];
    assert Line(b, ps[..i]) == first + Spaced(rest[..i - 1]);
    assert Line(b, ps) == first + (Spaced(rest[..i - 1]) + Spaced(ps[i..]));
    ConcatAssoc(first, Spaced(rest[..i - 1]), Spaced(ps[i..]));
    ConcatRegroup(first + Spaced(rest[..i - 1]), Spaced(ps[i..]), " " + PairText(ps[i]), Spaced(ps[i + 1..]));
  }

  /** Any pair after the first sits in the line as " key=value", between the
      line up to it and the spaced rest. */
  lemma LineShowsPair(b: string, ps: seq<Pair>, i: nat)
    requires 0 < i < |ps|
    ensures Line(b, ps) == Line(b, ps[..i]) + (" " + PairText(ps[i])) + Spaced(ps[i + 1..])
  {
    if |b| > 0 {
      LineShowsPairOnText(b, ps, i);
    } else {
      LineShowsPairBare(b, ps, i);
    }
  }

  /** The `n` characters of `data` from position `k` on. */
  function Window(data: string, k: nat, n: nat): string
    requires k + n <= |data|
  {
    data[k..k + n]
  }

  /** `t` occurs somewhere in `data`. */
  predicate Shows(data: string, t: string) {
    exists k: nat | k + |t| <= |data| :: Window(data, k, |t|) == t
  }

  lemma ShowsMiddle(a: string, t: string, b: string)
    ensures Shows(a + t + b, t)
  {
    var data := a + t + b;
    assert Window(data, |a|, |t|) == t;
  }

  /** Every pair after the first reaches the finished line as ` key="value"`. */
  lemma LineShowsEachPair(b: string, ps: seq<Pair>, i: nat)
    requires 0 < i < |ps|
    ensures Shows(Line(b, ps) + "\n", " " + PairText(ps[i]))
  {
    LineShowsPair(b, ps, i);
    var t := " " + PairText(ps[i]);
    var rest := Spaced(ps[i + 1..]) + "\n";
    assert Line(b, ps) + "\n" == Line(b, ps[..i]) + t + rest;
    ShowsMiddle(Line(b, ps[..i]), t, rest);
  }

  /** Every field of the map reaches the line as ` key="value"`. */
  lemma FormatShowsField(f: TextFormatter, lv: Level, fixed: FixedField, printCaller: bool, fields: Fields,
                         order: seq<string>, ext: Externals, key: string)
    requires Enumerates(order, fields.Keys)
    requires key in fields
    ensures Shows(Format(f, lv, fixed, printCaller, fields, order, ext), " " + PairText(Pair(key, fields[key])))
  {
    var fixedPs := FixedPairs(f, fixed, printCaller, ext);
    var fieldPs := FieldPairs(f, fields, order);
    var ps := LinePairs(f, fixed, printCaller, fields, order, ext);
    var j := FieldIndex(f, fields, order, key);
    var i := |fixedPs| + j;
    assert ps[i] == fieldPs[j];
    LineShowsEachPair(ColoredLevel(f, lv, ext), ps, i);
  }

  /** Where a field sits among the field pairs. */
  lemma FieldIndex(f: TextFormatter, fields: Fields, order: seq<string>, key: string) returns (j: nat)
    requires Enumerates(order, fields.Keys)
    requires key in fields
    ensures j < |FieldPairs(f, fields, order)| && FieldPairs(f, fields, order)[j] == Pair(key, fields[key])
  {
    var fieldPs := FieldPairs(f, fields, order);
    assert key in KeysOf(fieldPs);
    j :| 0 <= j < |fieldPs| && KeysOf(fieldPs)[j] == key;
  }

  lemma LinePrefix(b: string, ps: seq<Pair>)
    ensures |b| <= |Line(b, ps)| && Line(b, ps)[..|b|] == b
  {
  }

  /** With `sortField` on, the rendered line does not depend on the order in
      which the map range happened to visit the keys. */
  lemma SortedFormatIsDeterministic(f: TextFormatter, lv: Level, fixed: FixedField, printCaller: bool,
                                    fields: Fields, o1: seq<string>, o2: seq<string>, ext: Externals)
    requires f.sortField
    requires Enumerates(o1, fields.Keys) && Enumerates(o2, fields.Keys)
    ensures Format(f, lv, fixed, printCaller, fields, o1, ext) == Format(f, lv, fixed, printCaller, fields, o2, ext)
  {
    var p1 := FieldPairs(f, fields, o1);
    var p2 := FieldPairs(f, fields, o2);
    SortedEnumerationUnique(KeysOf(p1), KeysOf(p2));
    assert p1 == p2 by {
      assert |p1| == |p2|;
      forall i | 0 <= i < |p1|
        ensures p1[i] == p2[i]
      {
        assert KeysOf(p1)[i] == KeysOf(p2)[i];
      }
    }
  }
}
