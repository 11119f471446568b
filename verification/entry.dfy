/** The log entry (logger_entry.go): a record built from a logger's options,
    derived non-destructively by `WithFields`/`WithContext`, cleared by
    `reset`, and advanced by the emission step `output`, which gates on the
    level, records the message and context in the fields, and writes one
    formatted line. Entries are values here, so an operation returns the new
    entry instead of updating a pointer. */
module Entries {
  import opened Wrappers
  import opened Text
  import opened Levels
  import opened LogFields
  import opened ContextParsers
  import opened Quoting
  import opened Formatter
  import opened Config

  /** `Logger` (logger.go:25-29): an identity and its options record. */
  datatype Logger = Logger(handle: nat, opt: Options)

  /** `entry` (logger_entry.go:13-25). Every nil-able Go attribute is an
      `Option` (or `NoWriter`); `logger` holds the owning logger's handle. */
  datatype Entry = Entry(
    logger: Option<nat>,
    out: Writer,
    formatter: Option<TextFormatter>,
    lv: Level,
    callerReporter: bool,
    fixedField: Option<FixedField>,
    fields: Option<Fields>,
    ctx: Option<Context>,
    ctxParser: Option<ContextParser>)

  /** The field map `newEntry` starts from (logger_entry.go:37, 41-43): a
      fresh map, filled from the global fields when there are any. */
  function SeedFields(global: Fields): (r: Fields)
    ensures r == global
  {
    if global != map[] then CopyFields(map[], global) else map[]
  }

  /** `newEntry` exactly as written (logger_entry.go:27-46): the formatter
      gets only the terminal flag, so `formatTime` and its layout never
      reach it. */
  function NewEntryAsWritten(l: Logger): (e: Entry)
    ensures e.logger == Some(l.handle)
    ensures e.out == ResolveWriter(Some(l.opt))
    ensures e.lv == ResolveLevel(Some(l.opt))
    ensures e.callerReporter == l.opt.callerReporter
    ensures e.fixedField.None? && e.ctx.None?
    ensures e.fields == Some(l.opt.globalFields)
    ensures e.ctxParser == l.opt.ctxParser
    ensures e.formatter.Some?
    ensures e.formatter.value.isTerminal == ResolveTerminal(Some(l.opt)) && !e.formatter.value.sortField
    ensures !e.formatter.value.formatTime && e.formatter.value.formatTimeLayout == ""
  {
    Entry(Some(l.handle), ResolveWriter(Some(l.opt)), Some(TextFormatter(l.opt.isTerminal, false, false, "")),
          l.opt.lv, l.opt.callerReporter, None, Some(SeedFields(l.opt.globalFields)), None, l.opt.ctxParser)
  }

  /** The corrected `newEntry`: the formatter is built from all the
      formatting options, as `WithTimeFormat` and the comment at
      logger_formatter.go:89-90 intend. Everything else is as in
      `NewEntryAsWritten`. */
  function NewEntry(l: Logger): (e: Entry)
    ensures e.logger == Some(l.handle)
    ensures e.out == ResolveWriter(Some(l.opt))
    ensures e.lv == ResolveLevel(Some(l.opt))
    ensures e.callerReporter == l.opt.callerReporter
    ensures e.fixedField.None? && e.ctx.None?
    ensures e.fields == Some(l.opt.globalFields)
    ensures e.ctxParser == l.opt.ctxParser
    ensures e.formatter.Some?
    ensures e.formatter.value.isTerminal == ResolveTerminal(Some(l.opt)) && !e.formatter.value.sortField
    ensures e.formatter.value.formatTime == l.opt.formatTime
    ensures e.formatter.value.formatTimeLayout == l.opt.formatTimeLayout
  {
    Entry(Some(l.handle), ResolveWriter(Some(l.opt)),
          Some(NewTextFormatter(l.opt.isTerminal, false, l.opt.formatTime, l.opt.formatTimeLayout)),
          l.opt.lv, l.opt.callerReporter, None, Some(SeedFields(l.opt.globalFields)), None, l.opt.ctxParser)
  }

  /** The two constructions differ only in the formatter. */
  lemma NewEntryDiffersOnlyInFormatter(l: Logger)
    ensures NewEntryAsWritten(l) == NewEntry(l).(formatter := NewEntryAsWritten(l).formatter)
  {
  }

  /** Time key the line of an entry's formatter carries: `_fmt_time` when
      the formatter formats time, `_ts` otherwise. */
  function TimeKey(e: Entry, fixed: FixedField, ext: Externals): (k: string)
    requires e.formatter.Some?
    ensures k == FormatTimeKey || k == TimestampKey
  {
    var ps := FixedPairs(e.formatter.value, fixed, e.callerReporter, ext);
    ps[|ps| - 1].key
  }

  /** As written, an entry's line carries the raw `_ts` timestamp whatever
      `WithTimeFormat` chose. */
  lemma TimeFormatIgnoredAsWritten(l: Logger, fixed: FixedField, ext: Externals)
    ensures TimeKey(NewEntryAsWritten(l), fixed, ext) == TimestampKey
  {
  }

  /** With the corrected construction, the line carries `_fmt_time` exactly
      when the logger was configured with `WithTimeFormat(true, ...)`, and the
      value is the timestamp in the configured layout. */
  lemma TimeFormatHonoured(l: Logger, fixed: FixedField, ext: Externals)
    ensures TimeKey(NewEntry(l), fixed, ext) == FormatTimeKey <==> l.opt.formatTime
    ensures l.opt.formatTime ==>
      var ps := FixedPairs(NewEntry(l).formatter.value, fixed, l.opt.callerReporter, ext);
      ps[|ps| - 1].value == Str(ext.timeFormat(fixed.timestamp, l.opt.formatTimeLayout))
  {
  }

  /** `entry.WithFields` (logger_entry.go:48-64): a fresh map holding the
      receiver's fields overridden by `f`; the fixed fields are not carried
      over and everything else is. A nil receiver map reads as empty. */
  function WithFields(e: Entry, f: Fields): (r: Entry)
    ensures r.fields.Some?
    ensures r.fields.value.Keys == e.fields.GetOr(map[]).Keys + f.Keys
    ensures forall k | k in f :: r.fields.value[k] == f[k]
    ensures forall k | k in e.fields.GetOr(map[]) && k !in f :: r.fields.value[k] == e.fields.GetOr(map[])[k]
    ensures r.fixedField.None?
    ensures r.logger == e.logger && r.out == e.out && r.formatter == e.formatter && r.lv == e.lv
    ensures r.ctx == e.ctx && r.ctxParser == e.ctxParser && r.callerReporter == e.callerReporter
  {
    var dst := CopyFields(CopyFields(map[], e.fields.GetOr(map[])), f);
    Entry(e.logger, e.out, e.formatter, e.lv, e.callerReporter, None, Some(dst), e.ctx, e.ctxParser)
  }

  /** `entry.WithContext` (logger_entry.go:66-78): the context is replaced,
      the fixed fields are dropped, and the fields are the receiver's. */
  function WithContext(e: Entry, ctx: Context): (r: Entry)
    ensures r.ctx == Some(ctx)
    ensures r.fixedField.None?
    ensures r.fields == e.fields
    ensures r.logger == e.logger && r.out == e.out && r.formatter == e.formatter && r.lv == e.lv
    ensures r.ctxParser == e.ctxParser && r.callerReporter == e.callerReporter
  {
    Entry(e.logger, e.out, e.formatter, e.lv, e.callerReporter, None, e.fields, Some(ctx), e.ctxParser)
  }

  /** The entry `reset` leaves behind: everything nil, the level at Debug. */
  const Released: Entry := Entry(None, NoWriter, None, LevelDebug, false, None, None, None, None)

  /** `entry.reset` (logger_entry.go:80-90). */
  function Reset(e: Entry): (r: Entry)
    ensures r.fields.None? && r.out == NoWriter && r.logger.None? && r.formatter.None?
    ensures r.fixedField.None? && r.ctx.None? && r.ctxParser.None?
    ensures r.lv == LevelDebug && !r.callerReporter
  {
    Released
  }

  /** A runtime caller frame (`runtime.Frame`): the part the entry reads. */
  datatype Frame = Frame(file: string, func: string, line: int)

  /** The emission time: `now.Unix()` and `now.Format(time.RFC3339)`. */
  datatype Instant = Instant(unix: int, rfc3339: string)

  /** The fixed fields `output` computes (logger_entry.go:141-162): the time
      always; the caller only when reporting is on, with "failed" and line 0
      when no frame outside the package was found. */
  function FixedFieldAt(now: Instant, reportCaller: bool, frame: Option<Frame>): (r: FixedField)
    ensures r.timestamp == now.unix && r.formattedTime == now.rfc3339
    ensures !reportCaller ==> r.file == "" && r.fn == ""
    ensures reportCaller && frame.None? ==> r.file == "failed:0" && r.fn == "failed"
    ensures reportCaller && frame.Some? ==>
      var fr := frame.value;
      r.fn == fr.func && |fr.file| < |r.file| && r.file[..|fr.file| + 1] == fr.file + ":"
      && ParseInt(r.file[|fr.file| + 1..]) == Some(fr.line)
  {
    if !reportCaller then FixedField("", "", now.unix, now.rfc3339)
    else
      var file := if frame.Some? then frame.value.file else "failed";
      var fn := if frame.Some? then frame.value.func else "failed";
      var line := if frame.Some? then frame.value.line else 0;
      var shown := file + ":" + IntToString(line);
      IntToStringRoundTrip(line);
      assert shown[|file| + 1..] == IntToString(line);
      FixedField(shown, fn, now.unix, now.rfc3339)
  }

  /** The field updates of `output` (logger_entry.go:164-172): the message
      under "msg", then, when both a context and a parser are present, the
      parsed context under the parser's field name, which may replace "msg". */
  function RecordFields(fields: Fields, msg: string, ctx: Option<Context>, parser: Option<ContextParser>): (r: Fields)
    ensures r.Keys == fields.Keys + {"msg"} + (if ctx.Some? && parser.Some? then {FieldName(parser.value)} else {})
    ensures ctx.Some? && parser.Some? ==> r[FieldName(parser.value)] == Parse(parser.value, ctx.value)
    ensures !(ctx.Some? && parser.Some? && FieldName(parser.value) == "msg") ==> r["msg"] == Str(msg)
    ensures forall k | k in fields && k != "msg" && !(ctx.Some? && parser.Some? && k == FieldName(parser.value)) ::
      r[k] == fields[k]
  {
    var withMsg := fields["msg" := Str(msg)];
    if ctx.Some? && parser.Some? then withMsg[FieldName(parser.value) := Parse(parser.value, ctx.value)]
    else withMsg
  }

  /** One `Write` call on a writer. */
  datatype Write = Write(dest: Writer, data: string)

  /** What an emission step ends in: the entry afterwards, the writes made
      and the warnings printed through the standard `log` package; or a Go
      runtime panic. */
  datatype Outcome = Done(entry: Entry, writes: seq<Write>, warnings: seq<string>) | Panic(reason: string)

  const NilMapWrite: string := "assignment to entry in nil map"
  const NilDereference: string := "invalid memory address or nil pointer dereference"

  /** The field keys the formatter will range over if `output(lv, msg)` gets
      as far as formatting. */
  function KeysToFormat(e: Entry, msg: string): set<string> {
    if e.fields.Some? then RecordFields(e.fields.value, msg, e.ctx, e.ctxParser).Keys else {}
  }

  /** `entry.output` (logger_entry.go:134-187). `now`, the caller frame, the
      map range order and the writer's error are what the clock, the stack
      walk, the runtime and the writer supply. The format error is always
      nil, so its warning never appears. */
  function Output(e: Entry, lv: Level, msg: string, now: Instant, frame: Option<Frame>,
                  order: seq<string>, writeErr: Option<string>, ext: Externals): (r: Outcome)
    requires Emits(e.lv, lv) ==> Enumerates(order, KeysToFormat(e, msg))
    ensures !Emits(e.lv, lv) ==> r == Done(e, [], [])
    ensures Emits(e.lv, lv) ==> (r.Panic? <==> e.fields.None? || e.formatter.None? || e.out == NoWriter)
    ensures Emits(e.lv, lv) && r.Done? ==>
      && |r.writes| == 1 && r.writes[0].dest == e.out
      && r.entry.lv == lv
      && r.entry.fields == Some(RecordFields(e.fields.value, msg, e.ctx, e.ctxParser))
      && r.entry.fixedField == Some(FixedFieldAt(now, e.callerReporter, frame))
      && r.entry.logger == e.logger && r.entry.out == e.out && r.entry.formatter == e.formatter
      && r.entry.ctx == e.ctx && r.entry.ctxParser == e.ctxParser && r.entry.callerReporter == e.callerReporter
      && r.writes[0].data == Format(e.formatter.value, lv, r.entry.fixedField.value, e.callerReporter,
                                    r.entry.fields.value, order, ext)
      && (r.warnings == [] <==> writeErr.None?)
      && (writeErr.Some? ==> r.warnings == ["WARN: could not write log data, err=" + writeErr.value])
  {
    if e.lv < lv then Done(e, [], [])
    else
      var fixed := FixedFieldAt(now, e.callerReporter, frame);
      if e.fields.None? then Panic(NilMapWrite)
      else
        var fields := RecordFields(e.fields.value, msg, e.ctx, e.ctxParser);
        if e.formatter.None? then Panic(NilDereference)
        else
          var data := Format(e.formatter.value, lv, fixed, e.callerReporter, fields, order, ext);
          if e.out == NoWriter then Panic(NilDereference)
          else
            var warnings := if writeErr.Some? then ["WARN: could not write log data, err=" + writeErr.value] else [];
            Done(e.(lv := lv, fixedField := Some(fixed), fields := Some(fields)), [Write(e.out, data)], warnings)
  }

  lemma MessagePairText(msg: string, fields: Fields)
    requires "msg" in fields && fields["msg"] == Str(msg)
    ensures " " + PairText(Pair("msg", fields["msg"])) == " msg=" + Quote(msg)
  {
  }

  lemma FieldPairText(name: string, v: Value, fields: Fields)
    requires name in fields && fields[name] == v
    ensures " " + PairText(Pair(name, fields[name])) == " " + name + "=" + Quote(ValueText(v))
  {
  }

  lemma ShowsSame(data: string, t: string, t': string)
    requires t == t' && Shows(data, t)
    ensures Shows(data, t')
  {
  }

  /** A written line carries the message as ` msg="..."`, quoted so that it
      reads back exactly, unless the context field is itself named "msg". */
  lemma OutputShowsMessage(e: Entry, lv: Level, msg: string, now: Instant, frame: Option<Frame>,
                           order: seq<string>, writeErr: Option<string>, ext: Externals)
    requires Emits(e.lv, lv) ==> Enumerates(order, KeysToFormat(e, msg))
    requires Emits(e.lv, lv) && Output(e, lv, msg, now, frame, order, writeErr, ext).Done?
    requires !(e.ctx.Some? && e.ctxParser.Some? && FieldName(e.ctxParser.value) == "msg")
    ensures var r := Output(e, lv, msg, now, frame, order, writeErr, ext);
      Shows(r.writes[0].data, " msg=" + Quote(msg))
  {
    var r := Output(e, lv, msg, now, frame, order, writeErr, ext);
    var fields := RecordFields(e.fields.value, msg, e.ctx, e.ctxParser);
    var fixed := FixedFieldAt(now, e.callerReporter, frame);
    var data := Format(e.formatter.value, lv, fixed, e.callerReporter, fields, order, ext);
    assert r.writes[0].data == data;
    FormatShowsField(e.formatter.value, lv, fixed, e.callerReporter, fields, order, ext, "msg");
    MessagePairText(msg, fields);
    ShowsSame(data, " " + PairText(Pair("msg", fields["msg"])), " msg=" + Quote(msg));
  }

  /** With a context and a parser, the written line carries the parsed
      context under the parser's field name. */
  lemma OutputShowsContext(e: Entry, lv: Level, msg: string, now: Instant, frame: Option<Frame>,
                           order: seq<string>, writeErr: Option<string>, ext: Externals)
    requires Emits(e.lv, lv) ==> Enumerates(order, KeysToFormat(e, msg))
    requires Emits(e.lv, lv) && Output(e, lv, msg, now, frame, order, writeErr, ext).Done?
    requires e.ctx.Some? && e.ctxParser.Some?
    ensures var r := Output(e, lv, msg, now, frame, order, writeErr, ext);
      var p := e.ctxParser.value;
      Shows(r.writes[0].data, " " + FieldName(p) + "=" + Quote(ValueText(Parse(p, e.ctx.value))))
  {
    var r := Output(e, lv, msg, now, frame, order, writeErr, ext);
    var fields := RecordFields(e.fields.value, msg, e.ctx, e.ctxParser);
    var fixed := FixedFieldAt(now, e.callerReporter, frame);
    var data := Format(e.formatter.value, lv, fixed, e.callerReporter, fields, order, ext);
    assert r.writes[0].data == data;
    var p := e.ctxParser.value;
    var name := FieldName(p);
    FormatShowsField(e.formatter.value, lv, fixed, e.callerReporter, fields, order, ext, name);
    FieldPairText(name, Parse(p, e.ctx.value), fields);
    ShowsSame(data, " " + PairText(Pair(name, fields[name])), " " + name + "=" + Quote(ValueText(Parse(p, e.ctx.value))));
  }

  /** A released entry panics on any level its Debug threshold lets through. */
  lemma OutputAfterResetPanics(e: Entry, lv: Level, msg: string, now: Instant, frame: Option<Frame>,
                               order: seq<string>, writeErr: Option<string>, ext: Externals)
    requires lv <= LevelDebug
    requires order == []
    ensures Output(Reset(e), lv, msg, now, frame, order, writeErr, ext) == Panic(NilMapWrite)
  {
  }

  /** The emitted level becomes the entry's threshold: once an entry has
      written at some level, it drops every less severe level afterwards. */
  lemma OutputNarrowsThreshold(e: Entry, lv: Level, msg: string, now: Instant, frame: Option<Frame>,
                               order: seq<string>, writeErr: Option<string>, ext: Externals,
                               lv': Level, msg': string, now': Instant, frame': Option<Frame>,
                               order': seq<string>, writeErr': Option<string>)
    requires Emits(e.lv, lv) ==> Enumerates(order, KeysToFormat(e, msg))
    requires Emits(e.lv, lv) && Output(e, lv, msg, now, frame, order, writeErr, ext).Done?
    requires lv < lv'
    ensures var e' := Output(e, lv, msg, now, frame, order, writeErr, ext).entry;
      Output(e', lv', msg', now', frame', order', writeErr', ext) == Done(e', [], [])
  {
  }

  /** Which severities end the process: only Fatal, and only once its
      output step returns. */
  datatype Call = Call(outcome: Outcome, exited: bool)

  /** `entry.Fatal` ... `entry.Debugf` (logger_entry.go:92-132): the output
      step at the severity's level, then `os.Exit(1)` for Fatal. The message
      is passed already rendered by `fmt.Sprint`/`fmt.Sprintf`. */
  function Log(e: Entry, s: Severity, msg: string, now: Instant, frame: Option<Frame>,
               order: seq<string>, writeErr: Option<string>, ext: Externals): (c: Call)
    requires Emits(e.lv, LevelOf(s)) ==> Enumerates(order, KeysToFormat(e, msg))
    ensures c.outcome == Output(e, LevelOf(s), msg, now, frame, order, writeErr, ext)
    ensures c.exited <==> s.Fatal? && c.outcome.Done?
  {
    var outcome := Output(e, LevelOf(s), msg, now, frame, order, writeErr, ext);
    Call(outcome, s.Fatal? && outcome.Done?)
  }
}
