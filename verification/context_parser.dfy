/** The pluggable context-to-field strategy (logger_context.go). */
module ContextParsers {
  import opened LogFields

  /** An attached, non-nil `context.Context`; its contents are opaque here. */
  datatype Context = Context(id: nat)

  /** `funcContextParser`: a parse function and the field name it fills. It is
      the only implementation of the `ContextParser` interface in the core. */
  datatype ContextParser = FuncParser(parse: Context -> Value, fieldName: string)

  /** `_defaultFieldName` (logger_context.go:6). */
  const DefaultFieldName: string := "_context"

  /** `NewContextParserFunc`: an empty field name falls back to `_context`. */
  function NewContextParserFunc(f: Context -> Value, fieldName: string): (p: ContextParser)
    ensures FieldName(p) != ""
    ensures fieldName != "" ==> FieldName(p) == fieldName
    ensures fieldName == "" ==> FieldName(p) == DefaultFieldName
    ensures forall ctx :: Parse(p, ctx) == f(ctx)
  {
    FuncParser(f, if fieldName == "" then DefaultFieldName else fieldName)
  }

  /** `DefaultContextParserFunc`: the parser writes into `_context`. */
  function DefaultContextParserFunc(f: Context -> Value): (p: ContextParser)
    ensures FieldName(p) == DefaultFieldName
    ensures forall ctx :: Parse(p, ctx) == f(ctx)
  {
    NewContextParserFunc(f, DefaultFieldName)
  }

  /** `funcContextParser.Parse`. */
  function Parse(p: ContextParser, ctx: Context): Value {
    p.parse(ctx)
  }

  /** `funcContextParser.FieldName`. */
  function FieldName(p: ContextParser): string {
    p.fieldName
  }

  /** `nonParser`: ignores the context. */
  function NonParser(ctx: Context): Value {
    Str("non action")
  }

  /** The parser a logger gets by default records "non action" under
      `_context` for every context (logger_options.go:71, logger_context.go:51-53). */
  lemma DefaultParserRecordsSentinel(ctx: Context)
    ensures var p := DefaultContextParserFunc(NonParser);
      FieldName(p) == "_context" && Parse(p, ctx) == Str("non action")
  {
  }
}
