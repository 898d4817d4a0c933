/**
 * The syntax tree of an executable document, as produced by the parser and
 * consumed by the complexity evaluator. These are the types of the external
 * `types` package, restated as closed datatypes.
 */
module Ast {
  import opened Wrappers

  /** A line/column pair; every node that can be blamed in an error carries one. */
  datatype Location = Location(line: int, column: int)

  /**
   * What the scanner reports: one of its token classes or, for punctuation and
   * for raw characters read one at a time, the character itself (Go's `rune`).
   * The scanner runs with Go's default token set, so a character literal
   * (`'a'`) and a raw string (`` `a` ``) are token classes of their own.
   */
  datatype Kind = EOF | Ident | Int | Float | CharLiteral | String | RawString | Char(c: char)

  datatype Ident = Ident(name: string, loc: Location)

  /** Type references. `Named` stands for a schema type handed back by a resolver. */
  datatype Type =
    | TypeName(ident: Ident)
    | List(ofType: Type)
    | NonNull(ofType: Type)
    | Named(name: string)

  /** Input values; `Primitive.kind` is the token class the literal was read as. */
  datatype Value =
    | Variable(name: string, loc: Location)
    | Primitive(kind: Kind, text: string, loc: Location)
    | Null(loc: Location)
    | ListValue(items: seq<Value>, loc: Location)
    | ObjectValue(fields: seq<ObjectField>, loc: Location)

  datatype ObjectField = ObjectField(name: Ident, value: Value)

  datatype Argument = Argument(name: Ident, value: Value)

  datatype Directive = Directive(name: Ident, arguments: seq<Argument>)

  datatype InputValueDefinition = InputValueDefinition(
    loc: Location,
    desc: string,
    name: Ident,
    typ: Type,
    typeLoc: Location,
    default: Option<Value>,
    directives: seq<Directive>)

  /**
   * A selection. A field's selection set is absent for a leaf field and may be
   * present but empty otherwise.
   */
  datatype Selection =
    | Field(alias: Ident, name: Ident, arguments: seq<Argument>, directives: seq<Directive>,
            selectionSet: Option<seq<Selection>>)
    | FragmentSpread(name: Ident, directives: seq<Directive>)
    | InlineFragment(typeCondition: Option<Ident>, selections: seq<Selection>, directives: seq<Directive>)

  datatype OperationType = Query | Mutation | Subscription

  datatype Operation = Operation(opType: OperationType, name: Option<Ident>, selections: seq<Selection>)

  datatype FragmentDefinition = FragmentDefinition(name: Ident, typeCondition: Ident, selections: seq<Selection>)

  datatype Document = Document(operations: seq<Operation>, fragments: seq<FragmentDefinition>)

  /** The error value the source reports to its callers. */
  datatype QueryError = QueryError(message: string, rule: string, locations: seq<Location>)
}
