/**
 * Type references (`Name`, `[T]`, `T!`), parsed from the lexer, and their
 * resolution against a schema lookup.
 */
module Types {
  import opened Wrappers
  import opened Ast
  import opened Lexer

  /**
   * The shapes the parser builds: names, lists of parsed types, and a
   * non-null wrapper around a list or a name but never around another
   * non-null wrapper.
   */
  predicate Parsed(t: Type) {
    match t
    case TypeName(_) => true
    case List(of) => Parsed(of)
    case NonNull(of) => !of.NonNull? && Parsed(of)
    case Named(_) => false
  }

  /** `ParseType`: a nullable type, wrapped in NonNull when a '!' follows it. */
  function TypeSpec(inp: Input, s: LexState): (r: (Result<Type, Abort>, LexState))
    requires InRange(inp, s)
    ensures InRange(inp, r.1)
    ensures r.0.Success? ==> Parsed(r.0.value) && Remaining(inp, r.1) < Remaining(inp, s)
    decreases Remaining(inp, s), 1
  {
    var t := NullTypeSpec(inp, s);
    if t.0.Failure? || t.1.next != Char('!') then t
    else
      var c := TokenConsumed(inp, t.1, Char('!'));
      if c.0.Fail? then (Failure(c.0.reason), c.1) else (Success(NonNull(t.0.value)), c.1)
  }

  /** `parseNullType`: `[` T `]` is a list of T; anything else must be a type name. */
  function NullTypeSpec(inp: Input, s: LexState): (r: (Result<Type, Abort>, LexState))
    requires InRange(inp, s)
    ensures InRange(inp, r.1)
    ensures r.0.Success? ==> Parsed(r.0.value) && !r.0.value.NonNull? && Remaining(inp, r.1) < Remaining(inp, s)
    decreases Remaining(inp, s), 0
  {
    if s.next == Char('[') then
      var c := TokenConsumed(inp, s, Char('['));
      if c.0.Fail? then (Failure(c.0.reason), c.1)
      else
        var of := TypeSpec(inp, c.1);
        if of.0.Failure? then of
        else
          var e := TokenConsumed(inp, of.1, Char(']'));
          if e.0.Fail? then (Failure(e.0.reason), e.1) else (Success(List(of.0.value)), e.1)
    else
      var id := IdentWithLocConsumed(inp, s);
      if id.0.Failure? then (Failure(id.0.error), id.1) else (Success(TypeName(id.0.value)), id.1)
  }

  /**
   * A trailing '!' always becomes the outermost wrapper, around exactly the
   * type parsed before it; without one the nullable type is returned as is.
   */
  lemma NonNullWrapsWhatPrecedes(inp: Input, s: LexState)
    requires InRange(inp, s)
    ensures var t := NullTypeSpec(inp, s);
      var r := TypeSpec(inp, s);
      && (t.0.Success? && t.1.next == Char('!') ==>
            r.0.Failure? || (r.0.value.NonNull? && r.0.value.ofType == t.0.value))
      && (t.0.Success? && t.1.next != Char('!') ==> r == t && !r.0.value.NonNull?)
  {
  }

  /**
   * What a nullable type is made of: after '[', a list of exactly the type
   * parsed inside the brackets, ending after the ']'; otherwise the type
   * name is the identifier found, at its location.
   */
  lemma NullTypeResult(inp: Input, s: LexState)
    requires InRange(inp, s)
    ensures var r := NullTypeSpec(inp, s);
      && (s.next == Char('[') && r.0.Success? ==>
            var c := TokenConsumed(inp, s, Char('['));
            var of := TypeSpec(inp, c.1);
            var e := TokenConsumed(inp, of.1, Char(']'));
            && c.0.Pass? && of.0.Success? && e.0.Pass?
            && r == (Success(List(of.0.value)), e.1))
      && (s.next != Char('[') && r.0.Success? ==>
            && s.next == Kind.Ident
            && r == (Success(TypeName(Ident.Ident(s.text, s.pos))), IdentWithLocConsumed(inp, s).1))
  {
  }

  /** Anything but '[' or an identifier where a type should start is a syntax error; nothing is consumed. */
  lemma TypeNeedsNameOrList(inp: Input, s: LexState)
    requires InRange(inp, s) && s.next != Char('[') && s.next != Kind.Ident
    ensures TypeSpec(inp, s) == (Failure(Unexpected(s.text, "Ident")), s)
  {
    assert NullTypeSpec(inp, s) == (Failure(Unexpected(s.text, "Ident")), s);
  }

  /** A list type whose element type is not followed by ']' is a syntax error naming the token found. */
  lemma ListNeedsClosingBracket(inp: Input, s: LexState)
    requires InRange(inp, s) && s.next == Char('[')
    ensures var c := TokenConsumed(inp, s, Char('['));
      var of := TypeSpec(inp, c.1);
      c.0.Pass? && of.0.Success? && of.1.next != Char(']') ==>
        NullTypeSpec(inp, s) == (Failure(Unexpected(of.1.text, "\"]\"")), of.1)
  {
    var c := TokenConsumed(inp, s, Char('['));
    if c.0.Pass? {
      var of := TypeSpec(inp, c.1);
      if of.0.Success? && of.1.next != Char(']') {
        assert TokenString(Char(']')) == "\"]\"";
      }
    }
  }

  method ParseType(l: Lexer) returns (r: Result<Type, Abort>)
    requires l.Valid()
    modifies l
    ensures l.Valid() && (r, l.State()) == TypeSpec(l.Inp(), old(l.State()))
    decreases l.Progress(), 1
  {
    r := ParseNullType(l);
    if r.Failure? || l.Peek() != Char('!') {
      return;
    }
    var o := l.ConsumeToken(Char('!'));
    if o.Fail? {
      return Failure(o.reason);
    }
    r := Success(NonNull(r.value));
  }

  method ParseNullType(l: Lexer) returns (r: Result<Type, Abort>)
    requires l.Valid()
    modifies l
    ensures l.Valid() && (r, l.State()) == NullTypeSpec(l.Inp(), old(l.State()))
    decreases l.Progress(), 0
  {
    if l.Peek() == Char('[') {
      var o := l.ConsumeToken(Char('['));
      if o.Fail? {
        return Failure(o.reason);
      }
      var ofType := ParseType(l);
      if ofType.Failure? {
        return ofType;
      }
      o := l.ConsumeToken(Char(']'));
      if o.Fail? {
        return Failure(o.reason);
      }
      return Success(List(ofType.value));
    }
    var id := l.ConsumeIdentWithLoc();
    if id.Failure? {
      return Failure(id.error);
    }
    r := Success(TypeName(id.value));
  }

  // ---------------------------------------------------------------------------
  // Resolution

  datatype Wrapper = ListOf | NonNullOf

  /** The List and NonNull wrappers of a type, outermost first. */
  function Wrapping(t: Type): seq<Wrapper> {
    match t
    case List(of) => [ListOf] + Wrapping(of)
    case NonNull(of) => [NonNullOf] + Wrapping(of)
    case _ => []
  }

  /** What the wrappers wrap. */
  function Core(t: Type): (c: Type)
    ensures !c.List? && !c.NonNull?
  {
    match t
    case List(of) => Core(of)
    case NonNull(of) => Core(of)
    case _ => t
  }

  function Rewrap(ws: seq<Wrapper>, inner: Type): Type
    decreases |ws|
  {
    if |ws| == 0 then inner
    else if ws[0] == ListOf then List(Rewrap(ws[1..], inner))
    else NonNull(Rewrap(ws[1..], inner))
  }

  function UnknownType(id: Ident): QueryError {
    QueryError("unknown type " + Quote(id.name), "KnownTypeNames", [id.loc])
  }

  /**
   * `ResolveType`: the innermost type name is replaced by what the resolver
   * returns for it, keeping every wrapper; an unknown name fails.
   */
  function ResolveType(t: Type, resolver: string -> Option<Type>): Result<Type, QueryError>
  {
    match t
    case List(of) =>
      var r := ResolveType(of, resolver);
      if r.Failure? then r else Success(List(r.value))
    case NonNull(of) =>
      var r := ResolveType(of, resolver);
      if r.Failure? then r else Success(NonNull(r.value))
    case TypeName(id) =>
      if resolver(id.name).None? then Failure(UnknownType(id)) else Success(resolver(id.name).value)
    case Named(_) => Success(t)
  }

  /** Every type is its wrappers around its core. */
  lemma {:induction false} WrappersAroundCore(t: Type)
    ensures Rewrap(Wrapping(t), Core(t)) == t
  {
    match t
    case List(of) =>
      WrappersAroundCore(of);
      assert ([ListOf] + Wrapping(of))[1..] == Wrapping(of);
    case NonNull(of) =>
      WrappersAroundCore(of);
      assert ([NonNullOf] + Wrapping(of))[1..] == Wrapping(of);
    case _ =>
  }

  /**
   * Resolution keeps the wrapper structure and replaces the core: a name by
   * the resolver's answer, any other type by itself. It fails exactly when
   * the core is a name the resolver does not know, with the unknown-type
   * error at that name, whatever wraps it.
   */
  lemma {:induction false} ResolveKeepsWrappers(t: Type, resolver: string -> Option<Type>)
    ensures var r := ResolveType(t, resolver);
      var c := Core(t);
      && (r.Failure? <==> c.TypeName? && resolver(c.ident.name).None?)
      && (r.Failure? ==> r.error == UnknownType(c.ident))
      && (r.Success? ==> r.value == Rewrap(Wrapping(t), if c.TypeName? then resolver(c.ident.name).value else c))
  {
    match t
    case List(of) =>
      ResolveKeepsWrappers(of, resolver);
      assert ([ListOf] + Wrapping(of))[1..] == Wrapping(of);
    case NonNull(of) =>
      ResolveKeepsWrappers(of, resolver);
      assert ([NonNullOf] + Wrapping(of))[1..] == Wrapping(of);
    case TypeName(_) =>
    case Named(_) =>
  }
}
