/**
 * Argument lists `(name: value, ...)`, whose values may use variables.
 */
module Arguments {
  import opened Wrappers
  import opened Ast
  import opened Lexer
  import Literal

  /** `ParseArgumentList`: '(' then `name: value` pairs up to ')'. */
  function ArgumentListSpec(inp: Input, s: LexState): (r: (Result<seq<Argument>, Abort>, LexState))
    requires InRange(inp, s)
    ensures InRange(inp, r.1)
    ensures r.0.Success? ==> Remaining(inp, r.1) < Remaining(inp, s)
  {
    var o := TokenConsumed(inp, s, Char('('));
    if o.0.Fail? then (Failure(o.0.reason), o.1)
    else
      var args := ArgsSpec(inp, o.1, []);
      if args.0.Failure? then args
      else
        var c := TokenConsumed(inp, args.1, Char(')'));
        if c.0.Fail? then (Failure(c.0.reason), c.1) else (Success(args.0.value), c.1)
  }

  /** The argument loop: pairs up to (not including) the next ')', appended to `acc`. */
  function ArgsSpec(inp: Input, s: LexState, acc: seq<Argument>): (r: (Result<seq<Argument>, Abort>, LexState))
    requires InRange(inp, s)
    ensures InRange(inp, r.1)
    ensures r.0.Success? ==> r.1.next == Char(')') && Remaining(inp, r.1) <= Remaining(inp, s)
    decreases Remaining(inp, s)
  {
    if s.next == Char(')') then (Success(acc), s)
    else
      var name := IdentWithLocConsumed(inp, s);
      if name.0.Failure? then (Failure(name.0.error), name.1)
      else
        var colon := TokenConsumed(inp, name.1, Char(':'));
        if colon.0.Fail? then (Failure(colon.0.reason), colon.1)
        else
          var v := Literal.LiteralSpec(inp, colon.1, false);
          if v.0.Failure? then (Failure(v.0.error), v.1)
          else ArgsSpec(inp, v.1, acc + [Argument(name.0.value, v.0.value)])
  }

  /** An argument list must open with '('; otherwise nothing is consumed. */
  lemma ListNeedsParenthesis(inp: Input, s: LexState)
    requires InRange(inp, s) && s.next != Char('(')
    ensures ArgumentListSpec(inp, s) == (Failure(Unexpected(s.text, "\"(\"")), s)
  {
    assert TokenString(Char('(')) == "\"(\"";
  }

  /**
   * A parsed argument list is what the pair loop reads after the '(', and it
   * ends after the ')' that stops the loop.
   */
  lemma ArgumentListReads(inp: Input, s: LexState)
    requires InRange(inp, s)
    ensures var r := ArgumentListSpec(inp, s);
      var o := TokenConsumed(inp, s, Char('('));
      var args := ArgsSpec(inp, o.1, []);
      var c := TokenConsumed(inp, args.1, Char(')'));
      r.0.Success? ==>
        && s.next == Char('(') && o.0.Pass? && args.0.Success? && c.0.Pass?
        && r == (Success(args.0.value), c.1)
  {
  }

  /** `()` is the empty argument list. */
  lemma EmptyArgumentList(inp: Input, s: LexState)
    requires InRange(inp, s) && s.next == Char('(')
    ensures var o := TokenConsumed(inp, s, Char('('));
      var c := TokenConsumed(inp, o.1, Char(')'));
      o.0.Pass? && o.1.next == Char(')') ==>
        ArgumentListSpec(inp, s) == (if c.0.Pass? then Success([]) else Failure(c.0.reason), c.1)
  {
  }

  /**
   * The loop only appends: arguments keep their source order, repeated names
   * included, and nothing else depends on what was accumulated before.
   */
  lemma {:induction false} ArgsAppend(inp: Input, s: LexState, acc: seq<Argument>)
    requires InRange(inp, s)
    ensures ArgsSpec(inp, s, acc) == Literal.Prefixed(acc, ArgsSpec(inp, s, []))
    decreases Remaining(inp, s)
  {
    if s.next == Char(')') {
      assert acc + [] == acc;
    } else {
      var name := IdentWithLocConsumed(inp, s);
      if name.0.Success? {
        var colon := TokenConsumed(inp, name.1, Char(':'));
        if colon.0.Pass? {
          var v := Literal.LiteralSpec(inp, colon.1, false);
          if v.0.Success? {
            var a := Argument(name.0.value, v.0.value);
            var rest := ArgsSpec(inp, v.1, []);
            ArgsUnfold(inp, s, acc);
            ArgsUnfold(inp, s, []);
            ArgsAppend(inp, v.1, acc + [a]);
            ArgsAppend(inp, v.1, [a]);
            assert [] + [a] == [a];
            if rest.0.Success? {
              assert acc + [a] + rest.0.value == acc + ([a] + rest.0.value);
            }
          }
        }
      }
    }
  }

  /** One turn of the argument loop that parses a pair. */
  lemma ArgsUnfold(inp: Input, s: LexState, acc: seq<Argument>)
    requires InRange(inp, s) && s.next != Char(')')
    ensures var name := IdentWithLocConsumed(inp, s);
      var colon := TokenConsumed(inp, name.1, Char(':'));
      var v := Literal.LiteralSpec(inp, colon.1, false);
      name.0.Success? && colon.0.Pass? && v.0.Success? ==>
        ArgsSpec(inp, s, acc) == ArgsSpec(inp, v.1, acc + [Argument(name.0.value, v.0.value)])
  {
  }

  method ParseArgumentList(l: Lexer) returns (r: Result<seq<Argument>, Abort>)
    requires l.Valid()
    modifies l
    ensures l.Valid() && (r, l.State()) == ArgumentListSpec(l.Inp(), old(l.State()))
  {
    var o := l.ConsumeToken(Char('('));
    if o.Fail? {
      return Failure(o.reason);
    }
    ghost var goal := ArgsSpec(l.Inp(), l.State(), []);
    var args: seq<Argument> := [];
    while l.Peek() != Char(')')
      invariant l.Valid()
      invariant ArgsSpec(l.Inp(), l.State(), args) == goal
      decreases l.Progress()
    {
      var name := l.ConsumeIdentWithLoc();
      if name.Failure? {
        return Failure(name.error);
      }
      o := l.ConsumeToken(Char(':'));
      if o.Fail? {
        return Failure(o.reason);
      }
      var value := Literal.ParseLiteral(l, false);
      if value.Failure? {
        return Failure(value.error);
      }
      args := args + [Argument(name.value, value.value)];
    }
    o := l.ConsumeToken(Char(')'));
    if o.Fail? {
      return Failure(o.reason);
    }
    r := Success(args);
  }
}

/**
 * Input value definitions `desc name: Type = default @directives`, as used
 * for variable definitions.
 */
module InputValues {
  import opened Wrappers
  import opened Ast
  import opened Lexer
  import Types
  import Literal
  import Directives

  /**
   * `ParseInputValue`: the definition's location is where its description
   * (if any) starts; the type's location is the token after ':'.
   */
  function InputValueSpec(inp: Input, s: LexState): (r: (Result<InputValueDefinition, Abort>, LexState))
    requires InRange(inp, s)
    ensures InRange(inp, r.1)
  {
    var desc := DescCommentOf(inp, s);
    if desc.0.Failure? then (Failure(desc.0.error), desc.1)
    else
      var name := IdentWithLocConsumed(inp, desc.1);
      if name.0.Failure? then (Failure(name.0.error), name.1)
      else
        var colon := TokenConsumed(inp, name.1, Char(':'));
        if colon.0.Fail? then (Failure(colon.0.reason), colon.1)
        else
          var t := Types.TypeSpec(inp, colon.1);
          if t.0.Failure? then (Failure(t.0.error), t.1)
          else
            var def := DefaultSpec(inp, t.1);
            if def.0.Failure? then (Failure(def.0.error), def.1)
            else
              var dirs := Directives.DirectivesSpec(inp, def.1, []);
              if dirs.0.Failure? then (Failure(dirs.0.error), dirs.1)
              else (Success(InputValueDefinition(s.pos, desc.0.value, name.0.value, t.0.value, colon.1.pos,
                                                 def.0.value, dirs.0.value)), dirs.1)
  }

  /** The optional `= value` part; the value must be constant. */
  function DefaultSpec(inp: Input, s: LexState): (r: (Result<Option<Value>, Abort>, LexState))
    requires InRange(inp, s)
    ensures InRange(inp, r.1)
  {
    if s.next != Char('=') then (Success(None), s)
    else
      var eq := TokenConsumed(inp, s, Char('='));
      if eq.0.Fail? then (Failure(eq.0.reason), eq.1)
      else
        var v := Literal.LiteralSpec(inp, eq.1, true);
        if v.0.Failure? then (Failure(v.0.error), v.1) else (Success(Some(v.0.value)), v.1)
  }

  /**
   * A definition that parses is located where it starts and is read in
   * source order: the description, the name, ':', the type (of the parsed
   * shapes, located at its first token), the optional constant default, and
   * the directives after it; the lexer ends after the last directive.
   */
  lemma DefinitionShape(inp: Input, s: LexState)
    requires InRange(inp, s)
    ensures var r := InputValueSpec(inp, s);
      r.0.Success? ==>
        var desc := DescCommentOf(inp, s);
        var name := IdentWithLocConsumed(inp, desc.1);
        var colon := TokenConsumed(inp, name.1, Char(':'));
        var t := Types.TypeSpec(inp, colon.1);
        var def := DefaultSpec(inp, t.1);
        var dirs := Directives.DirectivesSpec(inp, def.1, []);
        && desc.0.Success? && name.0.Success? && colon.0.Pass? && t.0.Success? && def.0.Success? && dirs.0.Success?
        && Types.Parsed(r.0.value.typ)
        && r.0.value.loc == s.pos
        && r.0.value.desc == desc.0.value
        && r.0.value.name == name.0.value
        && r.0.value.typ == t.0.value
        && r.0.value.typeLoc == colon.1.pos
        && r.0.value.default == def.0.value
        && (r.0.value.default.Some? ==> Literal.IsConst(r.0.value.default.value))
        && r.0.value.directives == dirs.0.value
        && r.1 == dirs.1
  {
    var desc := DescCommentOf(inp, s);
    if desc.0.Success? {
      var name := IdentWithLocConsumed(inp, desc.1);
      if name.0.Success? {
        var colon := TokenConsumed(inp, name.1, Char(':'));
        if colon.0.Pass? {
          var t := Types.TypeSpec(inp, colon.1);
          if t.0.Success? {
            DefaultIffEquals(inp, t.1);
          }
        }
      }
    }
  }

  /**
   * A default is present exactly when the token after the type is '='; it
   * is the constant literal parsed after the '=', and it holds no variable.
   */
  lemma DefaultIffEquals(inp: Input, s: LexState)
    requires InRange(inp, s)
    ensures var r := DefaultSpec(inp, s);
      && (s.next != Char('=') <==> r == (Success(None), s))
      && (s.next == Char('=') && r.0.Success? ==>
            var eq := TokenConsumed(inp, s, Char('='));
            var v := Literal.LiteralSpec(inp, eq.1, true);
            && eq.0.Pass? && v.0.Success?
            && r == (Success(Some(v.0.value)), v.1))
      && (r.0.Success? && r.0.value.Some? ==> Literal.IsConst(r.0.value.value))
  {
    if s.next == Char('=') {
      var eq := TokenConsumed(inp, s, Char('='));
      if eq.0.Pass? {
        Literal.ConstHasNoVariables(inp, eq.1);
      }
    }
  }

  method ParseInputValue(l: Lexer) returns (r: Result<InputValueDefinition, Abort>)
    requires l.Valid()
    modifies l
    ensures l.Valid() && (r, l.State()) == InputValueSpec(l.Inp(), old(l.State()))
  {
    var loc := l.Location();
    var desc := l.DescComment();
    if desc.Failure? {
      return Failure(desc.error);
    }
    var name := l.ConsumeIdentWithLoc();
    if name.Failure? {
      return Failure(name.error);
    }
    var o := l.ConsumeToken(Char(':'));
    if o.Fail? {
      return Failure(o.reason);
    }
    var typeLoc := l.Location();
    var t := Types.ParseType(l);
    if t.Failure? {
      return Failure(t.error);
    }
    var default: Option<Value> := None;
    if l.Peek() == Char('=') {
      o := l.ConsumeToken(Char('='));
      if o.Fail? {
        return Failure(o.reason);
      }
      var v := Literal.ParseLiteral(l, true);
      if v.Failure? {
        return Failure(v.error);
      }
      default := Some(v.value);
    }
    var dirs := Directives.ParseDirectives(l);
    if dirs.Failure? {
      return Failure(dirs.error);
    }
    r := Success(InputValueDefinition(loc, desc.value, name.value, t.value, typeLoc, default, dirs.value));
  }
}
