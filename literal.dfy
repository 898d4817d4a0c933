/**
 * Input-value literals: variables, scalars, `null`, negated numbers, lists
 * and input objects, with `constOnly` refusing variables at any depth.
 */
module Literal {
  import opened Wrappers
  import opened Ast
  import opened Lexer

  /** A value with no variable anywhere inside it. */
  predicate IsConst(v: Value) {
    match v
    case Variable(_, _) => false
    case ListValue(items, _) => forall i :: 0 <= i < |items| ==> IsConst(items[i])
    case ObjectValue(fields, _) => forall i :: 0 <= i < |fields| ==> IsConst(fields[i].value)
    case _ => true
  }

  /** `ParseLiteral`: the value starting at the current token, located at that token. */
  function LiteralSpec(inp: Input, s: LexState, constOnly: bool): (r: (Result<Value, Abort>, LexState))
    requires InRange(inp, s)
    ensures InRange(inp, r.1)
    ensures r.0.Success? ==> r.0.value.loc == s.pos && Remaining(inp, r.1) < Remaining(inp, s)
    decreases Remaining(inp, s), 0
  {
    var loc := s.pos;
    if s.next == Char('$') then
      if constOnly then (Failure(Syntax("variable not allowed")), s)
      else
        var d := TokenConsumed(inp, s, Char('$'));
        if d.0.Fail? then (Failure(d.0.reason), d.1)
        else
          var n := IdentConsumed(inp, d.1);
          if n.0.Failure? then (Failure(n.0.error), n.1) else (Success(Variable(n.0.value, loc)), n.1)
    else if s.next == Int || s.next == Float || s.next == String || s.next == Kind.Ident then
      var lit := LiteralConsumed(inp, s);
      if lit.0.Failure? then (Failure(lit.0.error), lit.1)
      else if lit.0.value.kind == Kind.Ident && lit.0.value.text == "null" then (Success(Null(loc)), lit.1)
      else (Success(Primitive(lit.0.value.kind, lit.0.value.text, loc)), lit.1)
    else if s.next == Char('-') then
      var m := TokenConsumed(inp, s, Char('-'));
      if m.0.Fail? then (Failure(m.0.reason), m.1)
      else
        var lit := LiteralConsumed(inp, m.1);
        if lit.0.Failure? then (Failure(lit.0.error), lit.1)
        else (Success(Primitive(lit.0.value.kind, "-" + lit.0.value.text, loc)), lit.1)
    else if s.next == Char('[') then
      var o := TokenConsumed(inp, s, Char('['));
      if o.0.Fail? then (Failure(o.0.reason), o.1)
      else
        var items := ItemsSpec(inp, o.1, constOnly, []);
        if items.0.Failure? then (Failure(items.0.error), items.1)
        else
          var c := TokenConsumed(inp, items.1, Char(']'));
          if c.0.Fail? then (Failure(c.0.reason), c.1) else (Success(ListValue(items.0.value, loc)), c.1)
    else if s.next == Char('{') then
      var o := TokenConsumed(inp, s, Char('{'));
      if o.0.Fail? then (Failure(o.0.reason), o.1)
      else
        var fields := FieldsSpec(inp, o.1, constOnly, []);
        if fields.0.Failure? then (Failure(fields.0.error), fields.1)
        else
          var c := TokenConsumed(inp, fields.1, Char('}'));
          if c.0.Fail? then (Failure(c.0.reason), c.1) else (Success(ObjectValue(fields.0.value, loc)), c.1)
    else (Failure(Syntax("invalid value")), s)
  }

  /** The list loop: values up to (not including) the next ']', appended to `acc`. */
  function ItemsSpec(inp: Input, s: LexState, constOnly: bool, acc: seq<Value>): (r: (Result<seq<Value>, Abort>, LexState))
    requires InRange(inp, s)
    ensures InRange(inp, r.1)
    ensures r.0.Success? ==> r.1.next == Char(']') && Remaining(inp, r.1) <= Remaining(inp, s)
    decreases Remaining(inp, s), 1
  {
    if s.next == Char(']') then (Success(acc), s)
    else
      var v := LiteralSpec(inp, s, constOnly);
      if v.0.Failure? then (Failure(v.0.error), v.1)
      else ItemsSpec(inp, v.1, constOnly, acc + [v.0.value])
  }

  /** The object loop: `name: value` pairs up to (not including) the next '}', appended to `acc`. */
  function FieldsSpec(inp: Input, s: LexState, constOnly: bool, acc: seq<ObjectField>): (r: (Result<seq<ObjectField>, Abort>, LexState))
    requires InRange(inp, s)
    ensures InRange(inp, r.1)
    ensures r.0.Success? ==> r.1.next == Char('}') && Remaining(inp, r.1) <= Remaining(inp, s)
    decreases Remaining(inp, s), 1
  {
    if s.next == Char('}') then (Success(acc), s)
    else
      var name := IdentWithLocConsumed(inp, s);
      if name.0.Failure? then (Failure(name.0.error), name.1)
      else
        var colon := TokenConsumed(inp, name.1, Char(':'));
        if colon.0.Fail? then (Failure(colon.0.reason), colon.1)
        else
          var v := LiteralSpec(inp, colon.1, constOnly);
          if v.0.Failure? then (Failure(v.0.error), v.1)
          else FieldsSpec(inp, v.1, constOnly, acc + [ObjectField(name.0.value, v.0.value)])
  }

  // ---------------------------------------------------------------------------
  // Properties

  /**
   * With `constOnly` set (default values), a literal that parses holds no
   * variable at any depth: the flag is passed down into every list item and
   * object field.
   */
  lemma {:induction false} ConstHasNoVariables(inp: Input, s: LexState)
    requires InRange(inp, s)
    ensures var r := LiteralSpec(inp, s, true); r.0.Success? ==> IsConst(r.0.value)
    decreases Remaining(inp, s), 0
  {
    if s.next == Char('[') {
      LiteralList(inp, s, true);
      var o := TokenConsumed(inp, s, Char('['));
      if o.0.Pass? {
        ItemsHaveNoVariables(inp, o.1, []);
      }
    } else if s.next == Char('{') {
      LiteralObject(inp, s, true);
      var o := TokenConsumed(inp, s, Char('{'));
      if o.0.Pass? {
        FieldsHaveNoVariables(inp, o.1, []);
      }
    } else if s.next == Char('$') {
      LiteralVariable(inp, s, true);
    } else if s.next in {Int, Float, String, Kind.Ident} {
      LiteralScalar(inp, s, true);
    } else if s.next == Char('-') {
      LiteralNegated(inp, s, true);
    }
  }

  lemma {:induction false} ItemsHaveNoVariables(inp: Input, s: LexState, acc: seq<Value>)
    requires InRange(inp, s)
    requires forall i :: 0 <= i < |acc| ==> IsConst(acc[i])
    ensures var r := ItemsSpec(inp, s, true, acc);
      r.0.Success? ==> forall i :: 0 <= i < |r.0.value| ==> IsConst(r.0.value[i])
    decreases Remaining(inp, s), 1
  {
    if s.next != Char(']') {
      var v := LiteralSpec(inp, s, true);
      if v.0.Success? {
        ConstHasNoVariables(inp, s);
        ItemsHaveNoVariables(inp, v.1, acc + [v.0.value]);
      }
    }
  }

  lemma {:induction false} FieldsHaveNoVariables(inp: Input, s: LexState, acc: seq<ObjectField>)
    requires InRange(inp, s)
    requires forall i :: 0 <= i < |acc| ==> IsConst(acc[i].value)
    ensures var r := FieldsSpec(inp, s, true, acc);
      r.0.Success? ==> forall i :: 0 <= i < |r.0.value| ==> IsConst(r.0.value[i].value)
    decreases Remaining(inp, s), 1
  {
    if s.next != Char('}') {
      var name := IdentWithLocConsumed(inp, s);
      if name.0.Success? {
        var colon := TokenConsumed(inp, name.1, Char(':'));
        if colon.0.Pass? {
          var v := LiteralSpec(inp, colon.1, true);
          if v.0.Success? {
            ConstHasNoVariables(inp, colon.1);
            FieldsHaveNoVariables(inp, v.1, acc + [ObjectField(name.0.value, v.0.value)]);
          }
        }
      }
    }
  }

  /** `acc` placed in front of a successful loop result; a failure is left as it is. */
  function Prefixed<T>(acc: seq<T>, r: (Result<seq<T>, Abort>, LexState)): (Result<seq<T>, Abort>, LexState) {
    if r.0.Success? then (Success(acc + r.0.value), r.1) else r
  }

  /**
   * The list loop only ever appends: items parsed after `acc` follow it, in
   * the order they appear in the source, and nothing else (the error, the
   * lexer state reached) depends on what was accumulated before.
   */
  lemma {:induction false} ItemsAppend(inp: Input, s: LexState, constOnly: bool, acc: seq<Value>)
    requires InRange(inp, s)
    ensures ItemsSpec(inp, s, constOnly, acc) == Prefixed(acc, ItemsSpec(inp, s, constOnly, []))
    decreases Remaining(inp, s)
  {
    var v := LiteralSpec(inp, s, constOnly);
    if s.next != Char(']') && v.0.Success? {
      var rest := ItemsSpec(inp, v.1, constOnly, []);
      ItemsUnfold(inp, s, constOnly, acc);
      ItemsUnfold(inp, s, constOnly, []);
      ItemsAppend(inp, v.1, constOnly, acc + [v.0.value]);
      ItemsAppend(inp, v.1, constOnly, [v.0.value]);
      assert [] + [v.0.value] == [v.0.value];
      if rest.0.Success? {
        assert acc + [v.0.value] + rest.0.value == acc + ([v.0.value] + rest.0.value);
      }
    } else if s.next == Char(']') {
      assert acc + [] == acc;
    }
  }

  /** One turn of the list loop that parses a value. */
  lemma ItemsUnfold(inp: Input, s: LexState, constOnly: bool, acc: seq<Value>)
    requires InRange(inp, s) && s.next != Char(']')
    ensures var v := LiteralSpec(inp, s, constOnly);
      v.0.Success? ==> ItemsSpec(inp, s, constOnly, acc) == ItemsSpec(inp, v.1, constOnly, acc + [v.0.value])
  {
  }

  /**
   * The object loop only ever appends: fields parsed after `acc` follow it,
   * in the order they appear in the source, repeated names included, and
   * nothing else depends on what was accumulated before.
   */
  lemma {:induction false} FieldsAppend(inp: Input, s: LexState, constOnly: bool, acc: seq<ObjectField>)
    requires InRange(inp, s)
    ensures FieldsSpec(inp, s, constOnly, acc) == Prefixed(acc, FieldsSpec(inp, s, constOnly, []))
    decreases Remaining(inp, s)
  {
    if s.next == Char('}') {
      assert acc + [] == acc;
    } else {
      var name := IdentWithLocConsumed(inp, s);
      if name.0.Success? {
        var colon := TokenConsumed(inp, name.1, Char(':'));
        if colon.0.Pass? {
          var v := LiteralSpec(inp, colon.1, constOnly);
          if v.0.Success? {
            var f := ObjectField(name.0.value, v.0.value);
            var rest := FieldsSpec(inp, v.1, constOnly, []);
            FieldsUnfold(inp, s, constOnly, acc);
            FieldsUnfold(inp, s, constOnly, []);
            FieldsAppend(inp, v.1, constOnly, acc + [f]);
            FieldsAppend(inp, v.1, constOnly, [f]);
            assert [] + [f] == [f];
            if rest.0.Success? {
              assert acc + [f] + rest.0.value == acc + ([f] + rest.0.value);
            }
          }
        }
      }
    }
  }

  /**
   * One turn of the object loop: an identifier, a ':' and a value become
   * one field named by the identifier at its location, appended to `acc`;
   * a failure of any of the three ends the loop with that error.
   */
  lemma FieldsUnfold(inp: Input, s: LexState, constOnly: bool, acc: seq<ObjectField>)
    requires InRange(inp, s) && s.next != Char('}')
    ensures var name := IdentWithLocConsumed(inp, s);
      var colon := TokenConsumed(inp, name.1, Char(':'));
      var v := LiteralSpec(inp, colon.1, constOnly);
      var r := FieldsSpec(inp, s, constOnly, acc);
      && (name.0.Failure? ==> r == (Failure(name.0.error), name.1))
      && (name.0.Success? && colon.0.Fail? ==> r == (Failure(colon.0.reason), colon.1))
      && (name.0.Success? && colon.0.Pass? && v.0.Failure? ==> r == (Failure(v.0.error), v.1))
      && (name.0.Success? && colon.0.Pass? && v.0.Success? ==>
            r == FieldsSpec(inp, v.1, constOnly, acc + [ObjectField(Ident.Ident(s.text, s.pos), v.0.value)]))
  {
  }

  /**
   * What the first token decides on its own: a variable under `constOnly`
   * and a token that cannot start a value are syntax errors that consume
   * nothing; the identifier `null` is the null value and any other scalar
   * token a primitive of its class and text; after a '-', whatever token
   * follows, numeric or not, becomes a primitive of its own class whose
   * text is prefixed with '-'; '$' names the identifier after it; '[' and
   * '{' hold the items and fields their loops read. Every value is located
   * at its first token, and only '$' yields a variable.
   */
  lemma FirstTokenDecides(inp: Input, s: LexState, constOnly: bool)
    requires InRange(inp, s)
    ensures var r := LiteralSpec(inp, s, constOnly);
      && (constOnly && s.next == Char('$') ==> r == (Failure(Syntax("variable not allowed")), s))
      && (s.next !in {Char('$'), Int, Float, String, Kind.Ident, Char('-'), Char('['), Char('{')} ==>
            r == (Failure(Syntax("invalid value")), s))
      && (s.next == Kind.Ident && s.text == "null" && r.0.Success? ==> r.0.value == Null(s.pos))
      && (s.next in {Int, Float, String, Kind.Ident} && !(s.next == Kind.Ident && s.text == "null") && r.0.Success? ==>
            r.0.value == Primitive(s.next, s.text, s.pos))
      && (s.next == Char('-') && r.0.Success? ==>
            var m := TokenConsumed(inp, s, Char('-'));
            r.0.value == Primitive(m.1.next, "-" + m.1.text, s.pos))
      && (s.next == Char('$') && r.0.Success? ==>
            var n := IdentConsumed(inp, TokenConsumed(inp, s, Char('$')).1);
            n.0.Success? && r.0.value == Variable(n.0.value, s.pos))
      && (s.next == Char('[') && r.0.Success? ==>
            var items := ItemsSpec(inp, TokenConsumed(inp, s, Char('[')).1, constOnly, []);
            items.0.Success? && r.0.value == ListValue(items.0.value, s.pos))
      && (s.next == Char('{') && r.0.Success? ==>
            var fields := FieldsSpec(inp, TokenConsumed(inp, s, Char('{')).1, constOnly, []);
            fields.0.Success? && r.0.value == ObjectValue(fields.0.value, s.pos))
      && (r.0.Success? && r.0.value.Variable? ==> !constOnly && s.next == Char('$'))
  {
    if s.next == Char('$') {
      LiteralVariable(inp, s, constOnly);
    } else if s.next in {Int, Float, String, Kind.Ident} {
      LiteralScalar(inp, s, constOnly);
    } else if s.next == Char('-') {
      LiteralNegated(inp, s, constOnly);
    } else if s.next == Char('[') {
      LiteralList(inp, s, constOnly);
    } else if s.next == Char('{') {
      LiteralObject(inp, s, constOnly);
    }
  }

  lemma LiteralVariable(inp: Input, s: LexState, constOnly: bool)
    requires InRange(inp, s) && s.next == Char('$')
    ensures var r := LiteralSpec(inp, s, constOnly);
      && (constOnly ==> r == (Failure(Syntax("variable not allowed")), s))
      && (r.0.Success? ==>
            var n := IdentConsumed(inp, TokenConsumed(inp, s, Char('$')).1);
            !constOnly && n.0.Success? && r.0.value == Variable(n.0.value, s.pos))
  {
  }

  lemma LiteralScalar(inp: Input, s: LexState, constOnly: bool)
    requires InRange(inp, s) && s.next in {Int, Float, String, Kind.Ident}
    ensures var r := LiteralSpec(inp, s, constOnly);
      && (s.next == Kind.Ident && s.text == "null" && r.0.Success? ==> r.0.value == Null(s.pos))
      && (!(s.next == Kind.Ident && s.text == "null") && r.0.Success? ==>
            r.0.value == Primitive(s.next, s.text, s.pos))
  {
  }

  lemma LiteralNegated(inp: Input, s: LexState, constOnly: bool)
    requires InRange(inp, s) && s.next == Char('-')
    ensures var r := LiteralSpec(inp, s, constOnly);
      r.0.Success? ==>
        var m := TokenConsumed(inp, s, Char('-'));
        r.0.value == Primitive(m.1.next, "-" + m.1.text, s.pos)
  {
  }

  lemma LiteralList(inp: Input, s: LexState, constOnly: bool)
    requires InRange(inp, s) && s.next == Char('[')
    ensures var r := LiteralSpec(inp, s, constOnly);
      r.0.Success? ==>
        var items := ItemsSpec(inp, TokenConsumed(inp, s, Char('[')).1, constOnly, []);
        items.0.Success? && r.0.value == ListValue(items.0.value, s.pos)
  {
  }

  lemma LiteralObject(inp: Input, s: LexState, constOnly: bool)
    requires InRange(inp, s) && s.next == Char('{')
    ensures var r := LiteralSpec(inp, s, constOnly);
      r.0.Success? ==>
        var fields := FieldsSpec(inp, TokenConsumed(inp, s, Char('{')).1, constOnly, []);
        fields.0.Success? && r.0.value == ObjectValue(fields.0.value, s.pos)
  {
  }

  method ParseLiteral(l: Lexer, constOnly: bool) returns (r: Result<Value, Abort>)
    requires l.Valid()
    modifies l
    ensures l.Valid() && (r, l.State()) == LiteralSpec(l.Inp(), old(l.State()), constOnly)
    decreases l.Progress(), 0
  {
    var loc := l.Location();
    var next := l.Peek();
    if next == Char('$') {
      if constOnly {
        return Failure(Syntax("variable not allowed"));
      }
      var o := l.ConsumeToken(Char('$'));
      if o.Fail? {
        return Failure(o.reason);
      }
      var name := l.ConsumeIdent();
      if name.Failure? {
        return Failure(name.error);
      }
      return Success(Variable(name.value, loc));
    } else if next == Int || next == Float || next == String || next == Kind.Ident {
      var lit := l.ConsumeLiteral();
      if lit.Failure? {
        return lit;
      }
      if lit.value.kind == Kind.Ident && lit.value.text == "null" {
        return Success(Null(loc));
      }
      return Success(Primitive(lit.value.kind, lit.value.text, loc));
    } else if next == Char('-') {
      var o := l.ConsumeToken(Char('-'));
      if o.Fail? {
        return Failure(o.reason);
      }
      var lit := l.ConsumeLiteral();
      if lit.Failure? {
        return lit;
      }
      return Success(Primitive(lit.value.kind, "-" + lit.value.text, loc));
    } else if next == Char('[') {
      var o := l.ConsumeToken(Char('['));
      if o.Fail? {
        return Failure(o.reason);
      }
      var items := ParseItems(l, constOnly);
      if items.Failure? {
        return Failure(items.error);
      }
      o := l.ConsumeToken(Char(']'));
      if o.Fail? {
        return Failure(o.reason);
      }
      return Success(ListValue(items.value, loc));
    } else if next == Char('{') {
      var o := l.ConsumeToken(Char('{'));
      if o.Fail? {
        return Failure(o.reason);
      }
      var fields := ParseFields(l, constOnly);
      if fields.Failure? {
        return Failure(fields.error);
      }
      o := l.ConsumeToken(Char('}'));
      if o.Fail? {
        return Failure(o.reason);
      }
      return Success(ObjectValue(fields.value, loc));
    }
    r := Failure(Syntax("invalid value"));
  }

  /** The `for l.Peek() != ']'` loop of a list literal. */
  method ParseItems(l: Lexer, constOnly: bool) returns (r: Result<seq<Value>, Abort>)
    requires l.Valid()
    modifies l
    ensures l.Valid() && (r, l.State()) == ItemsSpec(l.Inp(), old(l.State()), constOnly, [])
    decreases l.Progress(), 1
  {
    ghost var goal := ItemsSpec(l.Inp(), l.State(), constOnly, []);
    ghost var start := l.Progress();
    var list: seq<Value> := [];
    while l.Peek() != Char(']')
      invariant l.Valid() && l.Progress() <= start
      invariant ItemsSpec(l.Inp(), l.State(), constOnly, list) == goal
      decreases l.Progress()
    {
      var v := ParseLiteral(l, constOnly);
      if v.Failure? {
        return Failure(v.error);
      }
      list := list + [v.value];
    }
    r := Success(list);
  }

  /** The `for l.Peek() != '}'` loop of an object literal. */
  method ParseFields(l: Lexer, constOnly: bool) returns (r: Result<seq<ObjectField>, Abort>)
    requires l.Valid()
    modifies l
    ensures l.Valid() && (r, l.State()) == FieldsSpec(l.Inp(), old(l.State()), constOnly, [])
    decreases l.Progress(), 1
  {
    ghost var goal := FieldsSpec(l.Inp(), l.State(), constOnly, []);
    ghost var start := l.Progress();
    var fields: seq<ObjectField> := [];
    while l.Peek() != Char('}')
      invariant l.Valid() && l.Progress() <= start
      invariant FieldsSpec(l.Inp(), l.State(), constOnly, fields) == goal
      decreases l.Progress()
    {
      var name := l.ConsumeIdentWithLoc();
      if name.Failure? {
        return Failure(name.error);
      }
      var o := l.ConsumeToken(Char(':'));
      if o.Fail? {
        return Failure(o.reason);
      }
      var v := ParseLiteral(l, constOnly);
      if v.Failure? {
        return Failure(v.error);
      }
      fields := fields + [ObjectField(name.value, v.value)];
    }
    r := Success(fields);
  }
}
