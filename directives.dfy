/**
 * Directive lists `@name(args) @name ...`.
 */
module Directives {
  import opened Wrappers
  import opened Ast
  import opened Lexer
  import Arguments
  import Literal

  /**
   * One directive after its '@': the name, blamed one column to the left of
   * the identifier (where the '@' is when the two are adjacent), and its
   * arguments when a '(' follows the name, none otherwise.
   */
  function DirectiveSpec(inp: Input, s: LexState): (r: (Result<Directive, Abort>, LexState))
    requires InRange(inp, s)
    ensures InRange(inp, r.1)
    ensures r.0.Success? ==> Remaining(inp, r.1) < Remaining(inp, s)
    ensures r.0.Success? ==>
      s.next == Kind.Ident && r.0.value.name == Ident.Ident(s.text, Location(s.pos.line, s.pos.column - 1))
  {
    var name := IdentWithLocConsumed(inp, s);
    if name.0.Failure? then (Failure(name.0.error), name.1)
    else
      var id := Ident.Ident(name.0.value.name, Location(name.0.value.loc.line, name.0.value.loc.column - 1));
      var args := if name.1.next == Char('(') then Arguments.ArgumentListSpec(inp, name.1) else (Success([]), name.1);
      if args.0.Failure? then (Failure(args.0.error), args.1) else (Success(Directive(id, args.0.value)), args.1)
  }

  /** `ParseDirectives`: directives for as long as the next token is '@', appended to `acc`. */
  function DirectivesSpec(inp: Input, s: LexState, acc: seq<Directive>): (r: (Result<seq<Directive>, Abort>, LexState))
    requires InRange(inp, s)
    ensures InRange(inp, r.1)
    ensures r.0.Success? ==> r.1.next != Char('@') && Remaining(inp, r.1) <= Remaining(inp, s)
    decreases Remaining(inp, s)
  {
    if s.next != Char('@') then (Success(acc), s)
    else
      var at := TokenConsumed(inp, s, Char('@'));
      if at.0.Fail? then (Failure(at.0.reason), at.1)
      else
        var d := DirectiveSpec(inp, at.1);
        if d.0.Failure? then (Failure(d.0.error), d.1)
        else DirectivesSpec(inp, d.1, acc + [d.0.value])
  }

  /** Without a leading '@' there are no directives and nothing is consumed. */
  lemma NoDirectives(inp: Input, s: LexState)
    requires InRange(inp, s) && s.next != Char('@')
    ensures DirectivesSpec(inp, s, []) == (Success([]), s)
  {
  }

  /**
   * A directive has arguments only if '(' followed its name, and then
   * exactly the ones the argument list parsed.
   */
  lemma ArgumentsOnlyAfterParenthesis(inp: Input, s: LexState)
    requires InRange(inp, s)
    ensures var name := IdentWithLocConsumed(inp, s);
      var r := DirectiveSpec(inp, s);
      && (r.0.Success? && name.1.next != Char('(') ==> r.0.value.arguments == [] && r.1 == name.1)
      && (r.0.Success? && name.1.next == Char('(') ==>
            (r.0.value.arguments, r.1) == (Arguments.ArgumentListSpec(inp, name.1).0.value, Arguments.ArgumentListSpec(inp, name.1).1))
  {
  }

  /** The loop only appends: directives keep their source order, repeats included. */
  lemma {:induction false} DirectivesAppend(inp: Input, s: LexState, acc: seq<Directive>)
    requires InRange(inp, s)
    ensures DirectivesSpec(inp, s, acc) == Literal.Prefixed(acc, DirectivesSpec(inp, s, []))
    decreases Remaining(inp, s)
  {
    if s.next != Char('@') {
      assert acc + [] == acc;
    } else {
      var at := TokenConsumed(inp, s, Char('@'));
      if at.0.Pass? {
        var d := DirectiveSpec(inp, at.1);
        if d.0.Success? {
          var rest := DirectivesSpec(inp, d.1, []);
          DirectivesUnfold(inp, s, acc);
          DirectivesUnfold(inp, s, []);
          DirectivesAppend(inp, d.1, acc + [d.0.value]);
          DirectivesAppend(inp, d.1, [d.0.value]);
          assert [] + [d.0.value] == [d.0.value];
          if rest.0.Success? {
            assert acc + [d.0.value] + rest.0.value == acc + ([d.0.value] + rest.0.value);
          }
        }
      }
    }
  }

  /** One turn of the loop that parses a directive. */
  lemma DirectivesUnfold(inp: Input, s: LexState, acc: seq<Directive>)
    requires InRange(inp, s) && s.next == Char('@')
    ensures var at := TokenConsumed(inp, s, Char('@'));
      var d := DirectiveSpec(inp, at.1);
      at.0.Pass? && d.0.Success? ==> DirectivesSpec(inp, s, acc) == DirectivesSpec(inp, d.1, acc + [d.0.value])
  {
  }

  method ParseDirectives(l: Lexer) returns (r: Result<seq<Directive>, Abort>)
    requires l.Valid()
    modifies l
    ensures l.Valid() && (r, l.State()) == DirectivesSpec(l.Inp(), old(l.State()), [])
  {
    ghost var goal := DirectivesSpec(l.Inp(), l.State(), []);
    var directives: seq<Directive> := [];
    while l.Peek() == Char('@')
      invariant l.Valid()
      invariant DirectivesSpec(l.Inp(), l.State(), directives) == goal
      decreases l.Progress()
    {
      var o := l.ConsumeToken(Char('@'));
      if o.Fail? {
        return Failure(o.reason);
      }
      var d := ParseDirective(l);
      if d.Failure? {
        return Failure(d.error);
      }
      directives := directives + [d.value];
    }
    r := Success(directives);
  }

  /** `DirectiveSpec` once the name and, after a '(', the argument list have been read. */
  lemma DirectiveFrom(inp: Input, s: LexState, name: Result<Ident, Abort>, s1: LexState,
                      args: Result<seq<Argument>, Abort>, s2: LexState)
    requires InRange(inp, s) && (name, s1) == IdentWithLocConsumed(inp, s) && name.Success?
    requires (args, s2) == if s1.next == Char('(') then Arguments.ArgumentListSpec(inp, s1) else (Success([]), s1)
    ensures var id := Ident.Ident(name.value.name, Location(name.value.loc.line, name.value.loc.column - 1));
      DirectiveSpec(inp, s) == if args.Failure? then (Failure(args.error), s2) else (Success(Directive(id, args.value)), s2)
  {
  }

  /** The body of the `ParseDirectives` loop after its '@'. */
  method ParseDirective(l: Lexer) returns (r: Result<Directive, Abort>)
    requires l.Valid()
    modifies l
    ensures l.Valid() && (r, l.State()) == DirectiveSpec(l.Inp(), old(l.State()))
  {
    ghost var s0 := l.State();
    var name := l.ConsumeIdentWithLoc();
    ghost var s1 := l.State();
    assert (name, s1) == IdentWithLocConsumed(l.Inp(), s0);
    if name.Failure? {
      return Failure(name.error);
    }
    var id := Ident.Ident(name.value.name, Location(name.value.loc.line, name.value.loc.column - 1));
    var args: Result<seq<Argument>, Abort> := Success([]);
    if l.Peek() == Char('(') {
      args := Arguments.ParseArgumentList(l);
    }
    DirectiveFrom(l.Inp(), s0, name, s1, args, l.State());
    if args.Failure? {
      return Failure(args.error);
    }
    r := Success(Directive(id, args.value));
  }
}
