/**
 * The complexity score of an executable document: every field, fragment and
 * operation adds to a running integer by the rules below, fields named in
 * the override map cost exactly their override, and connections multiply
 * their children's cost by the number of items asked for.
 */
module Complexity {
  import opened Wrappers
  import opened Ast
  import Strconv

  const ConnectionComplexity: int := 2
  const ObjectComplexity: int := 1
  const MutationComplexity: int := 10

  /**
   * Variable values, already coerced the way the connection count reads
   * them: `Some(n)` for a JSON number with an int64 value or a float
   * truncated to an integer, `None` for any other value (which counts as 0).
   */
  type Variables = map<string, Option<int>>

  /** The evaluation context, fixed for the whole document. */
  datatype QueryState = QueryState(
    variables: Variables,
    fieldOverrides: map<string, int>,
    fragUsed: map<string, seq<Selection>>)

  /**
   * Why a score could not be computed: the document did not parse, a
   * connection count names a variable that was not supplied, or the nesting
   * (for instance a fragment that spreads itself) is deeper than the frames
   * the evaluation was given.
   */
  datatype EvalError = ParseError(error: QueryError) | UndefinedVariable(message: string) | StackExhausted

  // ---------------------------------------------------------------------------
  // Arguments

  /** `first` and `last` are the arguments that make a field a connection. */
  predicate IsCountArg(a: Argument) {
    a.name.name == "first" || a.name.name == "last"
  }

  /** `isConnection`: some argument is `first` or `last`. */
  predicate IsConnection(args: seq<Argument>)
    decreases |args|
  {
    |args| > 0 && (IsCountArg(args[0]) || IsConnection(args[1..]))
  }

  /** `isOverride`. */
  predicate IsOverride(fieldName: string, fieldOverrides: map<string, int>) {
    fieldName in fieldOverrides
  }

  /** The position of the first `first` or `last` argument. */
  function FirstCountArg(args: seq<Argument>): (r: Option<nat>)
    ensures r.Some? ==> r.value < |args| && IsCountArg(args[r.value])
    ensures r.Some? ==> forall j :: 0 <= j < r.value ==> !IsCountArg(args[j])
    ensures r.None? ==> forall j :: 0 <= j < |args| ==> !IsCountArg(args[j])
    decreases |args|
  {
    if |args| == 0 then None
    else if IsCountArg(args[0]) then Some(0)
    else
      var r := FirstCountArg(args[1..]);
      if r.None? then None else Some(r.value + 1)
  }

  /**
   * The item count one `first`/`last` argument asks for: a literal read by
   * `Atoi` (anything it cannot read counts 0), a variable looked up in the
   * supplied values, and 0 for a list, object or null. The error for a
   * missing variable names the argument, not the variable.
   */
  function CountOf(a: Argument, variables: Variables): Result<int, EvalError> {
    match a.value
    case Primitive(_, text, _) => Success(Strconv.Atoi(text))
    case Variable(name, _) =>
      if name !in variables then Failure(UndefinedVariable("Variable " + a.name.name + " not defined"))
      else Success(variables[name].GetOr(0))
    case _ => Success(0)
  }

  /** `getConnectionNodeCount`: the count of the first `first`/`last` argument, 0 without one. */
  function ConnectionNodeCount(args: seq<Argument>, variables: Variables): Result<int, EvalError>
    decreases |args|
  {
    if |args| == 0 then Success(0)
    else if IsCountArg(args[0]) then CountOf(args[0], variables)
    else ConnectionNodeCount(args[1..], variables)
  }

  /** A field is a connection exactly when it has a `first` or `last` argument. */
  lemma {:induction false} ConnectionIffCountArg(args: seq<Argument>)
    ensures IsConnection(args) <==> FirstCountArg(args).Some?
    ensures IsConnection(args) <==> exists j :: 0 <= j < |args| && IsCountArg(args[j])
    decreases |args|
  {
    if |args| > 0 && !IsCountArg(args[0]) {
      ConnectionIffCountArg(args[1..]);
      if exists j :: 0 <= j < |args| && IsCountArg(args[j]) {
        var j :| 0 <= j < |args| && IsCountArg(args[j]);
        assert IsCountArg(args[1..][j - 1]);
      }
    }
  }

  /**
   * The count comes from the first `first`/`last` argument in source order
   * and from no other; without one it is 0.
   */
  lemma {:induction false} CountFromFirstCountArg(args: seq<Argument>, variables: Variables)
    ensures ConnectionNodeCount(args, variables) ==
      match FirstCountArg(args)
      case None => Success(0)
      case Some(i) => CountOf(args[i], variables)
    decreases |args|
  {
    if |args| > 0 && !IsCountArg(args[0]) {
      CountFromFirstCountArg(args[1..], variables);
    }
  }

  // ---------------------------------------------------------------------------
  // Connection cost

  /**
   * A connection costs its children's score for each item plus the
   * connection constant. This is the cost computed without a bound on the
   * integers; see `ConnectionCostInt64` for what 64-bit arithmetic does.
   */
  function ConnectionCost(itemCount: int, childScore: int): (r: int)
    ensures itemCount >= 0 && childScore >= 0 ==> r >= ConnectionComplexity
    ensures itemCount == 0 ==> r == ConnectionComplexity
  {
    itemCount * childScore + ConnectionComplexity
  }

  /** Asking for more items never makes a connection cheaper. */
  lemma ConnectionCostMonotone(n: int, n': int, c: int)
    requires n <= n' && c >= 0
    ensures ConnectionCost(n, c) <= ConnectionCost(n', c)
  {
    assert n * c <= n' * c by {
      assert (n' - n) * c >= 0;
    }
  }

  /** Two's-complement wrap-around of Go's 64-bit `int`. */
  function Wrap64(x: int): (r: int)
    ensures Strconv.MinInt64 <= r <= Strconv.MaxInt64
    ensures Strconv.MinInt64 <= x <= Strconv.MaxInt64 ==> r == x
  {
    (x - Strconv.MinInt64) % 0x1_0000_0000_0000_0000 + Strconv.MinInt64
  }

  /** `(itemCount * c) + connectionComplexity` as Go evaluates it on 64-bit ints. */
  function ConnectionCostInt64(itemCount: int, childScore: int): int {
    Wrap64(Wrap64(itemCount * childScore) + ConnectionComplexity)
  }

  /**
   * The largest count `Atoi` returns, over a child score of 1, makes the
   * 64-bit cost negative and smaller than that of an empty connection, while
   * the unbounded cost is as large as asked for.
   */
  lemma ConnectionCostOverflows()
    ensures ConnectionCostInt64(Strconv.MaxInt64, 1) == -Strconv.MaxInt64
    ensures ConnectionCostInt64(Strconv.MaxInt64, 1) < ConnectionCostInt64(0, 1)
    ensures ConnectionCost(Strconv.MaxInt64, 1) == Strconv.MaxInt64 + 2
  {
  }

  /** Within the int64 range the two agree. */
  lemma ConnectionCostAgreesInRange(n: int, c: int)
    requires Strconv.MinInt64 <= n * c + ConnectionComplexity <= Strconv.MaxInt64
    requires Strconv.MinInt64 <= n * c <= Strconv.MaxInt64
    ensures ConnectionCostInt64(n, c) == ConnectionCost(n, c)
  {
  }

  // ---------------------------------------------------------------------------
  // Selections

  /**
   * `calculateSelectionComplexity` with `depth` frames available: each
   * nested call takes one, and none left is `StackExhausted`. The score is
   * the sum of the selections' contributions in order; the first error
   * stops the sum.
   */
  function Score(sels: seq<Selection>, st: QueryState, depth: nat): Result<int, EvalError>
    decreases depth, 2, 0
  {
    if depth == 0 then Failure(StackExhausted) else ScoreFrom(sels, 0, 0, st, depth)
  }

  /** The loop of `calculateSelectionComplexity` from index `i`, with `acc` added so far. */
  function ScoreFrom(sels: seq<Selection>, i: nat, acc: int, st: QueryState, depth: nat): Result<int, EvalError>
    requires i <= |sels| && depth >= 1
    decreases depth, 1, |sels| - i
  {
    if i == |sels| then Success(acc)
    else
      var c := Contribution(sels[i], st, depth);
      if c.Failure? then c else ScoreFrom(sels, i + 1, acc + c.value, st, depth)
  }

  /**
   * What one selection adds. A field: its override if it has one; else 0
   * for `pageInfo`; else its children's score for `edges`; else the
   * connection cost for a field with `first`/`last`; else its children's
   * score plus one when it has a selection set, and 0 when it has none. A
   * fragment spread adds the registered fragment's score, or 0 for an
   * unknown name; an inline fragment adds its selections' score.
   */
  function Contribution(sel: Selection, st: QueryState, depth: nat): Result<int, EvalError>
    requires depth >= 1
    decreases depth, 0, 0
  {
    match sel
    case Field(_, name, args, _, selectionSet) =>
      if IsOverride(name.name, st.fieldOverrides) then Success(st.fieldOverrides[name.name])
      else if name.name == "pageInfo" then Success(0)
      else if name.name == "edges" then Score(selectionSet.GetOr([]), st, depth - 1)
      else if IsConnection(args) then
        var c := Score(selectionSet.GetOr([]), st, depth - 1);
        if c.Failure? then c
        else
          var itemCount := ConnectionNodeCount(args, st.variables);
          if itemCount.Failure? then itemCount
          else Success(ConnectionCost(itemCount.value, c.value))
      else if selectionSet.Some? then
        var c := Score(selectionSet.value, st, depth - 1);
        if c.Failure? then c else Success(c.value + ObjectComplexity)
      else Success(0)
    case FragmentSpread(name, _) =>
      if name.name in st.fragUsed then Score(st.fragUsed[name.name], st, depth - 1) else Success(0)
    case InlineFragment(_, selections, _) =>
      Score(selections, st, depth - 1)
  }

  /** Joins two partial results: the first error wins, otherwise the sum. */
  function Plus(x: Result<int, EvalError>, y: Result<int, EvalError>): Result<int, EvalError> {
    if x.Failure? then x else if y.Failure? then y else Success(x.value + y.value)
  }

  /** The accumulator only shifts the result. */
  lemma {:induction false} ScoreFromShift(sels: seq<Selection>, i: nat, acc: int, st: QueryState, depth: nat)
    requires i <= |sels| && depth >= 1
    ensures ScoreFrom(sels, i, acc, st, depth) == Plus(Success(acc), ScoreFrom(sels, i, 0, st, depth))
    decreases |sels| - i
  {
    if i < |sels| {
      var c := Contribution(sels[i], st, depth);
      if c.Success? {
        ScoreFromShift(sels, i + 1, acc + c.value, st, depth);
        ScoreFromShift(sels, i + 1, c.value, st, depth);
      }
    }
  }

  /** Summing from `i` over `a + b` is summing the rest of `a`, then all of `b`. */
  lemma {:induction false} ScoreFromConcat(a: seq<Selection>, b: seq<Selection>, i: nat, st: QueryState, depth: nat)
    requires i <= |a| && depth >= 1
    ensures ScoreFrom(a + b, i, 0, st, depth) == Plus(ScoreFrom(a, i, 0, st, depth), ScoreFrom(b, 0, 0, st, depth))
    decreases |a| - i
  {
    if i == |a| {
      ScoreFromSuffix(a, b, st, depth);
    } else {
      assert (a + b)[i] == a[i];
      var c := Contribution(a[i], st, depth);
      if c.Success? {
        ScoreFromShift(a + b, i + 1, c.value, st, depth);
        ScoreFromShift(a, i + 1, c.value, st, depth);
        ScoreFromConcat(a, b, i + 1, st, depth);
      }
    }
  }

  /** Summing `a + b` from the end of `a` is summing `b`. */
  lemma {:induction false} ScoreFromSuffix(a: seq<Selection>, b: seq<Selection>, st: QueryState, depth: nat)
    requires depth >= 1
    ensures ScoreFrom(a + b, |a|, 0, st, depth) == ScoreFrom(b, 0, 0, st, depth)
  {
    ScoreFromOffset(a, b, 0, 0, st, depth);
  }

  lemma {:induction false} ScoreFromOffset(a: seq<Selection>, b: seq<Selection>, j: nat, acc: int, st: QueryState, depth: nat)
    requires j <= |b| && depth >= 1
    ensures ScoreFrom(a + b, |a| + j, acc, st, depth) == ScoreFrom(b, j, acc, st, depth)
    decreases |b| - j
  {
    if j < |b| {
      assert (a + b)[|a| + j] == b[j];
      var c := Contribution(b[j], st, depth);
      if c.Success? {
        ScoreFromOffset(a, b, j + 1, acc + c.value, st, depth);
      }
    }
  }

  /**
   * A selection set's score is additive: the score of `a + b` is the score
   * of `a` plus the score of `b`, and an error in `a` comes before any in `b`.
   */
  lemma ScoreConcat(a: seq<Selection>, b: seq<Selection>, st: QueryState, depth: nat)
    ensures Score(a + b, st, depth) == Plus(Score(a, st, depth), Score(b, st, depth))
  {
    if depth >= 1 {
      ScoreFromConcat(a, b, 0, st, depth);
    }
  }

  /** One selection scores exactly its contribution. */
  lemma ScoreSingle(sel: Selection, st: QueryState, depth: nat)
    requires depth >= 1
    ensures Score([sel], st, depth) == Contribution(sel, st, depth)
  {
    var c := Contribution(sel, st, depth);
    if c.Success? {
      assert ScoreFrom([sel], 1, 0 + c.value, st, depth) == Success(c.value);
    }
  }

  /**
   * More frames never change a result that did not run out of them: the
   * depth bound only stands in for the stack and does not alter any score.
   */
  lemma {:induction false} ScoreDepth(sels: seq<Selection>, st: QueryState, depth: nat, more: nat)
    requires depth <= more && Score(sels, st, depth) != Failure(StackExhausted)
    ensures Score(sels, st, more) == Score(sels, st, depth)
    decreases depth, 2, 0
  {
    ScoreFromDepth(sels, 0, 0, st, depth, more);
  }

  lemma {:induction false} ScoreFromDepth(sels: seq<Selection>, i: nat, acc: int, st: QueryState, depth: nat, more: nat)
    requires i <= |sels| && 1 <= depth <= more && ScoreFrom(sels, i, acc, st, depth) != Failure(StackExhausted)
    ensures ScoreFrom(sels, i, acc, st, more) == ScoreFrom(sels, i, acc, st, depth)
    decreases depth, 1, |sels| - i
  {
    if i < |sels| {
      ContributionDepth(sels[i], st, depth, more);
      var c := Contribution(sels[i], st, depth);
      if c.Success? {
        ScoreFromDepth(sels, i + 1, acc + c.value, st, depth, more);
      }
    }
  }

  lemma {:induction false} ContributionDepth(sel: Selection, st: QueryState, depth: nat, more: nat)
    requires 1 <= depth <= more
    ensures Contribution(sel, st, depth) != Failure(StackExhausted) ==>
      Contribution(sel, st, more) == Contribution(sel, st, depth)
    decreases depth, 0, 0
  {
    if Contribution(sel, st, depth) != Failure(StackExhausted) {
      match sel
      case Field(_, name, args, _, selectionSet) =>
        if !IsOverride(name.name, st.fieldOverrides) && name.name != "pageInfo" {
          if name.name == "edges" || IsConnection(args) {
            ScoreDepth(selectionSet.GetOr([]), st, depth - 1, more - 1);
          } else if selectionSet.Some? {
            ScoreDepth(selectionSet.value, st, depth - 1, more - 1);
          }
        }
      case FragmentSpread(name, _) =>
        if name.name in st.fragUsed {
          ScoreDepth(st.fragUsed[name.name], st, depth - 1, more - 1);
        }
      case InlineFragment(_, selections, _) =>
        ScoreDepth(selections, st, depth - 1, more - 1);
    }
  }

  /**
   * The field rules, in the order they are tried. An override wins over
   * every other rule and its subtree is not visited; `pageInfo` adds 0 and
   * `edges` exactly its children's score; a connection adds its cost, which
   * is the connection constant alone for a count of 0; any other field adds
   * its children's score plus one when it has a selection set, 0 otherwise.
   */
  lemma FieldRules(alias: Ident, name: Ident, args: seq<Argument>, dirs: seq<Directive>,
                   selSet: Option<seq<Selection>>, st: QueryState, depth: nat)
    requires depth >= 1
    ensures var r := Contribution(Field(alias, name, args, dirs, selSet), st, depth);
      var children := Score(selSet.GetOr([]), st, depth - 1);
      && (name.name in st.fieldOverrides ==> r == Success(st.fieldOverrides[name.name]))
      && (name.name !in st.fieldOverrides && name.name == "pageInfo" ==> r == Success(0))
      && (name.name !in st.fieldOverrides && name.name == "edges" ==> r == children)
      && (name.name !in st.fieldOverrides && name.name != "pageInfo" && name.name != "edges" && IsConnection(args) ==>
            var count := ConnectionNodeCount(args, st.variables);
            && (children.Failure? ==> r == children)
            && (children.Success? && count.Failure? ==> r == count)
            && (children.Success? && count.Success? ==> r == Success(ConnectionCost(count.value, children.value))))
      && (name.name !in st.fieldOverrides && name.name != "pageInfo" && name.name != "edges" && !IsConnection(args) ==>
            r == (if selSet.None? then Success(0) else Plus(children, Success(ObjectComplexity))))
  {
  }

  /**
   * A spread adds its fragment's score, or 0 without error when no fragment
   * has that name; an inline fragment adds its selections' score whatever
   * its type condition.
   */
  lemma FragmentRules(sel: Selection, st: QueryState, depth: nat)
    requires depth >= 1 && !sel.Field?
    ensures sel.FragmentSpread? && sel.name.name !in st.fragUsed ==> Contribution(sel, st, depth) == Success(0)
    ensures sel.FragmentSpread? && sel.name.name in st.fragUsed ==>
      Contribution(sel, st, depth) == Score(st.fragUsed[sel.name.name], st, depth - 1)
    ensures sel.InlineFragment? ==>
      Contribution(sel, st, depth) == Score(sel.selections, st, depth - 1) &&
      Contribution(sel, st, depth) == Contribution(InlineFragment(None, sel.selections, []), st, depth)
  {
  }

  method CalculateSelectionComplexity(sels: seq<Selection>, st: QueryState, depth: nat) returns (r: Result<int, EvalError>)
    ensures r == Score(sels, st, depth)
    decreases depth, 1
  {
    if depth == 0 {
      return Failure(StackExhausted);
    }
    var complexity := 0;
    for i := 0 to |sels|
      invariant ScoreFrom(sels, i, complexity, st, depth) == Score(sels, st, depth)
    {
      var c := SelectionComplexity(sels[i], st, depth);
      if c.Failure? {
        return c;
      }
      complexity := complexity + c.value;
    }
    r := Success(complexity);
  }

  /** The body of the `calculateSelectionComplexity` loop for one selection. */
  method SelectionComplexity(sel: Selection, st: QueryState, depth: nat) returns (r: Result<int, EvalError>)
    requires depth >= 1
    ensures r == Contribution(sel, st, depth)
    decreases depth, 0
  {
    match sel {
      case Field(_, name, args, _, selectionSet) =>
        var fieldName := name.name;
        if fieldName in st.fieldOverrides {
          r := Success(st.fieldOverrides[fieldName]);
        } else if fieldName == "pageInfo" {
          r := Success(0);
        } else if fieldName == "edges" {
          r := CalculateSelectionComplexity(selectionSet.GetOr([]), st, depth - 1);
        } else if IsConnection(args) {
          var c := CalculateSelectionComplexity(selectionSet.GetOr([]), st, depth - 1);
          if c.Failure? {
            return c;
          }
          var itemCount := ConnectionNodeCount(args, st.variables);
          if itemCount.Failure? {
            return itemCount;
          }
          r := Success(itemCount.value * c.value + ConnectionComplexity);
        } else if selectionSet.Some? {
          var c := CalculateSelectionComplexity(selectionSet.value, st, depth - 1);
          if c.Failure? {
            return c;
          }
          r := Success(c.value + ObjectComplexity);
        } else {
          r := Success(0);
        }
      case FragmentSpread(name, _) =>
        if name.name in st.fragUsed {
          r := CalculateSelectionComplexity(st.fragUsed[name.name], st, depth - 1);
        } else {
          r := Success(0);
        }
      case InlineFragment(_, selections, _) =>
        r := CalculateSelectionComplexity(selections, st, depth - 1);
    }
  }

  // ---------------------------------------------------------------------------
  // Mutations

  /**
   * `calculateMutationComplexity`: the mutation constant plus, for each
   * top-level field, what its immediate children add.
   */
  function MutationScore(sels: seq<Selection>, st: QueryState, depth: nat): Result<int, EvalError> {
    if depth == 0 then Failure(StackExhausted) else PayloadsFrom(sels, 0, MutationComplexity, st, depth)
  }

  /** The outer loop from index `i`: only fields count, through their children. */
  function PayloadsFrom(sels: seq<Selection>, i: nat, acc: int, st: QueryState, depth: nat): Result<int, EvalError>
    requires i <= |sels| && depth >= 1
    decreases |sels| - i
  {
    if i == |sels| then Success(acc)
    else if !sels[i].Field? then PayloadsFrom(sels, i + 1, acc, st, depth)
    else
      var c := ChildrenFrom(sels[i].selectionSet.GetOr([]), 0, 0, st, depth);
      if c.Failure? then c else PayloadsFrom(sels, i + 1, acc + c.value, st, depth)
  }

  /**
   * The inner loop from index `j`: a field child adds its own selection
   * set's score (with no override check and no object constant), a spread
   * of a known fragment adds that fragment's score, anything else adds 0.
   */
  function ChildrenFrom(xs: seq<Selection>, j: nat, acc: int, st: QueryState, depth: nat): Result<int, EvalError>
    requires j <= |xs| && depth >= 1
    decreases |xs| - j
  {
    if j == |xs| then Success(acc)
    else
      var c := ChildCost(xs[j], st, depth);
      if c.Failure? then c else ChildrenFrom(xs, j + 1, acc + c.value, st, depth)
  }

  function ChildCost(x: Selection, st: QueryState, depth: nat): Result<int, EvalError>
    requires depth >= 1
  {
    match x
    case Field(_, _, _, _, selectionSet) => Score(selectionSet.GetOr([]), st, depth - 1)
    case FragmentSpread(name, _) =>
      if name.name in st.fragUsed then Score(st.fragUsed[name.name], st, depth - 1) else Success(0)
    case InlineFragment(_, _, _) => Success(0)
  }

  /**
   * Only the children of top-level fields are charged: a top-level spread or
   * inline fragment adds nothing, and a mutation of leaf fields costs the
   * constant alone.
   */
  lemma {:induction false} MutationSkipsNonFields(sels: seq<Selection>, i: nat, acc: int, st: QueryState, depth: nat)
    requires i <= |sels| && depth >= 1
    requires forall k :: i <= k < |sels| ==> !sels[k].Field? || sels[k].selectionSet.GetOr([]) == []
    ensures PayloadsFrom(sels, i, acc, st, depth) == Success(acc)
    decreases |sels| - i
  {
    if i < |sels| {
      MutationSkipsNonFields(sels, i + 1, acc, st, depth);
    }
  }

  /**
   * A payload child field is scored through its selection set only: its
   * name, arguments and directives play no part, so an override of its name
   * or a `first` argument on it changes nothing and no object constant is
   * added.
   */
  lemma ChildIgnoresFieldItself(alias: Ident, name: Ident, args: seq<Argument>, dirs: seq<Directive>,
                                selSet: Option<seq<Selection>>, name': Ident, st: QueryState, depth: nat)
    requires depth >= 1
    ensures ChildCost(Field(alias, name, args, dirs, selSet), st, depth) == ChildCost(Field(name', name', [], [], selSet), st, depth)
    ensures ChildCost(Field(alias, name, args, dirs, selSet), st, depth) == Score(selSet.GetOr([]), st, depth - 1)
  {
  }

  method CalculateMutationComplexity(sels: seq<Selection>, st: QueryState, depth: nat) returns (r: Result<int, EvalError>)
    ensures r == MutationScore(sels, st, depth)
  {
    if depth == 0 {
      return Failure(StackExhausted);
    }
    var complexity := MutationComplexity;
    for i := 0 to |sels|
      invariant PayloadsFrom(sels, i, complexity, st, depth) == MutationScore(sels, st, depth)
    {
      if sels[i].Field? {
        var xs := sels[i].selectionSet.GetOr([]);
        ghost var base := complexity;
        for j := 0 to |xs|
          invariant ChildrenFrom(xs, j, complexity - base, st, depth) == ChildrenFrom(xs, 0, 0, st, depth)
        {
          var c := PayloadChildComplexity(xs[j], st, depth);
          if c.Failure? {
            return c;
          }
          complexity := complexity + c.value;
        }
      }
    }
    r := Success(complexity);
  }

  /** The body of the inner mutation loop for one child. */
  method PayloadChildComplexity(x: Selection, st: QueryState, depth: nat) returns (r: Result<int, EvalError>)
    requires depth >= 1
    ensures r == ChildCost(x, st, depth)
  {
    match x {
      case Field(_, _, _, _, selectionSet) =>
        r := CalculateSelectionComplexity(selectionSet.GetOr([]), st, depth - 1);
      case FragmentSpread(name, _) =>
        if name.name in st.fragUsed {
          r := CalculateSelectionComplexity(st.fragUsed[name.name], st, depth - 1);
        } else {
          r := Success(0);
        }
      case InlineFragment(_, _, _) =>
        r := Success(0);
    }
  }

  // ---------------------------------------------------------------------------
  // Documents

  /** The fragment registry: every fragment by name, a later definition replacing an earlier one. */
  function Registry(fragments: seq<FragmentDefinition>): map<string, seq<Selection>>
    decreases |fragments|
  {
    if |fragments| == 0 then map[]
    else
      var last := fragments[|fragments| - 1];
      Registry(fragments[..|fragments| - 1])[last.name.name := last.selections]
  }

  /**
   * A name is registered exactly when some fragment has it, and it maps to
   * the selections of the last fragment with that name.
   */
  lemma LastDefinitionWins(fragments: seq<FragmentDefinition>, name: string)
    ensures name in Registry(fragments) <==> exists i :: 0 <= i < |fragments| && fragments[i].name.name == name
    ensures name in Registry(fragments) ==> exists i ::
      && 0 <= i < |fragments| && fragments[i].name.name == name
      && Registry(fragments)[name] == fragments[i].selections
      && forall j :: i < j < |fragments| ==> fragments[j].name.name != name
  {
    RegistryKeys(fragments, name);
    if name in Registry(fragments) {
      RegistryValue(fragments, name);
    }
  }

  lemma {:induction false} RegistryKeys(fragments: seq<FragmentDefinition>, name: string)
    ensures name in Registry(fragments) <==> exists i :: 0 <= i < |fragments| && fragments[i].name.name == name
    decreases |fragments|
  {
    if |fragments| > 0 {
      var n := |fragments| - 1;
      var init := fragments[..n];
      RegistryKeys(init, name);
      assert Registry(fragments) == Registry(init)[fragments[n].name.name := fragments[n].selections];
      if fragments[n].name.name != name {
        assert name in Registry(fragments) <==> name in Registry(init);
        if exists i :: 0 <= i < |fragments| && fragments[i].name.name == name {
          var i :| 0 <= i < |fragments| && fragments[i].name.name == name;
          assert init[i].name.name == name;
        }
        if name in Registry(init) {
          var i :| 0 <= i < |init| && init[i].name.name == name;
          assert fragments[i] == init[i];
        }
      }
    }
  }

  lemma {:induction false} RegistryValue(fragments: seq<FragmentDefinition>, name: string)
    requires name in Registry(fragments)
    ensures exists i ::
      && 0 <= i < |fragments| && fragments[i].name.name == name
      && Registry(fragments)[name] == fragments[i].selections
      && forall j :: i < j < |fragments| ==> fragments[j].name.name != name
    decreases |fragments|
  {
    var n := |fragments| - 1;
    var init := fragments[..n];
    assert Registry(fragments) == Registry(init)[fragments[n].name.name := fragments[n].selections];
    if fragments[n].name.name != name {
      assert name in Registry(init) && Registry(fragments)[name] == Registry(init)[name];
      RegistryValue(init, name);
      var i :| && 0 <= i < |init| && init[i].name.name == name
               && Registry(init)[name] == init[i].selections
               && forall j :: i < j < |init| ==> init[j].name.name != name;
      assert fragments[i] == init[i];
      forall j | i < j < |fragments|
        ensures fragments[j].name.name != name
      {
        if j < n {
          assert fragments[j] == init[j];
        }
      }
    }
  }


  /** What one operation adds: a query its selections' score, a mutation its mutation score, a subscription 0. */
  function OperationScore(op: Operation, st: QueryState, depth: nat): Result<int, EvalError> {
    match op.opType
    case Query => Score(op.selections, st, depth)
    case Mutation => MutationScore(op.selections, st, depth)
    case Subscription => Success(0)
  }

  /** The operations loop of `GetQueryComplexity` from index `i`. */
  function OperationsFrom(ops: seq<Operation>, i: nat, acc: int, st: QueryState, depth: nat): Result<int, EvalError>
    requires i <= |ops|
    decreases |ops| - i
  {
    if i == |ops| then Success(acc)
    else
      var c := OperationScore(ops[i], st, depth);
      if c.Failure? then c else OperationsFrom(ops, i + 1, acc + c.value, st, depth)
  }

  /**
   * `GetQueryComplexity`: a document that does not parse is an error; else
   * the sum over its operations in order, scored against the fragments it
   * defines. Any error discards the partial sum.
   */
  function QueryComplexity(parsed: Result<Document, QueryError>, variables: Variables,
                           fieldOverrides: map<string, int>, depth: nat): Result<int, EvalError>
  {
    if parsed.Failure? then Failure(ParseError(parsed.error))
    else
      var st := QueryState(variables, fieldOverrides, Registry(parsed.value.fragments));
      OperationsFrom(parsed.value.operations, 0, 0, st, depth)
  }

  /** The operations' scores add up in order; a subscription adds 0 wherever it stands. */
  lemma {:induction false} SubscriptionsAddNothing(ops: seq<Operation>, k: nat, i: nat, acc: int, st: QueryState, depth: nat)
    requires i <= k < |ops| && ops[k].opType == Subscription
    ensures OperationsFrom(ops, i, acc, st, depth) == OperationsFrom(ops[..k] + ops[k + 1..], i, acc, st, depth)
    decreases |ops| - i
  {
    var rest := ops[..k] + ops[k + 1..];
    if i < k {
      assert rest[i] == ops[i];
      var c := OperationScore(ops[i], st, depth);
      if c.Success? {
        SubscriptionsAddNothing(ops, k, i + 1, acc + c.value, st, depth);
      }
    } else {
      assert ops[k + 1..] == rest[k..];
      SkipSubscription(ops, k, acc, st, depth);
    }
  }

  lemma {:induction false} SkipSubscription(ops: seq<Operation>, k: nat, acc: int, st: QueryState, depth: nat)
    requires k < |ops| && ops[k].opType == Subscription
    ensures OperationsFrom(ops, k, acc, st, depth) == OperationsFrom(ops[..k] + ops[k + 1..], k, acc, st, depth)
  {
    var rest := ops[..k] + ops[k + 1..];
    assert OperationsFrom(ops, k, acc, st, depth) == OperationsFrom(ops, k + 1, acc, st, depth);
    ShiftedOperations(ops, rest, k, k + 1, acc, st, depth);
  }

  lemma {:induction false} ShiftedOperations(ops: seq<Operation>, rest: seq<Operation>, k: nat, j: nat, acc: int, st: QueryState, depth: nat)
    requires k < |ops| && rest == ops[..k] + ops[k + 1..] && k + 1 <= j <= |ops|
    ensures OperationsFrom(ops, j, acc, st, depth) == OperationsFrom(rest, j - 1, acc, st, depth)
    decreases |ops| - j
  {
    if j < |ops| {
      assert rest[j - 1] == ops[j];
      var c := OperationScore(ops[j], st, depth);
      if c.Success? {
        ShiftedOperations(ops, rest, k, j + 1, acc + c.value, st, depth);
      }
    }
  }

  method GetQueryComplexity(parsed: Result<Document, QueryError>, variables: Variables,
                            fieldOverrides: map<string, int>, depth: nat) returns (r: Result<int, EvalError>)
    ensures r == QueryComplexity(parsed, variables, fieldOverrides, depth)
  {
    if parsed.Failure? {
      return Failure(ParseError(parsed.error));
    }
    var doc := parsed.value;
    var fragUsed: map<string, seq<Selection>> := map[];
    for i := 0 to |doc.fragments|
      invariant fragUsed == Registry(doc.fragments[..i])
    {
      assert doc.fragments[..i + 1][..i] == doc.fragments[..i];
      fragUsed := fragUsed[doc.fragments[i].name.name := doc.fragments[i].selections];
    }
    assert doc.fragments[..|doc.fragments|] == doc.fragments;
    var st := QueryState(variables, fieldOverrides, fragUsed);
    var complexity := 0;
    for i := 0 to |doc.operations|
      invariant OperationsFrom(doc.operations, i, complexity, st, depth) == QueryComplexity(parsed, variables, fieldOverrides, depth)
    {
      var op := doc.operations[i];
      var c: Result<int, EvalError>;
      match op.opType {
        case Query => c := CalculateSelectionComplexity(op.selections, st, depth);
        case Mutation => c := CalculateMutationComplexity(op.selections, st, depth);
        case Subscription => c := Success(0);
      }
      if c.Failure? {
        return c;
      }
      complexity := complexity + c.value;
    }
    r := Success(complexity);
  }
}
