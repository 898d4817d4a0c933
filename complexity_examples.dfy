/**
 * The documents the repository's own tests score, built as syntax trees,
 * with the scores those tests expect.
 */
module ComplexityExamples {
  import opened Wrappers
  import opened Ast
  import opened Complexity
  import Strconv

  const Here := Location(0, 0)

  function Id(name: string): Ident {
    Ident.Ident(name, Here)
  }

  function Leaf(name: string): Selection {
    Field(Id(name), Id(name), [], [], None)
  }

  function Object(name: string, sels: seq<Selection>): Selection {
    Field(Id(name), Id(name), [], [], Some(sels))
  }

  function WithArgs(name: string, args: seq<Argument>, sels: seq<Selection>): Selection {
    Field(Id(name), Id(name), args, [], Some(sels))
  }

  function Arg(name: string, value: Value): Argument {
    Argument(Id(name), value)
  }

  function IntLit(text: string): Value {
    Primitive(Kind.Int, text, Here)
  }

  function Query(sels: seq<Selection>): Operation {
    Operation(OperationType.Query, None, sels)
  }

  function Doc(ops: seq<Operation>): Result<Document, QueryError> {
    Success(Document(ops, []))
  }

  /** A document of one operation scores that operation against the fragments it defines. */
  lemma OneOperation(op: Operation, fragments: seq<FragmentDefinition>, variables: Variables,
                     overrides: map<string, int>, depth: nat)
    ensures QueryComplexity(Success(Document([op], fragments)), variables, overrides, depth) ==
      OperationScore(op, QueryState(variables, overrides, Registry(fragments)), depth)
  {
    var st := QueryState(variables, overrides, Registry(fragments));
    var c := OperationScore(op, st, depth);
    if c.Success? {
      assert OperationsFrom([op], 1, 0 + c.value, st, depth) == Success(c.value);
    }
  }

  /** Two selections score the sum of their contributions. */
  lemma ScorePair(a: Selection, b: Selection, st: QueryState, depth: nat)
    requires depth >= 1
    ensures Score([a, b], st, depth) == Plus(Contribution(a, st, depth), Contribution(b, st, depth))
  {
    assert [a] + [b] == [a, b];
    ScoreConcat([a], [b], st, depth);
    ScoreSingle(a, st, depth);
    ScoreSingle(b, st, depth);
  }

  /** Three selections score the sum of their contributions. */
  lemma ScoreTriple(a: Selection, b: Selection, c: Selection, st: QueryState, depth: nat)
    requires depth >= 1
    ensures Score([a, b, c], st, depth) ==
      Plus(Plus(Contribution(a, st, depth), Contribution(b, st, depth)), Contribution(c, st, depth))
  {
    assert [a, b] + [c] == [a, b, c];
    ScoreConcat([a, b], [c], st, depth);
    ScorePair(a, b, st, depth);
    ScoreSingle(c, st, depth);
  }

  /** Four selections score the sum of their contributions. */
  lemma ScoreQuad(a: Selection, b: Selection, c: Selection, d: Selection, st: QueryState, depth: nat)
    requires depth >= 1
    ensures Score([a, b, c, d], st, depth) ==
      Plus(Plus(Plus(Contribution(a, st, depth), Contribution(b, st, depth)), Contribution(c, st, depth)),
           Contribution(d, st, depth))
  {
    assert [a, b, c] + [d] == [a, b, c, d];
    ScoreConcat([a, b, c], [d], st, depth);
    ScoreTriple(a, b, c, st, depth);
    ScoreSingle(d, st, depth);
  }

  /** A mutation of one top-level field costs the constant plus its children. */
  lemma OnePayload(f: Selection, st: QueryState, depth: nat)
    requires depth >= 1 && f.Field?
    ensures MutationScore([f], st, depth) ==
      Plus(Success(MutationComplexity), ChildrenFrom(f.selectionSet.GetOr([]), 0, 0, st, depth))
  {
    var c := ChildrenFrom(f.selectionSet.GetOr([]), 0, 0, st, depth);
    if c.Success? {
      assert PayloadsFrom([f], 1, MutationComplexity + c.value, st, depth) == Success(MutationComplexity + c.value);
    }
  }

  /** Two payload children cost the sum of their costs. */
  lemma ChildrenPair(a: Selection, b: Selection, st: QueryState, depth: nat)
    requires depth >= 1
    ensures ChildrenFrom([a, b], 0, 0, st, depth) == Plus(ChildCost(a, st, depth), ChildCost(b, st, depth))
  {
    var ca := ChildCost(a, st, depth);
    var cb := ChildCost(b, st, depth);
    if ca.Success? && cb.Success? {
      assert ChildrenFrom([a, b], 2, 0 + ca.value + cb.value, st, depth) == Success(ca.value + cb.value);
    }
  }

  /** `groups(first: …, sort: FULL_PATH_ASC) { edges { node { id } } }` */
  function Groups(first: Value): Selection {
    WithArgs("groups", [Arg("first", first), Arg("sort", Primitive(Kind.Ident, "FULL_PATH_ASC", Here))],
      [Object("edges", [Object("node", [Leaf("id")])])])
  }

  /** Without overrides, the children of `Groups` cost 1: one object with a leaf. */
  lemma GroupsChildren(first: Value, st: QueryState)
    requires st.fieldOverrides == map[]
    ensures Score(Groups(first).selectionSet.value, st, 7) == Success(1)
  {
    var node := Object("node", [Leaf("id")]);
    ScoreSingle(Leaf("id"), st, 5);
    ScoreSingle(node, st, 6);
    ScoreSingle(Object("edges", [node]), st, 7);
    assert Contribution(node, st, 6) == Success(1);
  }

  /** A one-query document scores the contribution of its only top-level selection. */
  lemma OneField(g: Selection, variables: Variables, overrides: map<string, int>, depth: nat)
    requires depth >= 1
    ensures QueryComplexity(Doc([Query([g])]), variables, overrides, depth) ==
      Contribution(g, QueryState(variables, overrides, map[]), depth)
  {
    OneOperation(Query([g]), [], variables, overrides, depth);
    assert Registry([]) == map[];
    ScoreSingle(g, QueryState(variables, overrides, map[]), depth);
  }

  /** "Connection with 5 items": 5 items of cost 1, plus 2. */
  lemma ConnectionWithFiveItems()
    ensures QueryComplexity(Doc([Query([Groups(IntLit("5"))])]), map[], map[], 8) == Success(7)
  {
    var st := QueryState(map[], map[], map[]);
    OneField(Groups(IntLit("5")), st.variables, st.fieldOverrides, 8);
    GroupsChildren(IntLit("5"), st);
    assert Strconv.Atoi("5") == 5;
    assert ConnectionNodeCount(Groups(IntLit("5")).arguments, st.variables) == Success(5);
  }

  /** "Connection with 5 items using a variable": the count comes from `$first`. */
  lemma ConnectionCountFromVariable()
    ensures QueryComplexity(Doc([Query([Groups(Variable("first", Here))])]), map["first" := Some(5)], map[], 8) == Success(7)
  {
    var st := QueryState(map["first" := Some(5)], map[], map[]);
    var g := Groups(Variable("first", Here));
    OneField(g, st.variables, st.fieldOverrides, 8);
    GroupsChildren(Variable("first", Here), st);
    assert ConnectionNodeCount(g.arguments, st.variables) == Success(5);
  }

  /** "Connection with missing variable": the error names the argument. */
  lemma MissingVariable()
    ensures QueryComplexity(Doc([Query([Groups(Variable("first", Here))])]), map[], map[], 8) ==
      Failure(UndefinedVariable("Variable first not defined"))
  {
    var st := QueryState(map[], map[], map[]);
    var g := Groups(Variable("first", Here));
    OneField(g, st.variables, st.fieldOverrides, 8);
    GroupsChildren(Variable("first", Here), st);
    assert IsCountArg(g.arguments[0]);
    assert "Variable " + "first" + " not defined" == "Variable first not defined";
    assert CountOf(g.arguments[0], st.variables) == Failure(UndefinedVariable("Variable first not defined"));
  }

  /**
   * The same message when the variable has another name: it is the
   * argument's name that is reported.
   */
  lemma MissingVariableNamesArgument()
    ensures QueryComplexity(Doc([Query([Groups(Variable("count", Here))])]), map[], map[], 8) ==
      Failure(UndefinedVariable("Variable first not defined"))
  {
    var st := QueryState(map[], map[], map[]);
    var g := Groups(Variable("count", Here));
    OneField(g, st.variables, st.fieldOverrides, 8);
    GroupsChildren(Variable("count", Here), st);
    assert IsCountArg(g.arguments[0]);
    assert "Variable " + "first" + " not defined" == "Variable first not defined";
    assert CountOf(g.arguments[0], st.variables) == Failure(UndefinedVariable("Variable first not defined"));
  }

  /** "First connection is 0": whatever the children cost, the connection costs 2. */
  lemma FirstConnectionIsZero()
    ensures QueryComplexity(Doc([Query([
      WithArgs("groups", [Arg("first", IntLit("0")), Arg("sort", Primitive(Kind.Ident, "FULL_PATH_ASC", Here))], [
        Object("pageInfo", [Leaf("hasNextPage"), Leaf("hasPreviousPage")]),
        Object("edges", [Object("node", [Leaf("id"), Leaf("name"), Leaf("fullPath"),
                                        Object("parent", [Leaf("id"), Leaf("name")])])])])])]),
      map[], map["node" := 2, "parent" := 2], 8) == Success(2)
  {
    var st := QueryState(map[], map["node" := 2, "parent" := 2], map[]);
    var node := Object("node", [Leaf("id"), Leaf("name"), Leaf("fullPath"), Object("parent", [Leaf("id"), Leaf("name")])]);
    var pageInfo := Object("pageInfo", [Leaf("hasNextPage"), Leaf("hasPreviousPage")]);
    var edges := Object("edges", [node]);
    var g := WithArgs("groups", [Arg("first", IntLit("0")), Arg("sort", Primitive(Kind.Ident, "FULL_PATH_ASC", Here))], [pageInfo, edges]);
    OneField(g, st.variables, st.fieldOverrides, 8);
    ScoreSingle(node, st, 6);
    assert Contribution(edges, st, 7) == Success(2);
    ScorePair(pageInfo, edges, st, 7);
    assert Strconv.Atoi("0") == 0;
    assert ConnectionNodeCount(g.arguments, st.variables) == Success(0);
  }

  /** "Single object calculation". */
  lemma SingleObject()
    ensures QueryComplexity(Doc([Query([
      WithArgs("group", [Arg("fullPath", Primitive(Kind.String, "\"colonies\"", Here))], [Leaf("name")])])]),
      map[], map[], 8) == Success(1)
  {
    var st := QueryState(map[], map[], map[]);
    var g := WithArgs("group", [Arg("fullPath", Primitive(Kind.String, "\"colonies\"", Here))], [Leaf("name")]);
    OneField(g, st.variables, st.fieldOverrides, 8);
    ConnectionIffCountArg(g.arguments);
    assert !IsCountArg(g.arguments[0]);
    ScoreSingle(Leaf("name"), st, 7);
  }

  /** "Override": `node` costs 2 without its subtree, twice, plus 2. */
  lemma Override()
    ensures QueryComplexity(Doc([Query([
      WithArgs("groups", [Arg("first", IntLit("2"))], [
        Object("edges", [Object("node", [Leaf("id"), Leaf("name"), Object("parent", [Leaf("id")])])])])])]),
      map[], map["parent" := 2, "node" := 2], 8) == Success(6)
  {
    var st := QueryState(map[], map["parent" := 2, "node" := 2], map[]);
    var node := Object("node", [Leaf("id"), Leaf("name"), Object("parent", [Leaf("id")])]);
    var edges := Object("edges", [node]);
    var g := WithArgs("groups", [Arg("first", IntLit("2"))], [edges]);
    OneField(g, st.variables, st.fieldOverrides, 8);
    ScoreSingle(node, st, 6);
    ScoreSingle(edges, st, 7);
    assert Strconv.Atoi("2") == 2;
    assert ConnectionNodeCount(g.arguments, st.variables) == Success(2);
  }

  /** "Override-connection": the override is tried before the connection rule. */
  lemma OverrideConnection()
    ensures QueryComplexity(Doc([Query([
      WithArgs("groups", [Arg("first", IntLit("2"))], [
        Object("edges", [Object("node", [Leaf("id"), Leaf("name"), Object("parent", [Leaf("id")])])])])])]),
      map[], map["groups" := 4], 8) == Success(4)
  {
    var g := WithArgs("groups", [Arg("first", IntLit("2"))], [
      Object("edges", [Object("node", [Leaf("id"), Leaf("name"), Object("parent", [Leaf("id")])])])]);
    OneField(g, map[], map["groups" := 4], 8);
  }

  /** "Fragment Calculation on connection": the spread stands for the fragment's selections. */
  lemma FragmentOnConnection()
    ensures QueryComplexity(Success(Document(
      [Query([WithArgs("groups", [Arg("first", IntLit("5"))], [FragmentSpread(Id("connection"), [])])])],
      [FragmentDefinition(Id("connection"), Id("GroupConnection"), [
        Object("pageInfo", [Leaf("endCursor"), Leaf("startCursor")]),
        Object("edges", [Object("node", [Leaf("id"), Leaf("name"), Object("parent", [Leaf("name")])])])])])),
      map[], map[], 8) == Success(12)
  {
    var parent := Object("parent", [Leaf("name")]);
    var node := Object("node", [Leaf("id"), Leaf("name"), parent]);
    var pageInfo := Object("pageInfo", [Leaf("endCursor"), Leaf("startCursor")]);
    var edges := Object("edges", [node]);
    var frags := [FragmentDefinition(Id("connection"), Id("GroupConnection"), [pageInfo, edges])];
    var st := QueryState(map[], map[], map["connection" := [pageInfo, edges]]);
    var spread := FragmentSpread(Id("connection"), []);
    var g := WithArgs("groups", [Arg("first", IntLit("5"))], [spread]);
    OneOperation(Query([g]), frags, st.variables, st.fieldOverrides, 8);
    assert Registry(frags) == st.fragUsed;
    ScoreSingle(g, st, 8);
    ScoreSingle(Leaf("name"), st, 3);
    ScoreTriple(Leaf("id"), Leaf("name"), parent, st, 4);
    ScoreSingle(node, st, 5);
    ScorePair(pageInfo, edges, st, 6);
    assert Score([pageInfo, edges], st, 6) == Success(2);
    ScoreSingle(spread, st, 7);
    assert Strconv.Atoi("5") == 5;
    assert ConnectionNodeCount(g.arguments, st.variables) == Success(5);
  }

  /** A spread of a fragment the document does not define adds nothing and is no error. */
  lemma UnknownFragment()
    ensures QueryComplexity(Doc([Query([WithArgs("groups", [Arg("first", IntLit("5"))], [FragmentSpread(Id("missing"), [])])])]),
      map[], map[], 8) == Success(2)
  {
    var st := QueryState(map[], map[], map[]);
    var spread := FragmentSpread(Id("missing"), []);
    var g := WithArgs("groups", [Arg("first", IntLit("5"))], [spread]);
    OneField(g, st.variables, st.fieldOverrides, 8);
    ScoreSingle(spread, st, 7);
    assert Strconv.Atoi("5") == 5;
  }

  /** "Mutation-Update Group": the payload's leaf children add nothing to the base 10. */
  lemma MutationUpdate()
    ensures QueryComplexity(Doc([Operation(Mutation, None, [
      WithArgs("updateGroup", [Arg("input", ObjectValue([], Here))], [Leaf("clientMutationId"), Object("problems", [Leaf("message")])])])]),
      map[], map[], 8) == Success(10)
  {
    var st := QueryState(map[], map[], map[]);
    var problems := Object("problems", [Leaf("message")]);
    var f := WithArgs("updateGroup", [Arg("input", ObjectValue([], Here))], [Leaf("clientMutationId"), problems]);
    OneOperation(Operation(Mutation, None, [f]), [], st.variables, st.fieldOverrides, 8);
    assert Registry([]) == map[];
    OnePayload(f, st, 8);
    ChildrenPair(Leaf("clientMutationId"), problems, st, 8);
    ScoreSingle(Leaf("message"), st, 7);
  }

  /** "Mutation-Create calculation": 10, plus the `group` child's selections (a connection of cost 4). */
  lemma MutationCreate()
    ensures QueryComplexity(Doc([Operation(Mutation, None, [
      WithArgs("createGroup", [Arg("input", ObjectValue([], Here))], [
        Object("group", [Leaf("id"), Leaf("name"),
          WithArgs("decendentGroups", [Arg("first", IntLit("1"))], [
            Object("edges", [Object("node", [Leaf("id"), Leaf("name"), Object("parent", [Leaf("id"), Leaf("name")])])])])]),
        Object("problems", [Leaf("message")])])])]),
      map[], map[], 8) == Success(14)
  {
    var st := QueryState(map[], map[], map[]);
    var parent := Object("parent", [Leaf("id"), Leaf("name")]);
    var node := Object("node", [Leaf("id"), Leaf("name"), parent]);
    var edges := Object("edges", [node]);
    var dg := WithArgs("decendentGroups", [Arg("first", IntLit("1"))], [edges]);
    var group := Object("group", [Leaf("id"), Leaf("name"), dg]);
    var problems := Object("problems", [Leaf("message")]);
    var f := WithArgs("createGroup", [Arg("input", ObjectValue([], Here))], [group, problems]);
    OneOperation(Operation(Mutation, None, [f]), [], st.variables, st.fieldOverrides, 8);
    assert Registry([]) == map[];
    OnePayload(f, st, 8);
    ChildrenPair(group, problems, st, 8);
    ScoreSingle(Leaf("message"), st, 7);
    GroupChildrenCosts(st);
  }

  /** The children of "Mutation-Create"'s `group`: one item of cost 2 in a connection, plus 2. */
  lemma GroupChildrenCosts(st: QueryState)
    requires st.fieldOverrides == map[]
    ensures Score([Leaf("id"), Leaf("name"),
          WithArgs("decendentGroups", [Arg("first", IntLit("1"))], [
            Object("edges", [Object("node", [Leaf("id"), Leaf("name"), Object("parent", [Leaf("id"), Leaf("name")])])])])], st, 7)
         == Success(4)
  {
    var parent := Object("parent", [Leaf("id"), Leaf("name")]);
    var node := Object("node", [Leaf("id"), Leaf("name"), parent]);
    var edges := Object("edges", [node]);
    var dg := WithArgs("decendentGroups", [Arg("first", IntLit("1"))], [edges]);
    NodeWithParentCosts(st, 5);
    ScoreSingle(node, st, 5);
    ScoreSingle(edges, st, 6);
    assert Strconv.Atoi("1") == 1;
    assert ConnectionNodeCount(dg.arguments, st.variables) == Success(1);
    assert Contribution(dg, st, 7) == Success(4);
    ScoreTriple(Leaf("id"), Leaf("name"), dg, st, 7);
  }

  /** "Mutation-Frag Test": a spread among the payload's children adds its fragment's score. */
  lemma MutationWithFragment()
    ensures QueryComplexity(Success(Document(
      [Operation(Mutation, None, [
        WithArgs("createGroup", [Arg("input", ObjectValue([], Here))], [
          FragmentSpread(Id("groupFragment"), []), Object("problems", [Leaf("message")])])])],
      [FragmentDefinition(Id("groupFragment"), Id("Group"), [
        Object("edges", [Object("node", [Leaf("id"), Leaf("name"), Object("parent", [Leaf("id"), Leaf("name")])])])])])),
      map[], map[], 8) == Success(12)
  {
    var parent := Object("parent", [Leaf("id"), Leaf("name")]);
    var node := Object("node", [Leaf("id"), Leaf("name"), parent]);
    var edges := Object("edges", [node]);
    var frags := [FragmentDefinition(Id("groupFragment"), Id("Group"), [edges])];
    var st := QueryState(map[], map[], map["groupFragment" := [edges]]);
    var spread := FragmentSpread(Id("groupFragment"), []);
    var problems := Object("problems", [Leaf("message")]);
    var f := WithArgs("createGroup", [Arg("input", ObjectValue([], Here))], [spread, problems]);
    OneOperation(Operation(Mutation, None, [f]), frags, st.variables, st.fieldOverrides, 8);
    assert Registry(frags) == st.fragUsed;
    OnePayload(f, st, 8);
    ChildrenPair(spread, problems, st, 8);
    ScoreSingle(Leaf("message"), st, 7);
    ScorePair(Leaf("id"), Leaf("name"), st, 4);
    ScoreTriple(Leaf("id"), Leaf("name"), parent, st, 5);
    ScoreSingle(node, st, 6);
    ScoreSingle(edges, st, 7);
  }

  /** "query with nested fragments": 100 items of cost 2, plus 2, inside an object. */
  lemma NestedFragments()
    ensures QueryComplexity(Doc([Query([
      Object("me", [InlineFragment(Some(Id("User")), [
        WithArgs("memberships", [Arg("first", IntLit("100"))], [
          Object("edges", [Object("node", [Leaf("id"), Leaf("role"), Object("namespace", [
            InlineFragment(Some(Id("Group")), [Leaf("fullPath")], []),
            InlineFragment(Some(Id("Workspace")), [Leaf("fullPath")], [])])])])])], [])])])]),
      map[], map[], 8) == Success(203)
  {
    var st := QueryState(map[], map[], map[]);
    var onGroup := InlineFragment(Some(Id("Group")), [Leaf("fullPath")], []);
    var onWorkspace := InlineFragment(Some(Id("Workspace")), [Leaf("fullPath")], []);
    var namespace := Object("namespace", [onGroup, onWorkspace]);
    var node := Object("node", [Leaf("id"), Leaf("role"), namespace]);
    var edges := Object("edges", [node]);
    var memberships := WithArgs("memberships", [Arg("first", IntLit("100"))], [edges]);
    var onUser := InlineFragment(Some(Id("User")), [memberships], []);
    var me := Object("me", [onUser]);
    OneField(me, st.variables, st.fieldOverrides, 8);
    MembershipsCosts(st);
    ScoreSingle(memberships, st, 6);
    ScoreSingle(onUser, st, 7);
  }

  /** 100 memberships of cost 2 each (1 for the namespace, 1 for the node), plus 2. */
  lemma MembershipsCosts(st: QueryState)
    requires st.fieldOverrides == map[]
    ensures Contribution(WithArgs("memberships", [Arg("first", IntLit("100"))], [
          Object("edges", [Object("node", [Leaf("id"), Leaf("role"), Object("namespace", [
            InlineFragment(Some(Id("Group")), [Leaf("fullPath")], []),
            InlineFragment(Some(Id("Workspace")), [Leaf("fullPath")], [])])])])]), st, 6)
         == Success(202)
  {
    var onGroup := InlineFragment(Some(Id("Group")), [Leaf("fullPath")], []);
    var onWorkspace := InlineFragment(Some(Id("Workspace")), [Leaf("fullPath")], []);
    var namespace := Object("namespace", [onGroup, onWorkspace]);
    var node := Object("node", [Leaf("id"), Leaf("role"), namespace]);
    var edges := Object("edges", [node]);
    var memberships := WithArgs("memberships", [Arg("first", IntLit("100"))], [edges]);
    ScoreSingle(Leaf("fullPath"), st, 1);
    ScorePair(onGroup, onWorkspace, st, 2);
    ScoreTriple(Leaf("id"), Leaf("role"), namespace, st, 3);
    ScoreSingle(node, st, 4);
    ScoreSingle(edges, st, 5);
    assert Strconv.Atoi("100") == 100;
    assert ConnectionNodeCount(memberships.arguments, st.variables) == Success(100);
  }

  /** The innermost connection of "Multiple subconnections": `last: 0`. */
  function Sub0(): Selection
  {
    WithArgs("decendentGroups", [Arg("last", IntLit("0"))], [
      Object("edges", [Object("node", [Leaf("id"), Leaf("name"), Leaf("description")])])])
  }

  /** The connection around `Sub0`: `first: 4`. */
  function Sub4(): Selection
  {
    WithArgs("decendentGroups", [Arg("first", IntLit("4"))], [
      Object("edges", [Object("node", [Leaf("id"), Leaf("name"), Object("parent", [Leaf("id"), Leaf("name")]), Sub0()])])])
  }

  /** The connection around `Sub4`: `last: 3`. */
  function Sub3(): Selection
  {
    WithArgs("decendentGroups", [Arg("last", IntLit("3"))], [
      Object("edges", [Object("node", [Leaf("id"), Leaf("name"), Sub4()])])])
  }

  /** A connection asking for no items still costs the connection constant. */
  lemma Sub0Costs(st: QueryState)
    requires st.fieldOverrides == map[]
    ensures Contribution(Sub0(), st, 7) == Success(2)
  {
    var node := Object("node", [Leaf("id"), Leaf("name"), Leaf("description")]);
    ScoreTriple(Leaf("id"), Leaf("name"), Leaf("description"), st, 4);
    ScoreSingle(node, st, 5);
    ScoreSingle(Object("edges", [node]), st, 6);
    assert Strconv.Atoi("0") == 0;
    assert ConnectionNodeCount(Sub0().arguments, st.variables) == Success(0);
  }

  /** Four items of cost 1 + 1 + 2, plus the connection constant. */
  lemma Sub4Costs(st: QueryState)
    requires st.fieldOverrides == map[]
    ensures Contribution(Sub4(), st, 10) == Success(18)
  {
    var parent := Object("parent", [Leaf("id"), Leaf("name")]);
    var node := Object("node", [Leaf("id"), Leaf("name"), parent, Sub0()]);
    Sub0Costs(st);
    ScorePair(Leaf("id"), Leaf("name"), st, 6);
    ScoreQuad(Leaf("id"), Leaf("name"), parent, Sub0(), st, 7);
    ScoreSingle(node, st, 8);
    ScoreSingle(Object("edges", [node]), st, 9);
    assert Strconv.Atoi("4") == 4;
    assert ConnectionNodeCount(Sub4().arguments, st.variables) == Success(4);
  }

  /** Three items of cost 1 + 18, plus the connection constant. */
  lemma Sub3Costs(st: QueryState)
    requires st.fieldOverrides == map[]
    ensures Contribution(Sub3(), st, 13) == Success(59)
  {
    var node := Object("node", [Leaf("id"), Leaf("name"), Sub4()]);
    Sub4Costs(st);
    ScoreTriple(Leaf("id"), Leaf("name"), Sub4(), st, 10);
    ScoreSingle(node, st, 11);
    ScoreSingle(Object("edges", [node]), st, 12);
    assert Strconv.Atoi("3") == 3;
    assert ConnectionNodeCount(Sub3().arguments, st.variables) == Success(3);
  }

  /** Each of the outer connection's items: 1 for `parent` and 59 for `Sub3`, plus 1. */
  lemma GroupsEdgesCosts(st: QueryState)
    requires st.fieldOverrides == map[]
    ensures Contribution(Object("edges", [Object("node", [Leaf("id"), Leaf("name"), Object("parent", [Leaf("id")]), Sub3()])]), st, 15)
         == Success(61)
  {
    var parent := Object("parent", [Leaf("id")]);
    var node := Object("node", [Leaf("id"), Leaf("name"), parent, Sub3()]);
    Sub3Costs(st);
    ScoreSingle(Leaf("id"), st, 12);
    ScoreQuad(Leaf("id"), Leaf("name"), parent, Sub3(), st, 13);
    ScoreSingle(node, st, 14);
  }

  /**
   * "Multiple subconnections, one with 0 arg": connections nested four deep,
   * the innermost asking for no items and costing 2.
   */
  lemma MultipleSubconnections()
    ensures QueryComplexity(Doc([Query([
      WithArgs("groups", [Arg("first", IntLit("2"))], [
        Object("edges", [Object("node", [Leaf("id"), Leaf("name"), Object("parent", [Leaf("id")]), Sub3()])])])])]),
      map[], map[], 16) == Success(124)
  {
    var st := QueryState(map[], map[], map[]);
    var parent := Object("parent", [Leaf("id")]);
    var node := Object("node", [Leaf("id"), Leaf("name"), parent, Sub3()]);
    var edges := Object("edges", [node]);
    var g := WithArgs("groups", [Arg("first", IntLit("2"))], [edges]);
    OneField(g, st.variables, st.fieldOverrides, 16);
    GroupsEdgesCosts(st);
    ScoreSingle(edges, st, 15);
    assert Strconv.Atoi("2") == 2;
    assert ConnectionNodeCount(g.arguments, st.variables) == Success(2);
  }

  /** "Mutation-Create: calculation no parent": 10, plus a connection of 3 items of cost 1. */
  lemma MutationCreateNoParent()
    ensures QueryComplexity(Doc([Operation(Mutation, None, [
      WithArgs("createGroup", [Arg("input", ObjectValue([], Here))], [
        Object("group", [Leaf("id"), Leaf("name"),
          WithArgs("decendentGroups", [Arg("first", IntLit("3"))], [
            Object("edges", [Object("node", [Leaf("id"), Leaf("name")])])])]),
        Object("problems", [Leaf("message")])])])]),
      map[], map[], 8) == Success(15)
  {
    var st := QueryState(map[], map[], map[]);
    var node := Object("node", [Leaf("id"), Leaf("name")]);
    var edges := Object("edges", [node]);
    var dg := WithArgs("decendentGroups", [Arg("first", IntLit("3"))], [edges]);
    var group := Object("group", [Leaf("id"), Leaf("name"), dg]);
    var problems := Object("problems", [Leaf("message")]);
    var f := WithArgs("createGroup", [Arg("input", ObjectValue([], Here))], [group, problems]);
    OneOperation(Operation(Mutation, None, [f]), [], st.variables, st.fieldOverrides, 8);
    assert Registry([]) == map[];
    OnePayload(f, st, 8);
    ChildrenPair(group, problems, st, 8);
    ScoreSingle(Leaf("message"), st, 7);
    ScorePair(Leaf("id"), Leaf("name"), st, 4);
    ScoreSingle(node, st, 5);
    ScoreSingle(edges, st, 6);
    assert Strconv.Atoi("3") == 3;
    assert ConnectionNodeCount(dg.arguments, st.variables) == Success(3);
    assert Contribution(dg, st, 7) == Success(5);
    ScoreTriple(Leaf("id"), Leaf("name"), dg, st, 7);
  }

  /** A node with a `parent` object costs 2: 1 for the parent and 1 for itself. */
  lemma NodeWithParentCosts(st: QueryState, depth: nat)
    requires st.fieldOverrides == map[] && depth >= 3
    ensures Contribution(Object("node", [Leaf("id"), Leaf("name"), Object("parent", [Leaf("id"), Leaf("name")])]), st, depth)
         == Success(2)
  {
    var parent := Object("parent", [Leaf("id"), Leaf("name")]);
    ScorePair(Leaf("id"), Leaf("name"), st, depth - 2);
    ScoreTriple(Leaf("id"), Leaf("name"), parent, st, depth - 1);
  }

  /** "Multiple Fragment Calculation": two spreads add their fragments' scores, 0 and 2. */
  lemma MultipleFragments()
    ensures QueryComplexity(Success(Document(
      [Query([WithArgs("groups", [Arg("first", IntLit("5"))], [FragmentSpread(Id("connection"), []), FragmentSpread(Id("test"), [])])])],
      [FragmentDefinition(Id("connection"), Id("GroupConnection"), [
         Object("pageInfo", [Leaf("endCursor"), Leaf("startCursor")])]),
       FragmentDefinition(Id("test"), Id("GroupConnection"), [
         Object("edges", [Object("node", [Leaf("id"), Leaf("name"), Object("parent", [Leaf("id"), Leaf("name")])])])])])),
      map[], map[], 8) == Success(12)
  {
    var parent := Object("parent", [Leaf("id"), Leaf("name")]);
    var node := Object("node", [Leaf("id"), Leaf("name"), parent]);
    var edges := Object("edges", [node]);
    var pageInfo := Object("pageInfo", [Leaf("endCursor"), Leaf("startCursor")]);
    var frags := [FragmentDefinition(Id("connection"), Id("GroupConnection"), [pageInfo]),
                  FragmentDefinition(Id("test"), Id("GroupConnection"), [edges])];
    var st := QueryState(map[], map[], map["connection" := [pageInfo], "test" := [edges]]);
    var c := FragmentSpread(Id("connection"), []);
    var t := FragmentSpread(Id("test"), []);
    var g := WithArgs("groups", [Arg("first", IntLit("5"))], [c, t]);
    OneOperation(Query([g]), frags, st.variables, st.fieldOverrides, 8);
    assert frags[..1] == [frags[0]];
    assert Registry(frags[..1]) == map["connection" := frags[0].selections];
    assert Registry(frags) == st.fragUsed;
    ScoreSingle(g, st, 8);
    NodeWithParentCosts(st, 5);
    ScoreSingle(node, st, 5);
    ScoreSingle(edges, st, 6);
    ScoreSingle(pageInfo, st, 6);
    ScorePair(c, t, st, 7);
    assert Strconv.Atoi("5") == 5;
    assert ConnectionNodeCount(g.arguments, st.variables) == Success(5);
  }

  /** "Fragment Calculation with sub connection": a connection inside a fragment is charged there. */
  lemma FragmentWithSubconnection()
    ensures QueryComplexity(Success(Document(
      [Query([WithArgs("groups", [Arg("first", IntLit("5"))], [FragmentSpread(Id("connection"), []), FragmentSpread(Id("test"), [])])])],
      [FragmentDefinition(Id("connection"), Id("GroupConnection"), [
         Object("edges", [Object("node", [Leaf("id"), Leaf("name"),
           WithArgs("decendentGroups", [Arg("first", IntLit("1"))], [
             Object("edges", [Object("node", [Leaf("id"), Leaf("name")])])])])])]),
       FragmentDefinition(Id("test"), Id("GroupConnection"), [
         Object("pageInfo", [Leaf("endCursor"), Leaf("startCursor")])])])),
      map[], map[], 8) == Success(22)
  {
    var inner := Object("node", [Leaf("id"), Leaf("name")]);
    var innerEdges := Object("edges", [inner]);
    var dg := WithArgs("decendentGroups", [Arg("first", IntLit("1"))], [innerEdges]);
    var node := Object("node", [Leaf("id"), Leaf("name"), dg]);
    var edges := Object("edges", [node]);
    var pageInfo := Object("pageInfo", [Leaf("endCursor"), Leaf("startCursor")]);
    var frags := [FragmentDefinition(Id("connection"), Id("GroupConnection"), [edges]),
                  FragmentDefinition(Id("test"), Id("GroupConnection"), [pageInfo])];
    var st := QueryState(map[], map[], map["connection" := [edges], "test" := [pageInfo]]);
    var c := FragmentSpread(Id("connection"), []);
    var t := FragmentSpread(Id("test"), []);
    var g := WithArgs("groups", [Arg("first", IntLit("5"))], [c, t]);
    OneOperation(Query([g]), frags, st.variables, st.fieldOverrides, 8);
    assert frags[..1] == [frags[0]];
    assert Registry(frags[..1]) == map["connection" := frags[0].selections];
    assert Registry(frags) == st.fragUsed;
    ScoreSingle(g, st, 8);
    SubconnectionFragmentCosts(st);
    ScoreSingle(edges, st, 6);
    ScoreSingle(pageInfo, st, 6);
    ScorePair(c, t, st, 7);
    assert Strconv.Atoi("5") == 5;
    assert ConnectionNodeCount(g.arguments, st.variables) == Success(5);
  }

  /** The "connection" fragment of "Fragment Calculation with sub connection": one item of cost 1, plus 2, plus 1. */
  lemma SubconnectionFragmentCosts(st: QueryState)
    requires st.fieldOverrides == map[]
    ensures Contribution(Object("edges", [Object("node", [Leaf("id"), Leaf("name"),
           WithArgs("decendentGroups", [Arg("first", IntLit("1"))], [
             Object("edges", [Object("node", [Leaf("id"), Leaf("name")])])])])]), st, 6)
         == Success(4)
  {
    var inner := Object("node", [Leaf("id"), Leaf("name")]);
    var innerEdges := Object("edges", [inner]);
    var dg := WithArgs("decendentGroups", [Arg("first", IntLit("1"))], [innerEdges]);
    var node := Object("node", [Leaf("id"), Leaf("name"), dg]);
    ScorePair(Leaf("id"), Leaf("name"), st, 1);
    ScoreSingle(inner, st, 2);
    ScoreSingle(innerEdges, st, 3);
    assert Strconv.Atoi("1") == 1;
    assert ConnectionNodeCount(dg.arguments, st.variables) == Success(1);
    assert Contribution(dg, st, 4) == Success(3);
    ScoreTriple(Leaf("id"), Leaf("name"), dg, st, 4);
    ScoreSingle(node, st, 5);
  }

  /** A subscription adds nothing to the document's total. */
  lemma SubscriptionAddsNothing()
    ensures QueryComplexity(Doc([Operation(Subscription, None, [Groups(IntLit("5"))]), Query([Groups(IntLit("5"))])]),
      map[], map[], 8) == Success(7)
  {
    var st := QueryState(map[], map[], map[]);
    var g := Groups(IntLit("5"));
    var ops := [Operation(Subscription, None, [g]), Query([g])];
    assert Registry([]) == map[];
    SubscriptionsAddNothing(ops, 0, 0, 0, st, 8);
    assert ops[..0] + ops[1..] == [Query([g])];
    ConnectionWithFiveItems();
  }

  /** A document that does not parse scores nothing. */
  lemma ParseErrorScoresNothing(e: QueryError)
    ensures QueryComplexity(Failure(e), map[], map[], 8) == Failure(ParseError(e))
  {
  }

  /**
   * The largest `first` an int64 holds, over a child score of 1:
   * unbounded, the connection costs 2^63 + 1; with the source's 64-bit
   * arithmetic the same connection costs -(2^63 - 1).
   */
  lemma HugeFirst()
    ensures QueryComplexity(Doc([Query([Groups(Variable("first", Here))])]), map["first" := Some(Strconv.MaxInt64)], map[], 8) ==
      Success(Strconv.MaxInt64 + 2)
    ensures ConnectionCostInt64(Strconv.MaxInt64, 1) < 0
  {
    var st := QueryState(map["first" := Some(Strconv.MaxInt64)], map[], map[]);
    var g := Groups(Variable("first", Here));
    OneField(g, st.variables, st.fieldOverrides, 8);
    GroupsChildren(Variable("first", Here), st);
    assert ConnectionNodeCount(g.arguments, st.variables) == Success(Strconv.MaxInt64);
    ConnectionCostOverflows();
  }
}
