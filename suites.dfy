/**
 * Test suites: the tree of groups and tests that `describe`/`test` calls
 * build while a script loads, and its flattening into the test instances
 * that are run, each with the names of its enclosing groups.
 */
module Suites {
  import opened Wrappers
  import opened Execution

  // ------------------------------------------------------- the test tree

  /** A test or a group of tests, as a value. */
  datatype TestItem = TestCase(name: string) | TestGroup(name: string, children: seq<TestItem>)

  /** A test to run, with the names of the groups it is in, outermost first. */
  datatype TestCaseInstance = TestCaseInstance(path: seq<string>, test: string)

  function Size(item: TestItem): (n: nat)
    ensures n >= 1
  {
    match item
    case TestCase(_) => 1
    case TestGroup(_, children) => 1 + SizeAll(children)
  }

  function SizeAll(items: seq<TestItem>): nat {
    if items == [] then 0 else Size(items[0]) + SizeAll(items[1..])
  }

  /** The number of tests in the items, counted on its own. */
  function LeafCount(items: seq<TestItem>): nat
    decreases SizeAll(items)
  {
    if items == [] then 0
    else
      assert SizeAll(items) == Size(items[0]) + SizeAll(items[1..]);
      match items[0]
      case TestCase(_) => 1 + LeafCount(items[1..])
      case TestGroup(_, children) =>
        assert Size(items[0]) == 1 + SizeAll(children);
        LeafCount(children) + LeafCount(items[1..])
  }

  /** Every instance with `name` put in front of its path. */
  function Within(name: string, instances: seq<TestCaseInstance>): (r: seq<TestCaseInstance>)
    ensures |r| == |instances|
    ensures forall i :: 0 <= i < |r| ==> r[i] == TestCaseInstance([name] + instances[i].path, instances[i].test)
  {
    if instances == [] then [] else [TestCaseInstance([name] + instances[0].path, instances[0].test)] + Within(name, instances[1..])
  }

  /** The instances of one child of the group named `name`. */
  function ChildInstances(name: string, child: TestItem): (r: seq<TestCaseInstance>)
    ensures forall i :: 0 <= i < |r| ==> |r[i].path| >= 1 && r[i].path[0] == name
    decreases Size(child), 0
  {
    match child
    case TestCase(test) => [TestCaseInstance([name], test)]
    case TestGroup(inner, children) => Within(name, BuildTestCaseInstances(inner, children))
  }

  /**
   * `buildTestCaseInstances(root)` for the group `name` with these children:
   * the instances of each child in child order, every path starting with
   * the group's name.
   */
  function BuildTestCaseInstances(name: string, children: seq<TestItem>): (r: seq<TestCaseInstance>)
    ensures forall i :: 0 <= i < |r| ==> |r[i].path| >= 1 && r[i].path[0] == name
    decreases SizeAll(children), 1
  {
    if children == [] then []
    else ChildInstances(name, children[0]) + BuildTestCaseInstances(name, children[1..])
  }

  /** There is one instance per test of the tree. */
  lemma {:induction false} OneInstancePerTest(name: string, children: seq<TestItem>)
    ensures |BuildTestCaseInstances(name, children)| == LeafCount(children)
    decreases SizeAll(children)
  {
    if children != [] {
      assert SizeAll(children) == Size(children[0]) + SizeAll(children[1..]);
      match children[0] {
        case TestCase(_) =>
        case TestGroup(inner, grandchildren) =>
          assert Size(children[0]) == 1 + SizeAll(grandchildren);
          OneInstancePerTest(inner, grandchildren);
      }
      OneInstancePerTest(name, children[1..]);
    }
  }

  /** The instances of the children one after the other are those of the children together. */
  lemma {:induction false} InstancesOfConcat(name: string, a: seq<TestItem>, b: seq<TestItem>)
    ensures BuildTestCaseInstances(name, a + b) == BuildTestCaseInstances(name, a) + BuildTestCaseInstances(name, b)
    decreases |a|
  {
    if a == [] {
      assert a + b == b;
    } else {
      assert (a + b)[0] == a[0];
      assert (a + b)[1..] == a[1..] + b;
      InstancesOfConcat(name, a[1..], b);
    }
  }

  /** A test directly in a group runs with the path `[group]`. */
  lemma DirectTestPath(name: string, test: string, before: seq<TestItem>, after: seq<TestItem>)
    ensures var k := |BuildTestCaseInstances(name, before)|;
      k < |BuildTestCaseInstances(name, before + [TestCase(test)] + after)|
      && BuildTestCaseInstances(name, before + [TestCase(test)] + after)[k] == TestCaseInstance([name], test)
  {
    InstancesOfConcat(name, before + [TestCase(test)], after);
    InstancesOfConcat(name, before, [TestCase(test)]);
    assert BuildTestCaseInstances(name, [TestCase(test)]) == [TestCaseInstance([name], test)];
  }

  /** A nested group's instances carry the outer group's name, then the inner group's. */
  lemma NestedGroupPath(name: string, inner: string, children: seq<TestItem>)
    ensures var r := BuildTestCaseInstances(name, [TestGroup(inner, children)]);
      |r| == LeafCount(children)
      && forall i :: 0 <= i < |r| ==> |r[i].path| >= 2 && r[i].path[..2] == [name, inner]
  {
    var nested := BuildTestCaseInstances(inner, children);
    OneInstancePerTest(inner, children);
    var r := BuildTestCaseInstances(name, [TestGroup(inner, children)]);
    assert r == Within(name, nested) + [];
    forall i | 0 <= i < |r|
      ensures |r[i].path| >= 2 && r[i].path[..2] == [name, inner]
    {
      assert r[i].path == [name] + nested[i].path;
    }
  }

  // ------------------------------------------------------------ the suite

  /** A child of a group: a test, or a reference to a group object. */
  datatype Child = TestRef(test: string) | GroupRef(id: nat)

  /** A group object: its name and its children, which later calls may extend. */
  datatype Node = Node(name: string, children: seq<Child>)

  /** What the function passed to `enterGroup` does: add a test, open a group, or throw. */
  datatype Op = Add(test: string) | Enter(name: string, body: seq<Op>) | Throw(message: string)

  /** How a call ended. */
  datatype Outcome = Done | Thrown(message: string)

  function OpSize(op: Op): (n: nat)
    ensures n >= 1
  {
    match op
    case Enter(_, body) => 1 + OpsSize(body)
    case _ => 1
  }

  function OpsSize(ops: seq<Op>): nat {
    if ops == [] then 0 else OpSize(ops[0]) + OpsSize(ops[1..])
  }

  const NoContextMessage := "Could not determine execution context for root test suite"

  /**
   * `TestSuite`: group objects live in `groups` under their identities; the
   * stack holds the open groups, innermost last, and `roots` the root group
   * of each script file.
   */
  class TestSuite {
    var groups: map<nat, Node>
    var stack: seq<nat>
    var roots: map<string, nat>
    var next: nat

    ghost predicate Valid()
      reads this
    {
      (forall id :: id in groups ==> id < next)
      && (forall i :: 0 <= i < |stack| ==> stack[i] in groups)
      && (forall path :: path in roots ==> roots[path] in groups && groups[roots[path]].name == path)
    }

    constructor ()
      ensures Valid() && stack == [] && roots == map[] && groups == map[]
    {
      groups := map[];
      stack := [];
      roots := map[];
      next := 0;
    }

    /**
     * `#currentGroup`: the innermost open group; with none open, the root
     * group of the calling file, created the first time that file asks. The
     * calling file comes from the captured execution context.
     */
    method CurrentGroup(context: Option<ExecutionContext>) returns (r: Result<nat>)
      requires Valid()
      modifies this
      ensures Valid() && stack == old(stack)
      ensures old(stack) != [] ==> r == Success(old(stack)[|old(stack)| - 1]) && unchanged(this)
      ensures old(stack) == [] && context.None? ==> r == Failure(NoContextMessage) && unchanged(this)
      ensures old(stack) == [] && context.Some? && context.value.filePath in old(roots) ==>
        r == Success(old(roots)[context.value.filePath]) && unchanged(this)
      ensures old(stack) == [] && context.Some? && context.value.filePath !in old(roots) ==>
        r == Success(old(next)) && next == old(next) + 1
        && groups == old(groups)[old(next) := Node(context.value.filePath, [])]
        && roots == old(roots)[context.value.filePath := old(next)]
      ensures r.Success? ==> r.value in groups
    {
      if stack != [] {
        return Success(stack[|stack| - 1]);
      }
      if context.None? {
        return Failure(NoContextMessage);
      }
      var path := context.value.filePath;
      if path in roots {
        return Success(roots[path]);
      }
      var root := next;
      groups := groups[root := Node(path, [])];
      roots := roots[path := root];
      next := next + 1;
      return Success(root);
    }

    /** `add(test)`: the test is appended to the current group, and to no other. */
    method Add(test: string, context: Option<ExecutionContext>) returns (r: Outcome)
      requires Valid()
      modifies this
      ensures Valid() && stack == old(stack)
      ensures old(stack) != [] ==> (
        var top := old(stack)[|old(stack)| - 1];
        r == Done && roots == old(roots) && next == old(next)
        && groups == old(groups)[top := Node(old(groups)[top].name, old(groups)[top].children + [TestRef(test)])])
      ensures old(stack) == [] && context.None? ==> r == Thrown(NoContextMessage) && unchanged(this)
      ensures old(stack) == [] && context.Some? ==> (
        var path := context.value.filePath;
        r == Done && path in roots && roots[path] in groups
        && groups[roots[path]].children == (if path in old(roots) then old(groups)[old(roots)[path]].children else []) + [TestRef(test)])
      ensures old(stack) == [] && context.Some? ==> (
        var path := context.value.filePath;
        var root := if path in old(roots) then old(roots)[path] else old(next);
        roots == old(roots)[path := root]
        && next == (if path in old(roots) then old(next) else old(next) + 1)
        && (forall id :: id in old(groups) && id != root ==> id in groups && groups[id] == old(groups)[id]))
    {
      var current := CurrentGroup(context);
      if current.Failure? {
        return Thrown(current.error);
      }
      var id := current.value;
      groups := groups[id := Node(groups[id].name, groups[id].children + [TestRef(test)])];
      return Done;
    }

    /** The state left by the function run inside `top`: only `top` grew, and only new groups appeared. */
    ghost predicate GrewOnly(before: map<nat, Node>, top: nat)
      reads this
    {
      top in before
      && (forall id :: id in before ==> id in groups)
      && (forall id :: id in before && id != top ==> groups[id] == before[id])
      && groups[top].name == before[top].name
      && before[top].children <= groups[top].children
    }

    /**
     * The function passed to `enterGroup`, run with a group open: its tests
     * and groups go into the innermost open group; a throw stops it.
     */
    method Run(ops: seq<Op>, context: Option<ExecutionContext>) returns (r: Outcome)
      requires Valid() && stack != []
      modifies this
      ensures Valid() && stack == old(stack) && roots == old(roots) && next >= old(next)
      ensures GrewOnly(old(groups), stack[|stack| - 1])
      decreases OpsSize(ops), 2
    {
      if ops == [] {
        return Done;
      }
      var top := stack[|stack| - 1];
      match ops[0] {
        case Add(test) =>
          r := Add(test, context);
        case Enter(name, body) =>
          r := EnterGroup(name, body, context);
        case Throw(message) =>
          return Thrown(message);
      }
      if r.Done? {
        ghost var mid := groups;
        r := Run(ops[1..], context);
        assert mid[top].children <= groups[top].children;
      }
    }

    /**
     * `enterGroup(name, fn)`: opens a new group, runs `fn` in it and closes it
     * again whether or not `fn` throws, so the open groups are as before. Only
     * when `fn` returns is the new group appended to the group that was
     * current when the call began.
     */
    method EnterGroup(name: string, body: seq<Op>, context: Option<ExecutionContext>) returns (r: Outcome)
      requires Valid()
      modifies this
      ensures Valid() && stack == old(stack)
      ensures old(stack) != [] ==> (
        var top := old(stack)[|old(stack)| - 1];
        roots == old(roots)
        && old(next) in groups && groups[old(next)].name == name
        && (forall id :: id in old(groups) && id != top ==> id in groups && groups[id] == old(groups)[id])
        && groups[top].name == old(groups)[top].name
        && groups[top].children == old(groups)[top].children + (if r.Done? then [GroupRef(old(next))] else []))
      ensures old(stack) == [] && context.None? ==> r == Thrown(NoContextMessage) && unchanged(this)
      ensures old(stack) == [] && context.Some? ==> (
        var path := context.value.filePath;
        path in roots && roots[path] in groups
        && (path in old(roots) ==> roots == old(roots))
        && groups[roots[path]].children
           == (if path in old(roots) then old(groups)[old(roots)[path]].children else [])
              + (if r.Done? then [GroupRef(if path in old(roots) then old(next) else old(next) + 1)] else []))
      ensures old(stack) == [] && context.Some? ==> (
        var path := context.value.filePath;
        var root := if path in old(roots) then old(roots)[path] else old(next);
        var group := if path in old(roots) then old(next) else old(next) + 1;
        roots == old(roots)[path := root]
        && next > group && group in groups && groups[group].name == name
        && (forall id :: id in old(groups) && id != root ==> id in groups && groups[id] == old(groups)[id]))
      decreases OpSize(Enter(name, body)), 1
    {
      var current := CurrentGroup(context);
      if current.Failure? {
        return Thrown(current.error);
      }
      r := OpenGroup(current.value, name, body, context);
    }

    /** The part of `enterGroup` after the current group is known: the new group is the next identity. */
    method OpenGroup(parent: nat, name: string, body: seq<Op>, context: Option<ExecutionContext>) returns (r: Outcome)
      requires Valid() && parent in groups
      modifies this
      ensures Valid() && stack == old(stack) && roots == old(roots) && next > old(next)
      ensures old(next) in groups && groups[old(next)].name == name
      ensures forall id :: id in old(groups) && id != parent ==> id in groups && groups[id] == old(groups)[id]
      ensures parent in groups && groups[parent].name == old(groups)[parent].name
      ensures groups[parent].children == old(groups)[parent].children + (if r.Done? then [GroupRef(old(next))] else [])
      decreases OpSize(Enter(name, body)), 0
    {
      ghost var before := groups;
      var group := next;
      groups := groups[group := Node(name, [])];
      next := next + 1;
      stack := stack + [group];
      r := Run(body, context);
      stack := stack[..|stack| - 1];
      assert groups[parent] == before[parent];
      if r.Done? {
        groups := groups[parent := Node(groups[parent].name, groups[parent].children + [GroupRef(group)])];
      }
    }

    /** `clear()`: no group is open and no file has a root group any more. */
    method Clear()
      requires Valid()
      modifies this
      ensures Valid() && stack == [] && roots == map[]
      ensures groups == old(groups) && next == old(next)
    {
      stack := [];
      roots := map[];
    }
  }
}
