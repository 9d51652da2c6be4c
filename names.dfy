/**
 * Recovering argument names from the call site (qq.go:64-139): argName sorts
 * one argument expression, qqCall recognises a call of this package, and
 * argNames collects the names of every recognised call ending on a line.
 *
 * go/printer is the parameter `printer`; Go's parser is represented by its
 * outcome, a tree or an error message.
 */
module Names {
  import opened Wrappers
  import opened GoAst

  /** The runtime panics the source can run into. */
  datatype Panic = NilDereference | IndexOutOfRange

  /** qqCall (qq.go:104-116): the callee is `qq.<anything>`, a selector whose
      base is the identifier `qq`. The selected name is not looked at. */
  function QqCall(call: Node): (r: bool)
    requires call.Call?
    ensures r <==> call.fun.Selector? && call.fun.x.Ident? && call.fun.x.name == "qq"
  {
    match call.fun
    case Selector(Ident(name, _), _) => name == "qq"
    case _ => false
  }

  /** The eight expression kinds whose printed text serves as their name. */
  predicate IsCompound(n: Node)
  {
    n.Binary? || n.Call? || n.Index? || n.KeyValue? || n.Paren? || n.Slice? ||
    n.TypeAssert? || n.Unary?
  }

  /** An identifier resolved to a variable. */
  predicate IsVariable(n: Node)
  {
    n.Ident? && n.obj.Some? && n.obj.value.kind == Var
  }

  /** argName (qq.go:121-139) with the nil check on `Obj` that qq.go:125
      lacks: an unresolved identifier has no name, like any non-variable. */
  function ArgName(arg: Node, printer: Node -> string): (r: string)
    ensures IsVariable(arg) ==> r == arg.obj.value.name
    ensures IsCompound(arg) ==> r == printer(arg)
    ensures !IsVariable(arg) && !IsCompound(arg) ==> r == ""
  {
    match arg
    case Ident(_, obj) => if obj.Some? && obj.value.kind == Var then obj.value.name else ""
    case Binary(_, _) | Call(_, _, _) | Index(_, _) | KeyValue(_, _) | Paren(_)
      | Slice(_, _) | TypeAssert(_, _) | Unary(_) => printer(arg)
    case _ => ""
  }

  /** argName as written: `a.Obj.Kind` is read without a nil check, so an
      unresolved identifier panics; every other argument gets the name the
      corrected ArgName gives it. */
  function ArgNameAsWritten(arg: Node, printer: Node -> string): (r: Result<string, Panic>)
    ensures r.Failure? <==> arg.Ident? && arg.obj.None?
    ensures r.Failure? ==> r.error == NilDereference
    ensures r.Success? ==> r.value == ArgName(arg, printer)
  {
    match arg
    case Ident(_, obj) =>
      if obj.None? then Failure(NilDereference)
      else if obj.value.kind == Var then Success(obj.value.name)
      else Success("")
    case Binary(_, _) | Call(_, _, _) | Index(_, _) | KeyValue(_, _) | Paren(_)
      | Slice(_, _) | TypeAssert(_, _) | Unary(_) => Success(printer(arg))
    case _ => Success("")
  }

  /** One name per argument, in argument order. */
  function ArgNameList(args: seq<Node>, printer: Node -> string): (r: seq<string>)
    ensures |r| == |args|
    ensures forall i :: 0 <= i < |args| ==> r[i] == ArgName(args[i], printer)
  {
    seq(|args|, i requires 0 <= i < |args| => ArgName(args[i], printer))
  }

  /** The three tests the visitor in argNames makes before it takes a node's
      arguments (qq.go:78-91). */
  predicate Matches(n: Node, line: int)
  {
    n.Call? && n.endLine == line && QqCall(n)
  }

  /** The nodes of `nodes` that pass the visitor's tests, in their order. */
  function MatchingCalls(nodes: seq<Node>, line: int): (r: seq<Node>)
    ensures |r| <= |nodes|
    ensures forall c :: c in r ==> c in nodes && Matches(c, line)
    ensures forall c :: c in nodes && Matches(c, line) ==> c in r
  {
    if nodes == [] then []
    else (if Matches(nodes[0], line) then [nodes[0]] else []) + MatchingCalls(nodes[1..], line)
  }

  /** The argument names of the given calls, call after call. */
  function NamesOfCalls(calls: seq<Node>, printer: Node -> string): seq<string>
    requires forall c :: c in calls ==> c.Call?
  {
    if calls == [] then [] else ArgNameList(calls[0].args, printer) + NamesOfCalls(calls[1..], printer)
  }

  /** The number of arguments of the given calls together. */
  function ArgCount(calls: seq<Node>): nat
    requires forall c :: c in calls ==> c.Call?
  {
    if calls == [] then 0 else |calls[0].args| + ArgCount(calls[1..])
  }

  /** What argNames finds in a parsed file for a line: the names of the
      arguments of every matching call, in the order ast.Inspect visits the
      calls. */
  function ExpectedNames(tree: Node, line: int, printer: Node -> string): (r: seq<string>)
    ensures |r| == ArgCount(MatchingCalls(Preorder(tree), line))
  {
    NamesOfCallsLength(MatchingCalls(Preorder(tree), line), printer);
    NamesOfCalls(MatchingCalls(Preorder(tree), line), printer)
  }

  /** The names found in the subtrees of `ns`, one subtree after the other. */
  function SubtreeNames(ns: seq<Node>, line: int, printer: Node -> string): seq<string>
  {
    NamesOfCalls(MatchingCalls(PreorderSeq(ns), line), printer)
  }

  /** argNames (qq.go:69-100). ast.Inspect calls the visitor on the nodes of
      the tree in the order Preorder gives, and the visitor always returns
      true, so every node is visited; VisitAll is that sequence of visits. */
  method ArgNames(file: Result<Node, string>, line: int, printer: Node -> string)
    returns (r: Result<seq<string>, string>)
    ensures file.Failure? ==> r == Failure(file.error)
    ensures file.Success? ==> r == Success(ExpectedNames(file.value, line, printer))
  {
    if file.Failure? {
      return Failure(file.error);
    }
    var names := VisitAll(Preorder(file.value), line, printer);
    return Success(names);
  }

  /** The visitor of qq.go:77-97 applied to each visited node in turn. */
  method VisitAll(visited: seq<Node>, line: int, printer: Node -> string) returns (names: seq<string>)
    ensures names == NamesOfCalls(MatchingCalls(visited, line), printer)
  {
    names := [];
    for k := 0 to |visited|
      invariant names == NamesOfCalls(MatchingCalls(visited[..k], line), printer)
    {
      var n := visited[k];
      assert visited[..k + 1] == visited[..k] + [n];
      VisitStep(visited[..k], n, line, printer);
      if n.Call? && n.endLine == line && QqCall(n) {
        names := AppendArgNames(names, n.args, printer);
      }
    }
    assert visited[..|visited|] == visited;
  }

  /** One visit: a matching node adds its argument names after those found
      so far, any other node adds nothing. */
  lemma VisitStep(seen: seq<Node>, n: Node, line: int, printer: Node -> string)
    ensures NamesOfCalls(MatchingCalls(seen + [n], line), printer)
         == NamesOfCalls(MatchingCalls(seen, line), printer)
            + (if Matches(n, line) then ArgNameList(n.args, printer) else [])
  {
    VisitedNamesAppend(seen, [n], line, printer);
    MatchingCallsSingle(n, line);
    if Matches(n, line) {
      assert NamesOfCalls([n], printer) == ArgNameList(n.args, printer) + NamesOfCalls([], printer);
    }
  }

  /** The loop of qq.go:93-95: one name appended per argument. */
  method AppendArgNames(names: seq<string>, args: seq<Node>, printer: Node -> string)
    returns (r: seq<string>)
    ensures r == names + ArgNameList(args, printer)
  {
    r := names;
    for i := 0 to |args|
      invariant r == names + ArgNameList(args[..i], printer)
    {
      assert ArgNameList(args[..i + 1], printer) == ArgNameList(args[..i], printer) + [ArgName(args[i], printer)];
      r := r + [ArgName(args[i], printer)];
    }
    assert args[..|args|] == args;
  }

  lemma {:induction false} MatchingCallsAppend(a: seq<Node>, b: seq<Node>, line: int)
    ensures MatchingCalls(a + b, line) == MatchingCalls(a, line) + MatchingCalls(b, line)
  {
    if a == [] {
      assert a + b == b;
    } else {
      assert (a + b)[1..] == a[1..] + b;
      MatchingCallsAppend(a[1..], b, line);
    }
  }

  lemma MatchingCallsSingle(n: Node, line: int)
    ensures MatchingCalls([n], line) == if Matches(n, line) then [n] else []
  {
  }

  lemma {:induction false} MatchingCallsNone(nodes: seq<Node>, line: int)
    requires forall n :: n in nodes ==> !Matches(n, line)
    ensures MatchingCalls(nodes, line) == []
  {
    if nodes != [] {
      assert nodes[0] in nodes;
      MatchingCallsNone(nodes[1..], line);
    }
  }

  lemma {:induction false} NamesOfCallsAppend(a: seq<Node>, b: seq<Node>, printer: Node -> string)
    requires forall c :: c in a ==> c.Call?
    requires forall c :: c in b ==> c.Call?
    ensures NamesOfCalls(a + b, printer) == NamesOfCalls(a, printer) + NamesOfCalls(b, printer)
  {
    if a == [] {
      assert a + b == b;
    } else {
      assert (a + b)[1..] == a[1..] + b;
      NamesOfCallsAppend(a[1..], b, printer);
    }
  }

  /** The names found in two runs of visited nodes, one after the other. */
  lemma VisitedNamesAppend(a: seq<Node>, b: seq<Node>, line: int, printer: Node -> string)
    ensures NamesOfCalls(MatchingCalls(a + b, line), printer)
         == NamesOfCalls(MatchingCalls(a, line), printer) + NamesOfCalls(MatchingCalls(b, line), printer)
  {
    MatchingCallsAppend(a, b, line);
    NamesOfCallsAppend(MatchingCalls(a, line), MatchingCalls(b, line), printer);
  }

  lemma {:induction false} NamesOfCallsLength(calls: seq<Node>, printer: Node -> string)
    requires forall c :: c in calls ==> c.Call?
    ensures |NamesOfCalls(calls, printer)| == ArgCount(calls)
  {
    if calls != [] {
      NamesOfCallsLength(calls[1..], printer);
    }
  }

  /** No matching call on the line, no names. */
  lemma NoMatchNoNames(tree: Node, line: int, printer: Node -> string)
    requires forall n :: n in Preorder(tree) ==> !Matches(n, line)
    ensures ExpectedNames(tree, line, printer) == []
  {
    MatchingCallsNone(Preorder(tree), line);
  }

  /** A matching call's own argument names come first; the names of the
      matching calls nested in it, in visit order, follow. */
  lemma EnclosingCallNamesFirst(n: Node, line: int, printer: Node -> string)
    requires Matches(n, line)
    ensures ExpectedNames(n, line, printer)
         == ArgNameList(n.args, printer) + NamesOfCalls(MatchingCalls(Preorder(n)[1..], line), printer)
  {
  }

  /** The names found under a call: its own, when it matches, then those
      found under its callee, then those found under each argument. Calls
      nested in the callee or in an argument are visited like any other. */
  lemma CallNamesSplit(n: Node, line: int, printer: Node -> string)
    requires n.Call?
    ensures ExpectedNames(n, line, printer)
         == (if Matches(n, line) then ArgNameList(n.args, printer) else [])
            + ExpectedNames(n.fun, line, printer) + SubtreeNames(n.args, line, printer)
  {
    var pf, pa := Preorder(n.fun), PreorderSeq(n.args);
    PreorderOfCall(n);
    VisitedNamesAppend([n], pf + pa, line, printer);
    VisitedNamesAppend(pf, pa, line, printer);
    VisitStep([], n, line, printer);
    assert [] + [n] == [n];
  }

  /** The names under a run of arguments: the first argument's, then the
      rest's. */
  lemma SubtreeNamesCons(ns: seq<Node>, line: int, printer: Node -> string)
    requires ns != []
    ensures SubtreeNames(ns, line, printer)
         == ExpectedNames(ns[0], line, printer) + SubtreeNames(ns[1..], line, printer)
  {
    VisitedNamesAppend(Preorder(ns[0]), PreorderSeq(ns[1..]), line, printer);
  }

  lemma SubtreeNamesPair(a: Node, b: Node, line: int, printer: Node -> string)
    ensures SubtreeNames([a, b], line, printer) == ExpectedNames(a, line, printer) + ExpectedNames(b, line, printer)
  {
    SubtreeNamesCons([a, b], line, printer);
    assert [a, b][1..] == [b];
    SubtreeNamesCons([b], line, printer);
    assert [b][1..] == [];
  }

  /** The selected name is not checked: `qq.Anything(...)` qualifies. */
  lemma QqCallAnySelector(sel: string, obj: Option<Object>, args: seq<Node>, line: int)
    ensures QqCall(Call(Selector(Ident("qq", obj), sel), args, line))
  {
  }

  /** `f(...)` and `a.b.C(...)` do not qualify. */
  lemma QqCallRejects(args: seq<Node>, line: int, obj: Option<Object>)
    ensures !QqCall(Call(Ident("f", obj), args, line))
    ensures !QqCall(Call(Selector(Selector(Ident("a", obj), "b"), "C"), args, line))
  {
  }
}
