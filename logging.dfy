/**
 * The naming part of Log (qq.go:41-48): when the caller's location is known
 * and its file parses, the arguments handed to the logger are the formatted
 * entries instead of the raw values.
 *
 * `callerOk` is the `ok` of runtime.Caller, `file` what parser.ParseFile
 * returned for the caller's file, `line` the caller's line.
 */
module Logging {
  import opened Wrappers
  import opened GoAst
  import opened Names
  import opened Colors
  import opened Formatter

  /** What Log passes to logger.Println: formatted entries, or the values
      themselves when there is no naming information. */
  datatype Printed<V> = Formatted(entries: seq<string>) | Plain(values: seq<V>)

  function Count<V>(p: Printed<V>): nat
  {
    match p
    case Formatted(entries) => |entries|
    case Plain(values) => |values|
  }

  /** Log as written: formatArgs runs whenever parsing succeeded, so fewer
      names than values (no matching call, or a call `qq.Log(xs...)` that
      spreads a slice) indexes past the end of names at qq.go:177. */
  function LoggedArgsAsWritten<V>(callerOk: bool, file: Result<Node, string>, line: int, values: seq<V>,
                                  printer: Node -> string, render: V -> string): (r: Result<Printed<V>, Panic>)
    ensures r.Failure? <==> callerOk && file.Success? && |ExpectedNames(file.value, line, printer)| < |values|
    ensures r.Failure? ==> r.error == IndexOutOfRange
    ensures r.Success? ==> Count(r.value) == |values|
  {
    if !callerOk || file.Failure? then Success(Plain(values))
    else
      var names := ExpectedNames(file.value, line, printer);
      if |names| < |values| then Failure(IndexOutOfRange)
      else Success(Formatted(FormattedArgs(names, values, render)))
  }

  /** Log with the names kept only when there is exactly one per value, so
      that no name is read past the end and none is paired with another
      call's value. */
  function LoggedArgs<V>(callerOk: bool, file: Result<Node, string>, line: int, values: seq<V>,
                         printer: Node -> string, render: V -> string): (r: Printed<V>)
    ensures Count(r) == |values|
    ensures r.Plain? ==> r.values == values
    ensures r.Formatted? <==> callerOk && file.Success? && |ExpectedNames(file.value, line, printer)| == |values|
    ensures r.Formatted? ==> forall i :: 0 <= i < |values| ==>
              r.entries[i] == FormatEntry(ExpectedNames(file.value, line, printer)[i], render(values[i]))
  {
    if callerOk && file.Success? && |ExpectedNames(file.value, line, printer)| == |values| then
      var names := ExpectedNames(file.value, line, printer);
      assert forall i :: 0 <= i < |values| ==> FormattedArgs(names, values, render)[i] == FormatEntry(names[i], render(values[i])) by {
        forall i | 0 <= i < |values| ensures FormattedArgs(names, values, render)[i] == FormatEntry(names[i], render(values[i])) {
          FormattedArgsAt(names, values, render, i);
        }
      }
      Formatted(FormattedArgs(names, values, render))
    else Plain(values)
  }

  /** Log's naming step, from argNames and formatArgs. */
  method Log<V>(callerOk: bool, file: Result<Node, string>, line: int, values: seq<V>,
                printer: Node -> string, render: V -> string) returns (r: Printed<V>)
    ensures r == LoggedArgs(callerOk, file, line, values, printer, render)
  {
    r := Plain(values);
    if callerOk {
      var names := ArgNames(file, line, printer);
      if names.Success? && |names.value| == |values| {
        var formatted := FormatArgs(names.value, values, render);
        r := Formatted(formatted);
      }
    }
  }

  /** Where the source does not panic and the counts agree, the corrected Log
      prints what the source prints. */
  lemma AsWrittenAgrees<V>(callerOk: bool, file: Result<Node, string>, line: int, values: seq<V>,
                           printer: Node -> string, render: V -> string)
    requires !callerOk || file.Failure? || |ExpectedNames(file.value, line, printer)| == |values|
    ensures LoggedArgsAsWritten(callerOk, file, line, values, printer, render)
         == Success(LoggedArgs(callerOk, file, line, values, printer, render))
  {
  }

  /** A parsed file with no matching call on the line makes the source panic
      as soon as there is a value to log. */
  lemma AsWrittenPanicsWithoutMatch<V>(file: Node, line: int, values: seq<V>,
                                       printer: Node -> string, render: V -> string)
    requires forall n :: n in Preorder(file) ==> !Matches(n, line)
    requires values != []
    ensures LoggedArgsAsWritten(true, Success(file), line, values, printer, render).Failure?
    ensures LoggedArgs(true, Success(file), line, values, printer, render) == Plain(values)
  {
    NoMatchNoNames(file, line, printer);
  }

  /** `qq.Log(xs...)` with two values in xs: one argument node, two values. */
  lemma SpreadArgumentPanics<V>(line: int, a: V, b: V, printer: Node -> string, render: V -> string)
    ensures LoggedArgsAsWritten(true, Success(QqLog([VarRef("xs")], line)), line, [a, b], printer, render)
         == Failure(IndexOutOfRange)
    ensures LoggedArgs(true, Success(QqLog([VarRef("xs")], line)), line, [a, b], printer, render) == Plain([a, b])
  {
    NamesOfCall(QqLog([VarRef("xs")], line), printer);
  }

  /** The names argNames finds in a tree consisting of one matching call
      whose arguments contain no call. */
  lemma NamesOfCall(call: Node, printer: Node -> string)
    requires call.Call? && QqCall(call)
    requires forall a :: a in call.args ==> a.Ident? || a.BasicLit?
    requires call.fun.Selector? && call.fun.x.Ident?
    ensures ExpectedNames(call, call.endLine, printer) == ArgNameList(call.args, printer)
  {
    var line := call.endLine;
    EnclosingCallNamesFirst(call, line, printer);
    var rest := Preorder(call)[1..];
    assert rest == Preorder(call.fun) + PreorderSeq(call.args);
    LeavesPreorder(call.args);
    assert Preorder(call.fun) == [call.fun, call.fun.x];
    MatchingCallsNone(rest, line);
  }

  lemma {:induction false} LeavesPreorder(ns: seq<Node>)
    requires forall a :: a in ns ==> a.Ident? || a.BasicLit?
    ensures PreorderSeq(ns) == ns
  {
    if ns != [] {
      assert ns[0] in ns;
      LeavesPreorder(ns[1..]);
    }
  }

  /** A call `qq.Log(args...)` whose closing parenthesis is on `line`. */
  function QqLog(args: seq<Node>, line: int): (r: Node)
    ensures Matches(r, line)
  {
    Call(Selector(Ident("qq", None), "Log"), args, line)
  }

  /** An identifier resolved to a variable of the same name. */
  function VarRef(name: string): (r: Node)
    ensures IsVariable(r) && r.obj.value.name == name
  {
    Ident(name, Some(Object(Var, name)))
  }

  /** The call of the doc comment at qq.go:64-67, `qq.Log(ip, port, 5432)`. */
  function DocCall(line: int): Node
  {
    QqLog([VarRef("ip"), VarRef("port"), BasicLit("5432")], line)
  }

  /** In a file holding that call, argNames for its line gives "ip", "port"
      and "" (qq.go:67). */
  lemma DocExampleNames(line: int, printer: Node -> string)
    ensures ExpectedNames(Other([DocCall(line)]), line, printer) == ["ip", "port", ""]
  {
    var call := DocCall(line);
    WrappedInOther(call, line, printer);
    NamesOfCall(call, printer);
    var names := ArgNameList(call.args, printer);
    assert names == ["ip", "port", ""] by {
      assert names[0] == "ip" && names[1] == "port" && names[2] == "";
    }
  }

  /** A node that is not a call adds no names of its own. */
  lemma WrappedInOther(n: Node, line: int, printer: Node -> string)
    ensures ExpectedNames(Other([n]), line, printer) == ExpectedNames(n, line, printer)
  {
    var o := Other([n]);
    assert PreorderSeq([n]) == Preorder(n) + PreorderSeq([]);
    assert Preorder(o) == [o] + Preorder(n);
    MatchingCallsAppend([o], Preorder(n), line);
    MatchingCallsSingle(o, line);
    assert MatchingCalls(Preorder(o), line) == MatchingCalls(Preorder(n), line);
  }

  /** Logging that call shows `ip=...`, `port=...` and the literal's bare
      value, in that order. */
  lemma DocExampleOutput<V>(line: int, ip: V, port: V, lit: V, printer: Node -> string, render: V -> string)
    ensures LoggedArgs(true, Success(Other([DocCall(line)])), line, [ip, port, lit], printer, render)
         == Formatted([Colorize("ip", Bold) + "=" + Colorize(render(ip), Cyan),
                       Colorize("port", Bold) + "=" + Colorize(render(port), Cyan),
                       Colorize(render(lit), Cyan)])
  {
    DocExampleNames(line, printer);
    var r := LoggedArgs(true, Success(Other([DocCall(line)])), line, [ip, port, lit], printer, render);
    assert r.entries[0] == FormatEntry("ip", render(ip));
    assert r.entries[1] == FormatEntry("port", render(port));
    assert r.entries[2] == FormatEntry("", render(lit));
  }

  /** The names of two sibling subtrees, the first one's first. */
  lemma SiblingNames(a: Node, b: Node, line: int, printer: Node -> string)
    ensures ExpectedNames(Other([a, b]), line, printer)
         == ExpectedNames(a, line, printer) + ExpectedNames(b, line, printer)
  {
    var o := Other([a, b]);
    var pa, pb := Preorder(a), Preorder(b);
    assert [a, b][1..] == [b];
    assert PreorderSeq([b]) == pb + PreorderSeq([]);
    assert Preorder(o) == [o] + (pa + pb);
    VisitedNamesAppend([o], pa + pb, line, printer);
    VisitedNamesAppend(pa, pb, line, printer);
    MatchingCallsSingle(o, line);
  }

  /** A plain call `f(qq.<sel>(y))`: not a qq call itself, but the qq call
      in its argument is visited and names y. */
  lemma PlainCallAroundQqCall(y: string, sel: string, line: int, printer: Node -> string)
    ensures ExpectedNames(Call(Ident("f", None), [Call(Selector(Ident("qq", None), sel), [VarRef(y)], line)], line), line, printer)
         == [y]
  {
    var inner := Call(Selector(Ident("qq", None), sel), [VarRef(y)], line);
    var f := Call(Ident("f", None), [inner], line);
    CallNamesSplit(f, line, printer);
    NoMatchNoNames(f.fun, line, printer);
    SubtreeNamesCons([inner], line, printer);
    assert [inner][1..] == [];
    NamesOfCall(inner, printer);
    assert ArgNameList(inner.args, printer) == [y];
  }

  /** `qq.Log(x, f(qq.<sel>(y)))` on one line: the outer call names its
      arguments x and the printed `f(...)`, and the qq call nested inside
      `f`'s argument is visited too and adds y after them. */
  lemma NestedCallNamesFollow(x: string, y: string, sel: string, line: int, printer: Node -> string)
    ensures var f := Call(Ident("f", None), [Call(Selector(Ident("qq", None), sel), [VarRef(y)], line)], line);
            ExpectedNames(QqLog([VarRef(x), f], line), line, printer) == [x, printer(f), y]
  {
    var f := Call(Ident("f", None), [Call(Selector(Ident("qq", None), sel), [VarRef(y)], line)], line);
    PlainCallAroundQqCall(y, sel, line, printer);
    QqLogTwoArgs(VarRef(x), f, line, printer);
    NoMatchNoNames(VarRef(x), line, printer);
    assert ArgNameList([VarRef(x), f], printer) == [x, printer(f)];
  }

  /** The names of `qq.Log(a, b)`: its own two, then those under a, then
      those under b. */
  lemma QqLogTwoArgs(a: Node, b: Node, line: int, printer: Node -> string)
    ensures ExpectedNames(QqLog([a, b], line), line, printer)
         == ArgNameList([a, b], printer) + ExpectedNames(a, line, printer) + ExpectedNames(b, line, printer)
  {
    var outer := QqLog([a, b], line);
    CallNamesSplit(outer, line, printer);
    QqSelectorNoNames(outer.fun, line, printer);
    SubtreeNamesPair(a, b, line, printer);
  }

  /** The callee `qq.Log` holds no call. */
  lemma QqSelectorNoNames(fun: Node, line: int, printer: Node -> string)
    requires fun == Selector(Ident("qq", None), "Log")
    ensures ExpectedNames(fun, line, printer) == []
  {
    assert Preorder(fun) == [fun, fun.x];
    NoMatchNoNames(fun, line, printer);
  }

  /** `qq.Log(x); qq.Log(y)` on one line: both calls match, so argNames
      gives both names whichever of the two is running. */
  lemma SameLineCallsNames(x: string, y: string, line: int, printer: Node -> string)
    ensures ExpectedNames(Other([QqLog([VarRef(x)], line), QqLog([VarRef(y)], line)]), line, printer) == [x, y]
  {
    var first, second := QqLog([VarRef(x)], line), QqLog([VarRef(y)], line);
    SiblingNames(first, second, line, printer);
    NamesOfCall(first, printer);
    NamesOfCall(second, printer);
    assert ArgNameList(first.args, printer) == [x];
    assert ArgNameList(second.args, printer) == [y];
  }

  /** When the second of those calls runs, the source labels y's value with
      the name x, while the corrected Log leaves it unnamed. */
  lemma SameLineCallsMisattributed<V>(x: string, y: string, line: int, v: V, printer: Node -> string, render: V -> string)
    requires x != ""
    ensures var file := Other([QqLog([VarRef(x)], line), QqLog([VarRef(y)], line)]);
            LoggedArgsAsWritten(true, Success(file), line, [v], printer, render)
              == Success(Formatted([Colorize(x, Bold) + "=" + Colorize(render(v), Cyan)]))
            && LoggedArgs(true, Success(file), line, [v], printer, render) == Plain([v])
  {
    var file := Other([QqLog([VarRef(x)], line), QqLog([VarRef(y)], line)]);
    SameLineCallsNames(x, y, line, printer);
    var f := FormattedArgs([x, y], [v], render);
    FormattedArgsAt([x, y], [v], render, 0);
    assert f == [FormatEntry(x, render(v))];
    assert LoggedArgsAsWritten(true, Success(file), line, [v], printer, render) == Success(Formatted(f));
  }

  /** `qq.Log(true)`: the parser leaves `true` unresolved, so the source's
      argName dereferences a nil object; the corrected one names it "". */
  lemma UnresolvedIdentPanics(printer: Node -> string)
    ensures ArgNameAsWritten(Ident("true", None), printer) == Failure(NilDereference)
    ensures ArgName(Ident("true", None), printer) == ""
  {
  }

  /** An unparsable file leaves every value unnamed. */
  lemma UnparsableFileUnnamed<V>(err: string, line: int, values: seq<V>, printer: Node -> string, render: V -> string)
    ensures LoggedArgsAsWritten(true, Failure(err), line, values, printer, render) == Success(Plain(values))
    ensures LoggedArgs(true, Failure(err), line, values, printer, render) == Plain(values)
  {
  }
}
