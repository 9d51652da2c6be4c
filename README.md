# qq: naming logged arguments by their source text

A model of the core of the Go package `qq` (file `qq.go`). `qq.Log(a...)`
finds the call it was made from and the values it got. When it can, it
prints each value as `name=value`. The name is the argument's source text.
The model covers how those names are found and how the entries are built:

- **Call matching (`argNames`, `qqCall`).** The caller's file is parsed. Its
  tree is walked in the order `ast.Inspect` visits it. A kept call is one whose
  closing parenthesis is on the caller's line and whose callee is
  `qq.<anything>`. Each kept call contributes one name per argument.
- **Argument classification (`argName`).** A variable gives its name. One of
  eight compound expression kinds gives its printed text. Anything else
  gives the empty name.
- **Formatting (`formatArgs`, `colorize`).** Entry `i` pairs `names[i]` with
  the rendered `values[i]`. Each part is wrapped in ANSI colour codes.
- **Log's naming step.** Names are used only when the caller is known and
  its file parses.

Modules: `Wrappers` (Option, Result), `GoAst` (the syntax tree and its visit
order), `Names`, `Colors`, `Formatter`, `Logging`.

Foreign calls are parameters of the model:
- Go's parser becomes `file: Result<Node, string>`, a tree or an error
  message.
- `exprToString` (go/printer) becomes `printer: Node -> string`. It may
  return `""`, as the printer does on failure.
- `fmt.Sprintf("%#v", v)` becomes `render: V -> string`.
- The `ok` result of `runtime.Caller` becomes `callerOk`.
- The line of a call's end becomes the `endLine` field of `Call`.

The walk of `argNames` and the loop of `formatArgs` are methods. Each is
proved equal to a function that serves as its specification:
- `Names.ArgNames` equals `ExpectedNames`: the names of the matching calls
  among `Preorder(tree)`, call after call.
- `Formatter.FormatArgs` fills a preallocated array, as the source fills its
  slice. It equals `FormattedArgs`.

## Model

| member | source | states |
|---|---|---|
| GoAst.Preorder | qq.go:77-97 | the visit order of `ast.Inspect`: a node is visited before its children's subtrees, which come in source order |
| Names.QqCall | qq.go:104-116 | true exactly when the callee is a selector whose base is an identifier spelled `qq` |
| Names.QqCallAnySelector | qq.go:104-116 | the selected name is not looked at: `qq.Anything(...)` qualifies |
| Names.QqCallRejects | qq.go:105-113 | a plain call `f(...)` and a call `a.b.C(...)` with a non-identifier base do not qualify |
| Names.ArgName | qq.go:121-139 | a variable gives its object's name; a binary, call, index, key-value, paren, slice, type-assert or unary expression gives the printer's text; everything else gives "" (unresolved identifiers included, see Findings) |
| Names.ArgNameAsWritten | qq.go:123-127 | the source's argName panics exactly on an identifier with no object; on every other argument it gives ArgName's result |
| Names.ArgNameList | qq.go:93-95 | one name per argument, name i is that of argument i |
| Names.MatchingCalls | qq.go:78-91 | keeps exactly the call nodes that end on the line and are qq calls |
| Names.AppendArgNames | qq.go:93-95 | the argument loop appends the arguments' names, in order, after the names collected so far |
| Names.ExpectedNames | qq.go:76-99 | what argNames returns for a parsed file: the argument names of every matching call, call after call in visit order; their number is the total argument count of those calls |
| Names.VisitAll | qq.go:77-97 | applying the visitor to each visited node in turn collects exactly the names of the matching nodes among them, in order |
| Names.VisitStep | qq.go:78-95 | one visit adds a matching node's argument names after those found so far, and nothing for any other node |
| Names.ArgNames | qq.go:69-100 | a parse error is returned with no names; otherwise the result is the concatenation, in visit order, of the argument names of every matching call |
| Names.NoMatchNoNames | qq.go:76-99 | with no matching call on the line the name list is empty |
| Names.EnclosingCallNamesFirst | qq.go:77-97 | a matching call's own argument names come before every name found below it |
| GoAst.PreorderOfCall | qq.go:77-97 | a call is visited before its callee's subtree, which is visited before its arguments' subtrees |
| Names.CallNamesSplit | qq.go:77-97 | the visitor always returns true, so the names found under a call are its own (when it matches), then those under its callee, then those under its arguments |
| Names.SubtreeNamesCons | qq.go:77-97 | the names under a run of arguments are the first argument's, then the rest's |
| Names.SubtreeNamesPair | qq.go:77-97 | the names under two arguments are the first's, then the second's |
| Colors.Colorize | qq.go:190-192 | the result is the colour code, then the text, then the reset code |
| Colors.UncolorColorize | qq.go:190-192 | removing the codes from a colorized text gives the text back |
| Colors.ColorizeUncolor | qq.go:190-192 | every string that Uncolor accepts is the colorized form of what Uncolor returns |
| Formatter.FormatEntry | qq.go:174-183 | one entry: the rendered value in cyan, preceded, for a non-empty name, by the name in bold and "="; its length is that of those parts |
| Formatter.EntryShape | qq.go:174-183 | a named entry starts with the bold code, and an unnamed entry does not; every entry ends with the value in cyan |
| Formatter.EntryDecodes | qq.go:174-183 | an entry decodes back to its name and its rendered value, if the name holds no escape character |
| Formatter.FormattedArgs | qq.go:171-186 | the result has exactly one entry per value |
| Formatter.FormattedArgsAt | qq.go:173-183 | entry i depends only on names[i] and values[i], so order is preserved |
| Formatter.FormattedArgsDecode | qq.go:173-183 | entry i decodes to (names[i], render(values[i])) |
| Formatter.FormatArgs | qq.go:171-186 | needs at least as many names as values (qq.go:177 does not check); returns len(values) entries, entry i being FormatEntry(names[i], render(values[i])) |
| Logging.LoggedArgsAsWritten | qq.go:44-48 | the source panics exactly when the caller is known, the file parses and there are fewer names than values; otherwise every value is printed |
| Logging.LoggedArgs | qq.go:44-48 | one printed argument per value; values stay unnamed unless the caller is known, the file parses and there are exactly as many names as values; a formatted entry i pairs name i with value i |
| Logging.Log | qq.go:41-48 | composing ArgNames and FormatArgs gives LoggedArgs |
| Logging.AsWrittenAgrees | qq.go:45-47 | where the counts agree (or no naming is attempted), the source and the corrected step print the same |
| Logging.AsWrittenPanicsWithoutMatch | qq.go:45-47 | a parsed file with no matching call makes the source panic for any non-empty value list; the corrected step prints the values unnamed |
| Logging.SpreadArgumentPanics | qq.go:177 | `qq.Log(xs...)` with two values panics in the source and is unnamed in the corrected step |
| Logging.DocExampleNames | qq.go:64-67 | for `qq.Log(ip, port, 5432)` the names are "ip", "port" and "" |
| Logging.DocExampleOutput | qq.go:167-183 | that call prints `ip=value` and `port=value` with coloured parts, then the literal's bare coloured value |
| Logging.QqLogTwoArgs | qq.go:77-97 | `qq.Log(a, b)` gives its own two names, then the names found under a, then those found under b |
| Logging.PlainCallAroundQqCall | qq.go:84-95 | a plain call `f(qq.S(y))` on the line is not a qq call, but the qq call in its argument is visited and gives y |
| Logging.NestedCallNamesFollow | qq.go:77-97 | `qq.Log(x, f(qq.S(y)))` on one line gives x, the printed `f(...)`, then y: the nested call is visited and its names follow the outer call's |
| Logging.SameLineCallsNames | qq.go:84-95 | two qq calls ending on one line both contribute their names, in visit order |
| Logging.SameLineCallsMisattributed | qq.go:173-183 | when the second of those calls runs, the source labels its value with the first call's name; the corrected step leaves it unnamed |
| Logging.UnresolvedIdentPanics | qq.go:125 | `qq.Log(true)` makes the source's argName dereference a nil object; the corrected ArgName gives "" |
| Logging.UnparsableFileUnnamed | qq.go:45-47 | an unparsable file leaves every value unnamed, in the source and in the corrected step |

## Left out

- `runtime.Caller` (qq.go:43): process introspection. Its `ok` result is the `callerOk` parameter; the file and line are inputs.
- `parser.ParseFile` (qq.go:71): foreign. Its outcome is an input, a tree or an error message.
- `go/printer` inside `exprToString` (qq.go:142-147): foreign. It is the `printer` parameter.
- `fmt.Sprintf("%#v")` (qq.go:174): foreign. It is the `render` parameter.
- `prefix` (qq.go:150-156): built from `time.Now`, `runtime.FuncForPC` and `filepath.Base`, all foreign.
- The logger's prefix and output (qq.go:50, 55, 60-61): process-wide state and I/O. So are `openLog` and its panic when the file cannot be opened (qq.go:158-165).
- The grouping timer (qq.go:37, 53-56): it depends on a wall clock and a process-wide timer.
- Concurrency. Calls from several goroutines race on the shared logger and timer; the model has neither.
- The rest of the `go/ast` tree. The node kinds that argName or qqCall look at are constructors. So are BasicLit, CompositeLit and Star, as examples of arguments with no name. All other nodes are `Other(children)`. A selector's selected name is a string; it is an identifier, so a walk finds no call in it.
- `ast.Inspect`'s own recursion: it is library code. The model visits the nodes in `Preorder` order, and the visitor never stops the walk.
- The `Yellow` colour (qq.go:21) is declared, but nothing in the core uses it.
- Names.ArgNames: it uses the corrected ArgName. An argument `true` in a matching call gives "" where the source panics at qq.go:125 inside `ast.Inspect`. Names.ArgNameAsWritten covers the nil dereference. Names.VisitAll and Names.ExpectedNames have the same limit.
- Logging.Log: it uses the corrected ArgName through Names.ArgNames, so the nil dereference at qq.go:125 is not reproduced. Logging.LoggedArgs has the same limit.
- Logging.LoggedArgsAsWritten: it uses the corrected ArgName, so its panic covers the index error at qq.go:177 only. The nil dereference at qq.go:125 is covered by Names.ArgNameAsWritten.

## Findings

The intended behaviour is this: when there are not exactly as many names as values, every value is logged unnamed. `qq.go` does not do this. Log calls formatArgs whenever parsing succeeds, with no check on the counts.

| source | as written | input that shows it | evidently intended | confidence | as-written member | corrected member |
|---|---|---|---|---|---|---|
| qq.go:125 | `a.Obj.Kind` is read with no nil check | `qq.Log(true)`: the parser resolves names only against the file's own scopes, so `true` keeps a nil `Obj` and the call panics | an unresolved identifier gets the empty name | not executed; high | Names.ArgNameAsWritten, Logging.UnresolvedIdentPanics | Names.ArgName, Names.ArgNames, Logging.Log |
| qq.go:177 | `names[i]` is read for every `i < len(values)` with no length check | `xs := []interface{}{1, 2}; qq.Log(xs...)`: one argument node, two values, so index 1 is out of range | names are dropped and the values logged unnamed when the counts differ | not executed; high | Logging.LoggedArgsAsWritten, Logging.SpreadArgumentPanics | Logging.LoggedArgs, Logging.Log |
