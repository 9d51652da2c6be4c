/**
 * formatArgs (qq.go:167-186): each runtime value, rendered by `render` (the
 * `fmt.Sprintf("%#v", ...)` of the source), becomes `value` or `name=value`,
 * each part wrapped in its colour.
 */
module Formatter {
  import opened Wrappers
  import opened Colors

  /** One entry of formatArgs' result (qq.go:174-183); `val` is the rendered
      value. */
  function FormatEntry(name: string, val: string): (r: string)
    ensures |r| == |Cyan| + |val| + |EndColor| + (if name == "" then 0 else |Bold| + |name| + |EndColor| + 1)
  {
    var v := Colorize(val, Cyan);
    if name == "" then v else Colorize(name, Bold) + "=" + v
  }

  /** A named entry starts with the bold code and an unnamed one with the
      cyan code; both end with the coloured value. */
  lemma EntryShape(name: string, val: string)
    ensures var e := FormatEntry(name, val);
            |e| >= |Colorize(val, Cyan)| > |Bold|
            && (name != "" <==> e[..|Bold|] == Bold)
            && e[|e| - |Colorize(val, Cyan)|..] == Colorize(val, Cyan)
  {
    var v := Colorize(val, Cyan);
    if name == "" {
      assert v[..|Bold|] != Bold by { assert v[2] != Bold[2]; }
    } else {
      var e := Colorize(name, Bold) + "=" + v;
      assert e[..|Bold|] == Bold;
      assert e[|e| - |v|..] == v;
    }
  }

  /** DecodeEntry inverts FormatEntry whenever the name holds no escape
      character. */
  lemma EntryDecodes(name: string, val: string)
    requires Esc !in name
    ensures DecodeEntry(FormatEntry(name, val)) == Some((name, val))
  {
    if name == "" {
      var v := Colorize(val, Cyan);
      assert v[..|Cyan|] == Cyan;
      assert Uncolor(v, Cyan) == Some(val);
    } else {
      NamedEntryDecodes(name, val);
    }
  }

  /** The index of the first escape character of `s` at or after `i`, or |s|. */
  function FirstEsc(s: string, i: nat): (j: nat)
    requires i <= |s|
    ensures i <= j <= |s|
    decreases |s| - i
  {
    if i == |s| then |s| else if s[i] == Esc then i else FirstEsc(s, i + 1)
  }

  /** Splits an entry back into its name ("" when it has none) and its
      rendered value, when the name holds no escape character. */
  function DecodeEntry(e: string): Option<(string, string)>
  {
    if |e| >= |Cyan| && e[..|Cyan|] == Cyan then
      match Uncolor(e, Cyan)
      case Some(v) => Some(("", v))
      case None => None
    else if |e| >= |Bold| && e[..|Bold|] == Bold then
      var j := FirstEsc(e, |Bold|);
      var rest := e[j..];
      if |rest| >= |EndColor| + 1 && rest[..|EndColor| + 1] == EndColor + "=" then
        match Uncolor(rest[|EndColor| + 1..], Cyan)
        case Some(v) => Some((e[|Bold|..j], v))
        case None => None
      else None
    else None
  }

  lemma {:induction false} FirstEscAt(s: string, i: nat, j: nat)
    requires i <= j < |s| && s[j] == Esc
    requires forall k :: i <= k < j ==> s[k] != Esc
    ensures FirstEsc(s, i) == j
    decreases j - i
  {
    if i < j {
      FirstEscAt(s, i + 1, j);
    }
  }

  lemma NamedEntryDecodes(name: string, val: string)
    requires name != "" && Esc !in name
    ensures DecodeEntry(Colorize(name, Bold) + "=" + Colorize(val, Cyan)) == Some((name, val))
  {
    var v := Colorize(val, Cyan);
    var e := Colorize(name, Bold) + "=" + v;
    var j := |Bold| + |name|;
    assert e[..|Cyan|] != Cyan by { assert e[2] != Cyan[2]; }
    assert e[..|Bold|] == Bold;
    forall k | |Bold| <= k < j ensures e[k] != Esc {
      assert e[k] == name[k - |Bold|];
    }
    FirstEscAt(e, |Bold|, j);
    assert e[j..] == EndColor + "=" + v;
    assert (EndColor + "=" + v)[|EndColor| + 1..] == v;
    assert e[|Bold|..j] == name;
  }

  /** formatArgs' result as a value: one entry per runtime value, entry i
      pairing names[i] with values[i]. */
  function FormattedArgs<V>(names: seq<string>, values: seq<V>, render: V -> string): (r: seq<string>)
    requires |values| <= |names|
    ensures |r| == |values|
  {
    if values == [] then []
    else [FormatEntry(names[0], render(values[0]))] + FormattedArgs(names[1..], values[1..], render)
  }

  lemma {:induction false} FormattedArgsAt<V>(names: seq<string>, values: seq<V>, render: V -> string, i: nat)
    requires |values| <= |names| && i < |values|
    ensures FormattedArgs(names, values, render)[i] == FormatEntry(names[i], render(values[i]))
  {
    if i > 0 {
      FormattedArgsAt(names[1..], values[1..], render, i - 1);
    }
  }

  /** Every entry whose name has no escape character decodes back to its
      name and the rendered value at the same position. */
  lemma FormattedArgsDecode<V>(names: seq<string>, values: seq<V>, render: V -> string, i: nat)
    requires |values| <= |names| && i < |values| && Esc !in names[i]
    ensures DecodeEntry(FormattedArgs(names, values, render)[i]) == Some((names[i], render(values[i])))
  {
    FormattedArgsAt(names, values, render, i);
    EntryDecodes(names[i], render(values[i]));
  }

  /** formatArgs. qq.go:177 reads names[i] for every i below len(values)
      without checking the length of names, so callers must pass at least as
      many names as values. */
  method FormatArgs<V>(names: seq<string>, values: seq<V>, render: V -> string)
    returns (formatted: seq<string>)
    requires |values| <= |names|
    ensures |formatted| == |values|
    ensures forall i :: 0 <= i < |values| ==> formatted[i] == FormatEntry(names[i], render(values[i]))
    ensures formatted == FormattedArgs(names, values, render)
  {
    var buf := new string[|values|];
    for i := 0 to |values|
      invariant forall k :: 0 <= k < i ==> buf[k] == FormatEntry(names[k], render(values[k]))
    {
      var val := render(values[i]);
      val := Colorize(val, Cyan);
      if names[i] == "" {
        buf[i] := val;
      } else {
        var name := Colorize(names[i], Bold);
        buf[i] := name + "=" + val;
      }
    }
    formatted := buf[..];
    forall i | 0 <= i < |values|
      ensures formatted[i] == FormattedArgs(names, values, render)[i]
    {
      FormattedArgsAt(names, values, render, i);
    }
  }
}
