/** ANSI colour markup (qq.go:17-24, 188-192). */
module Colors {
  import opened Wrappers

  /** The escape character that starts every code. */
  const Esc: char := '\U{1b}'

  const Bold: string := "\U{1b}[1m"
  const Yellow: string := "\U{1b}[33m"
  const Cyan: string := "\U{1b}[36m"
  /** "Reset everything". */
  const EndColor: string := "\U{1b}[0m"

  /** colorize: the text between the colour's code and the reset code. */
  function Colorize(text: string, c: string): (r: string)
    ensures |r| == |c| + |text| + |EndColor|
    ensures r[..|c|] == c
    ensures r[|c|..|c| + |text|] == text
    ensures r[|c| + |text|..] == EndColor
  {
    c + text + EndColor
  }

  /** The inverse of Colorize for a given colour: the text inside the codes,
      or None when `s` is not wrapped in `c` and the reset code. */
  function Uncolor(s: string, c: string): (r: Option<string>)
    ensures r.Some? <==> |s| >= |c| + |EndColor| && s[..|c|] == c && s[|s| - |EndColor|..] == EndColor
    ensures r.Some? ==> |r.value| == |s| - |c| - |EndColor|
  {
    if |s| >= |c| + |EndColor| && s[..|c|] == c && s[|s| - |EndColor|..] == EndColor
    then Some(s[|c|..|s| - |EndColor|])
    else None
  }

  lemma UncolorColorize(text: string, c: string)
    ensures Uncolor(Colorize(text, c), c) == Some(text)
  {
  }

  /** Every string Uncolor accepts is a colorized text. */
  lemma ColorizeUncolor(s: string, c: string)
    requires Uncolor(s, c).Some?
    ensures Colorize(Uncolor(s, c).value, c) == s
  {
  }
}
