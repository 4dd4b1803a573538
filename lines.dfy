/** Text files as Python's `for line in f` sees them: every line keeps its
    terminating '\n', and a last piece without one is a line too. */
module FileLines {

  /** Empty, or ending with a newline: appending to it starts a fresh line. */
  predicate Terminated(text: string) {
    text == [] || text[|text| - 1] == '\n'
  }

  function Concat(ls: seq<string>): string {
    if ls == [] then [] else ls[0] + Concat(ls[1..])
  }

  /** The length of the first line: up to and including the first '\n', or all of `text`. */
  function FirstLineLength(text: string): (n: nat)
    requires text != []
    ensures 0 < n <= |text|
    ensures forall k :: 0 <= k < n - 1 ==> text[k] != '\n'
    ensures n < |text| ==> text[n - 1] == '\n'
  {
    if text[0] == '\n' || |text| == 1 then 1
    else 1 + FirstLineLength(text[1..])
  }

  /** A non-empty piece of text with no newline except possibly at its end. */
  predicate IsLine(l: string) {
    l != [] && forall k :: 0 <= k < |l| - 1 ==> l[k] != '\n'
  }

  predicate EndsWithNewline(l: string) {
    l != [] && l[|l| - 1] == '\n'
  }

  /** The lines of `text`, in order. */
  function Lines(text: string): (ls: seq<string>)
    ensures forall i :: 0 <= i < |ls| ==> IsLine(ls[i])
    ensures forall i :: 0 <= i < |ls| - 1 ==> EndsWithNewline(ls[i])
    ensures ls != [] && Terminated(text) ==> EndsWithNewline(ls[|ls| - 1])
    decreases |text|
  {
    if text == [] then []
    else
      var n := FirstLineLength(text);
      var line, rest := text[..n], Lines(text[n..]);
      var ls := [line] + rest;
      assert rest != [] ==> EndsWithNewline(line);
      ls
  }

  /** Concatenation of a list that starts with `l`. */
  lemma ConcatCons(l: string, ls: seq<string>)
    ensures Concat([l] + ls) == l + Concat(ls)
  {
    assert ([l] + ls)[0] == l && ([l] + ls)[1..] == ls;
  }

  /** The first line of a non-empty text, followed by the lines of the rest. */
  lemma LinesUnfold(text: string, n: nat)
    requires text != [] && n == FirstLineLength(text)
    ensures Lines(text) == [text[..n]] + Lines(text[n..])
  {
  }

  /** Joining the lines back together gives the file contents again. */
  lemma {:induction false} LinesConcat(text: string)
    ensures Concat(Lines(text)) == text
    decreases |text|
  {
    if text != [] {
      var n := FirstLineLength(text);
      LinesUnfold(text, n);
      LinesConcat(text[n..]);
      ConcatCons(text[..n], Lines(text[n..]));
      assert text[..n] + text[n..] == text;
    }
  }

  lemma FirstLineLengthAt(text: string, n: nat)
    requires 0 < n <= |text| && text[n - 1] == '\n'
    requires forall k :: 0 <= k < n - 1 ==> text[k] != '\n'
    ensures FirstLineLength(text) == n
  {
  }

  /** Appending to a terminated file keeps all its lines and adds those of the new text. */
  lemma {:induction false} LinesAppend(a: string, b: string)
    requires Terminated(a)
    ensures Lines(a + b) == Lines(a) + Lines(b)
    decreases |a|
  {
    if a == [] {
      assert a + b == b;
    } else {
      var n := FirstLineLength(a);
      FirstLineLengthAt(a + b, n);
      assert (a + b)[..n] == a[..n];
      assert (a + b)[n..] == a[n..] + b;
      assert Terminated(a[n..]);
      LinesAppend(a[n..], b);
      calc {
        Lines(a + b);
        [a[..n]] + Lines(a[n..] + b);
        [a[..n]] + (Lines(a[n..]) + Lines(b));
        ([a[..n]] + Lines(a[n..])) + Lines(b);
        Lines(a) + Lines(b);
      }
    }
  }

  /** A longer file that begins with a terminated one begins with its lines. */
  lemma LinesOfExtension(a: string, b: string)
    requires Terminated(a) && a <= b
    ensures Lines(a) <= Lines(b)
  {
    var x := b[|a|..];
    assert b == a + x;
    LinesAppend(a, x);
  }

  /** A newline-free string followed by '\n' is one line. */
  lemma OneLine(t: string)
    requires '\n' !in t
    ensures Lines(t + "\n") == [t + "\n"]
  {
    var l := t + "\n";
    assert forall k :: 0 <= k < |t| ==> l[k] == t[k] && t[k] in t;
    FirstLineLengthAt(l, |l|);
    assert l[..|l|] == l && l[|l|..] == [];
  }

  /** Text without a newline is a single (unterminated) line. */
  lemma WholeLine(t: string)
    requires t != [] && '\n' !in t
    ensures Lines(t) == [t]
  {
    var n := FirstLineLength(t);
    assert n == |t|;
    assert t[..n] == t && t[n..] == [];
  }

  /** Writing `t + "\n"` to a terminated file adds exactly the line `t + "\n"`
      and leaves the file terminated. */
  lemma AppendLine(text: string, t: string)
    requires Terminated(text) && '\n' !in t
    ensures Lines(text + t + "\n") == Lines(text) + [t + "\n"]
    ensures Terminated(text + t + "\n")
  {
    assert text + t + "\n" == text + (t + "\n");
    LinesAppend(text, t + "\n");
    OneLine(t);
  }
}
