/** The Brainfuck compiler: each source character becomes zero or more lines of Micro16
    assembly. W0 holds the data pointer, W3 the current cell, W2 the screen position, and a
    loop `[ ... ]` becomes a label and a branch back to it. Labels are `_1`, `_2`, ... in the
    order the `[`s appear; a stack of the labels of the loops still open pairs each `]` with
    its `[`.

    The compiler writes each line as soon as it has it, so when it stops on an error the
    lines written so far are already out: a result is those lines and how it stopped. */
module Brainfuck {
  import opened Numerals

  datatype Status =
    | Completed
    | UnmatchedClose   // a `]` with no loop open
    | UnclosedOpen     // the source ended inside a loop

  datatype Compiled = Compiled(lines: seq<string>, status: Status)

  /** The label of the `n`-th loop: `"_" + std::to_string(n)`. */
  function Label(n: nat): string {
    "_" + Numeral(n, 10)
  }

  /** The lines of a character that is not a bracket: `+` and `-` change the cell, `<` and
      `>` store the cell, move the pointer one word and load the new cell, `.` draws the cell
      and moves the screen position; `,` and every other character give nothing. */
  function Plain(c: char): seq<string> {
    match c
    case '+' => ["INC W3"]
    case '-' => ["DEC W3"]
    case '<' => ["ST W0 W3", "DEC W0", "DEC W0", "LD W0 W3"]
    case '>' => ["ST W0 W3", "INC W0", "INC W0", "LD W0 W3"]
    case '.' => ["SPXL W3 W2", "INC W2"]
    case _ => []
  }

  // ---------------------------------------------------------------------------------------
  // The source's bracket structure, read off the text

  /** How many loops are open after `s`: `[` counts up, `]` down. */
  function Depth(s: string): int {
    if s == [] then 0
    else Depth(s[..|s| - 1]) + (if s[|s| - 1] == '[' then 1 else if s[|s| - 1] == ']' then -1 else 0)
  }

  /** How many `[` there are in `s`. */
  function Opens(s: string): nat {
    if s == [] then 0 else Opens(s[..|s| - 1]) + (if s[|s| - 1] == '[' then 1 else 0)
  }

  /** Where the first `]` without an open loop is in `s`, or `|s|` if there is none. */
  function FirstUnmatched(s: string): (f: nat)
    ensures f <= |s|
  {
    if s == [] then 0
    else
      var g := FirstUnmatched(s[..|s| - 1]);
      if g < |s| - 1 then g
      else if s[|s| - 1] == ']' && Depth(s[..|s| - 1]) <= 0 then |s| - 1
      else |s|
  }

  /** The numbers of the loops still open after `s`, innermost last: a `[` opens the next
      number, a `]` closes the innermost. */
  function Unclosed(s: string): seq<nat> {
    if s == [] then []
    else
      var u := Unclosed(s[..|s| - 1]);
      if s[|s| - 1] == '[' then u + [Opens(s)]
      else if s[|s| - 1] == ']' && u != [] then u[..|u| - 1]
      else u
  }

  /** The lines for the character at `k`: a `[` declares the label of its number, a `]`
      branches back to the label of the innermost open loop while the cell is not zero. */
  function Chunk(src: string, k: nat): seq<string>
    requires k < |src|
  {
    var u := Unclosed(src[..k]);
    if src[k] == '[' then [".label " + Label(Opens(src[..k + 1]))]
    else if src[k] == ']' then
      if u == [] then [] else ["SETREG W1 " + Label(u[|u| - 1]), "BRNZ W1 W3"]
    else Plain(src[k])
  }

  /** The lines of the first `j` characters, one after another. */
  function Chunks(src: string, j: nat): seq<string>
    requires j <= |src|
  {
    if j == 0 then [] else Chunks(src, j - 1) + Chunk(src, j - 1)
  }

  /** What `dump_asm_repr` writes and how it ends: the lines up to the first unmatched `]`
      and an error there; otherwise all the lines, and an error if a loop is still open. */
  function Compile(src: string): (r: Compiled) {
    var f := FirstUnmatched(src);
    if f < |src| then Compiled(Chunks(src, f), UnmatchedClose)
    else Compiled(Chunks(src, |src|), if Depth(src) == 0 then Completed else UnclosedOpen)
  }

  // ---------------------------------------------------------------------------------------
  // One character at a time

  /** Reading one more character: how each measure of the text moves. */
  lemma Extend(src: string, i: nat)
    requires i < |src|
    ensures var s, s' := src[..i], src[..i + 1];
      && Depth(s') == Depth(s) + (if src[i] == '[' then 1 else if src[i] == ']' then -1 else 0)
      && Opens(s') == Opens(s) + (if src[i] == '[' then 1 else 0)
      && Unclosed(s') ==
           (if src[i] == '[' then Unclosed(s) + [Opens(s')]
            else if src[i] == ']' && Unclosed(s) != [] then Unclosed(s)[..|Unclosed(s)| - 1]
            else Unclosed(s))
      && FirstUnmatched(s') ==
           (if FirstUnmatched(s) < i then FirstUnmatched(s)
            else if src[i] == ']' && Depth(s) <= 0 then i
            else i + 1)
  {
    assert src[..i + 1][..i] == src[..i];
  }

  /** While no `]` has been unmatched, the open loops are exactly `Depth` many. */
  lemma {:induction false} UnclosedDepth(s: string)
    requires FirstUnmatched(s) == |s|
    ensures |Unclosed(s)| == Depth(s)
    decreases |s|
  {
    if s != [] {
      var front := s[..|s| - 1];
      assert s == front + [s[|s| - 1]];
      Extend(s, |s| - 1);
      assert s[..|s|] == s;
      UnclosedDepth(front);
    }
  }

  /** The first unmatched `]` of the whole source is the first one of any prefix that has one. */
  lemma {:induction false} FirstUnmatchedPrefix(src: string, j: nat)
    requires j <= |src| && FirstUnmatched(src[..j]) < j
    ensures FirstUnmatched(src) == FirstUnmatched(src[..j])
    decreases |src| - j
  {
    if j < |src| {
      Extend(src, j);
      FirstUnmatchedPrefix(src, j + 1);
    } else {
      assert src[..j] == src;
    }
  }

  /** The labels of the loops numbered in `ns`. */
  function LabelsOf(ns: seq<nat>): (ls: seq<string>)
    ensures |ls| == |ns|
    ensures forall k :: 0 <= k < |ns| ==> ls[k] == Label(ns[k])
  {
    seq(|ns|, k requires 0 <= k < |ns| => Label(ns[k]))
  }

  /** A `[` with no unmatched `]` before it: a new label, declared and pushed. */
  lemma OpenStep(src: string, i: nat)
    requires i < |src| && FirstUnmatched(src[..i]) == i && src[i] == '['
    ensures var s, s' := src[..i], src[..i + 1];
      && FirstUnmatched(s') == i + 1 && Opens(s') == Opens(s) + 1
      && Chunk(src, i) == [".label " + Label(Opens(s'))]
      && LabelsOf(Unclosed(s')) == LabelsOf(Unclosed(s)) + [Label(Opens(s'))]
  {
    Extend(src, i);
  }

  /** A `]` with a loop open: a branch to the innermost open label, which is popped. */
  lemma CloseStep(src: string, i: nat)
    requires i < |src| && FirstUnmatched(src[..i]) == i && src[i] == ']' && Unclosed(src[..i]) != []
    ensures var s, s' := src[..i], src[..i + 1];
      var stack := LabelsOf(Unclosed(s));
      && FirstUnmatched(s') == i + 1 && Opens(s') == Opens(s)
      && Chunk(src, i) == ["SETREG W1 " + stack[|stack| - 1], "BRNZ W1 W3"]
      && LabelsOf(Unclosed(s')) == stack[..|stack| - 1]
  {
    Extend(src, i);
    UnclosedDepth(src[..i]);
  }

  /** A `]` with no loop open is the first unmatched one: the result is the lines so far. */
  lemma UnmatchedStep(src: string, i: nat)
    requires i < |src| && FirstUnmatched(src[..i]) == i && src[i] == ']' && Unclosed(src[..i]) == []
    ensures Compile(src) == Compiled(Chunks(src, i), UnmatchedClose)
  {
    Extend(src, i);
    UnclosedDepth(src[..i]);
    FirstUnmatchedPrefix(src, i + 1);
  }

  /** Any other character: its plain lines, and the loops stay as they are. */
  lemma PlainStep(src: string, i: nat)
    requires i < |src| && FirstUnmatched(src[..i]) == i && src[i] != '[' && src[i] != ']'
    ensures var s, s' := src[..i], src[..i + 1];
      && FirstUnmatched(s') == i + 1 && Opens(s') == Opens(s)
      && Chunk(src, i) == Plain(src[i])
      && Unclosed(s') == Unclosed(s)
  {
    Extend(src, i);
  }

  /** At the end of the source with no unmatched `]`, the result is all the lines, and an
      error exactly when a loop is still open. */
  lemma CompileEnd(src: string, i: nat)
    requires i == |src| && FirstUnmatched(src[..i]) == i
    ensures Compile(src) ==
      Compiled(Chunks(src, i), if LabelsOf(Unclosed(src[..i])) == [] then Completed else UnclosedOpen)
  {
    assert src[..i] == src;
    UnclosedDepth(src);
  }

  // ---------------------------------------------------------------------------------------
  // The compiler

  /** `bfc::dump_asm_repr`: read the source a character at a time, counting labels and
      keeping the stack of open loops' labels; stop with an error at a `]` when the stack is
      empty, and at the end when it is not. */
  method DumpAsmRepr(source: string) returns (r: Compiled)
    ensures r == Compile(source)
  {
    var labelN := 0;
    var labelStack: seq<string> := [];
    var lines: seq<string> := [];
    var i := 0;
    while i < |source|
      invariant i <= |source| && FirstUnmatched(source[..i]) == i
      invariant labelN == Opens(source[..i])
      invariant labelStack == LabelsOf(Unclosed(source[..i]))
      invariant lines == Chunks(source, i)
    {
      var c := source[i];
      if c == '[' {
        OpenStep(source, i);
        labelN := labelN + 1;
        var name := "_" + Numeral(labelN, 10);
        labelStack := labelStack + [name];
        lines := lines + [".label " + name];
      } else if c == ']' {
        if labelStack == [] {
          UnmatchedStep(source, i);
          return Compiled(lines, UnmatchedClose);
        }
        CloseStep(source, i);
        var name := labelStack[|labelStack| - 1];
        labelStack := labelStack[..|labelStack| - 1];
        lines := lines + ["SETREG W1 " + name];
        lines := lines + ["BRNZ W1 W3"];
      } else {
        PlainStep(source, i);
        lines := lines + Plain(c);
      }
      i := i + 1;
    }
    CompileEnd(source, i);
    if labelStack != [] {
      return Compiled(lines, UnclosedOpen);
    }
    return Compiled(lines, Completed);
  }
}
