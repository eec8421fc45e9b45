/** What the Brainfuck compiler promises: it completes exactly on balanced sources, each loop
    gets its own label, every branch goes to a label declared before it, the lines written
    before an error are those of the source up to the error, and a source without loops
    compiles character by character. */
module BrainfuckProperties {
  import opened Numerals
  import opened Brainfuck

  /** No prefix closes more loops than it opens. */
  predicate NeverBelow(s: string) {
    forall k :: 0 <= k <= |s| ==> Depth(s[..k]) >= 0
  }

  /** Brackets pair up: no prefix goes below zero and the whole source ends at zero. */
  predicate Balanced(s: string) {
    NeverBelow(s) && Depth(s) == 0
  }

  /** A source never goes below zero when its front never does and it ends at zero or above. */
  lemma NeverBelowStep(s: string)
    requires s != []
    ensures NeverBelow(s) <==> NeverBelow(s[..|s| - 1]) && Depth(s) >= 0
  {
    if NeverBelow(s) {
      NeverBelowFront(s);
    }
    if NeverBelow(s[..|s| - 1]) && Depth(s) >= 0 {
      NeverBelowExtend(s);
    }
  }

  /** The front of a source that never goes below zero never does either. */
  lemma NeverBelowFront(s: string)
    requires s != [] && NeverBelow(s)
    ensures NeverBelow(s[..|s| - 1]) && Depth(s) >= 0
  {
    var front := s[..|s| - 1];
    assert s[..|s|] == s;
    forall k | 0 <= k <= |front|
      ensures Depth(front[..k]) >= 0
    {
      assert front[..k] == s[..k];
    }
  }

  /** A source whose front never goes below zero, and that ends at zero or above, never does. */
  lemma NeverBelowExtend(s: string)
    requires s != [] && NeverBelow(s[..|s| - 1]) && Depth(s) >= 0
    ensures NeverBelow(s)
  {
    var front := s[..|s| - 1];
    forall k | 0 <= k <= |s|
      ensures Depth(s[..k]) >= 0
    {
      if k < |s| {
        assert s[..k] == front[..k];
      } else {
        assert s[..k] == s;
      }
    }
  }

  /** There is no unmatched `]` exactly when no prefix goes below zero. */
  lemma {:induction false} FirstUnmatchedNeverBelow(s: string)
    ensures FirstUnmatched(s) == |s| <==> NeverBelow(s)
    decreases |s|
  {
    if s == [] {
      assert s[..0] == s;
    } else {
      FirstUnmatchedNeverBelow(s[..|s| - 1]);
      NeverBelowStep(s);
    }
  }

  /** The compiler completes exactly on balanced sources; it stops at an unmatched `]`
      exactly when some prefix closes more loops than it opens, and otherwise reports an open
      loop exactly when the source ends inside one. */
  lemma CompileStatus(src: string)
    ensures Compile(src).status == Completed <==> Balanced(src)
    ensures Compile(src).status == UnmatchedClose <==> !NeverBelow(src)
    ensures Compile(src).status == UnclosedOpen <==> NeverBelow(src) && Depth(src) > 0
  {
    FirstUnmatchedNeverBelow(src);
    if NeverBelow(src) {
      assert src[..|src|] == src;
    }
  }

  // ---------------------------------------------------------------------------------------
  // Labels

  /** Counting `[`s never goes down along the source. */
  lemma {:induction false} OpensGrow(src: string, i: nat, j: nat)
    requires i <= j <= |src|
    ensures Opens(src[..i]) <= Opens(src[..j])
    decreases j - i
  {
    if i < j {
      OpensStep(src, i);
      OpensGrow(src, i + 1, j);
    }
  }

  /** One more character counts one more `[` exactly when it is one. */
  lemma OpensStep(src: string, i: nat)
    requires i < |src|
    ensures Opens(src[..i + 1]) == Opens(src[..i]) + (if src[i] == '[' then 1 else 0)
  {
    assert src[..i + 1][..i] == src[..i];
  }

  /** A `[` declares the label numbered by the `[`s up to and including it. */
  lemma OpenChunk(src: string, i: nat)
    requires i < |src| && src[i] == '['
    ensures Chunk(src, i) == [".label " + Label(Opens(src[..i + 1]))]
  {
  }

  /** The loop number is what follows `.label _` in a declaration. */
  lemma DeclarationNumeral(a: nat)
    ensures (".label " + Label(a))[8..] == Numeral(a, 10)
  {
  }

  /** Declaring two loops' labels gives the same line only for the same loop number. */
  lemma DeclarationInjective(a: nat, b: nat)
    ensures ".label " + Label(a) == ".label " + Label(b) ==> a == b
  {
    NumeralInjective(a, b, 10);
    DeclarationNumeral(a);
    DeclarationNumeral(b);
  }

  /** Two different `[`s declare different labels: the `k`-th declares `_k`. */
  lemma LabelsDistinct(src: string, i: nat, j: nat)
    requires i < j < |src| && src[i] == '[' && src[j] == '['
    ensures Chunk(src, i) != Chunk(src, j)
  {
    OpensStep(src, j);
    OpensGrow(src, i + 1, j);
    OpenChunk(src, i);
    OpenChunk(src, j);
    DeclarationInjective(Opens(src[..i + 1]), Opens(src[..j + 1]));
  }

  /** The loops still open are numbered among the loops opened so far. */
  lemma {:induction false} UnclosedNumbered(s: string)
    ensures forall k :: 0 <= k < |Unclosed(s)| ==> 1 <= Unclosed(s)[k] <= Opens(s)
    decreases |s|
  {
    if s != [] {
      var front := s[..|s| - 1];
      UnclosedNumbered(front);
      Extend(s, |s| - 1);
      assert s[..|s|] == s;
    }
  }

  /** Each loop counted in the first `j` characters was opened by a `[` among them. */
  lemma {:induction false} OpenedAt(src: string, j: nat, n: nat) returns (k: nat)
    requires j <= |src| && 1 <= n <= Opens(src[..j])
    ensures k < j && src[k] == '[' && Opens(src[..k + 1]) == n
    decreases j
  {
    assert src[..0] == [];
    OpensStep(src, j - 1);
    if n <= Opens(src[..j - 1]) {
      k := OpenedAt(src, j - 1, n);
    } else {
      k := j - 1;
    }
  }

  /** The lines of each of the first `j` characters are among the lines of the first `j`. */
  lemma {:induction false} ChunksContain(src: string, j: nat, k: nat, x: string)
    requires k < j <= |src| && x in Chunk(src, k)
    ensures x in Chunks(src, j)
    decreases j
  {
    assert Chunks(src, j) == Chunks(src, j - 1) + Chunk(src, j - 1);
    if k < j - 1 {
      ChunksContain(src, j - 1, k, x);
    }
  }

  /** After `j` characters, each of the loops opened so far has had its label declared. */
  lemma DeclaredSoFar(src: string, j: nat, n: nat)
    requires j <= |src| && 1 <= n <= Opens(src[..j])
    ensures ".label " + Label(n) in Chunks(src, j)
  {
    var k := OpenedAt(src, j, n);
    OpenChunk(src, k);
    ChunksContain(src, j, k, ".label " + Label(n));
  }

  /** A `]` inside a loop branches to the label of the innermost open loop, and that label
      has been declared in the lines before it. */
  lemma JumpsDeclared(src: string, j: nat)
    requires j < |src| && src[j] == ']' && Unclosed(src[..j]) != []
    ensures var u := Unclosed(src[..j]);
      && Chunk(src, j) == ["SETREG W1 " + Label(u[|u| - 1]), "BRNZ W1 W3"]
      && ".label " + Label(u[|u| - 1]) in Chunks(src, j)
  {
    var u := Unclosed(src[..j]);
    UnclosedNumbered(src[..j]);
    DeclaredSoFar(src, j, u[|u| - 1]);
  }

  // ---------------------------------------------------------------------------------------
  // Output

  /** The lines for the first `j` characters depend on those characters alone. */
  lemma {:induction false} ChunksPrefix(src: string, j: nat)
    requires j <= |src|
    ensures Chunks(src, j) == Chunks(src[..j], j)
    decreases j
  {
    if j > 0 {
      var p := src[..j];
      ChunksPrefix(src, j - 1);
      ChunksPrefix(p, j - 1);
      assert p[..j - 1] == src[..j - 1];
      assert p[..j - 1 + 1] == src[..j - 1 + 1];
      assert Chunk(src, j - 1) == Chunk(p, j - 1);
    }
  }

  /** On an unmatched `]`, the lines already written are all the lines the source before it
      compiles to. */
  lemma LinesBeforeError(src: string)
    requires Compile(src).status == UnmatchedClose
    ensures var f := FirstUnmatched(src);
      f < |src| && Compile(src).lines == Compile(src[..f]).lines
  {
    var f := FirstUnmatched(src);
    ChunksPrefix(src, f);
    var p := src[..f];
    FirstUnmatchedOfPrefix(src, f);
    assert p[..f] == p;
  }

  /** The prefix before the first unmatched `]` has none of its own. */
  lemma {:induction false} FirstUnmatchedOfPrefix(src: string, f: nat)
    requires f == FirstUnmatched(src) && f < |src|
    ensures FirstUnmatched(src[..f]) == f
  {
    FirstUnmatchedNeverBelow(src);
    FirstUnmatchedNeverBelow(src[..f]);
    if !NeverBelow(src[..f]) {
      var k :| 0 <= k <= f && Depth(src[..f][..k]) < 0;
      assert src[..f][..k] == src[..k];
      BelowAfter(src, k);
    }
  }

  /** A prefix that goes below zero puts the first unmatched `]` inside it. */
  lemma {:induction false} BelowAfter(src: string, k: nat)
    requires k <= |src| && Depth(src[..k]) < 0
    ensures FirstUnmatched(src) < k
  {
    FirstUnmatchedNeverBelow(src[..k]);
    assert src[..k][..k] == src[..k];
    FirstUnmatchedPrefix(src, k);
  }

  /** Without brackets every character compiles on its own: the lines are each character's
      plain lines in turn, and the compiler completes. */
  function PlainLines(s: string): seq<string> {
    if s == [] then [] else PlainLines(s[..|s| - 1]) + Plain(s[|s| - 1])
  }

  lemma {:induction false} NoBracketsChunks(src: string, j: nat)
    requires j <= |src| && forall k :: 0 <= k < |src| ==> src[k] != '[' && src[k] != ']'
    ensures Chunks(src, j) == PlainLines(src[..j])
    ensures Depth(src[..j]) == 0 && FirstUnmatched(src[..j]) == j
    decreases j
  {
    if j > 0 {
      NoBracketsChunks(src, j - 1);
      assert src[..j][..j - 1] == src[..j - 1];
    }
  }

  lemma NoBrackets(src: string)
    requires forall k :: 0 <= k < |src| ==> src[k] != '[' && src[k] != ']'
    ensures Compile(src) == Compiled(PlainLines(src), Completed)
  {
    NoBracketsChunks(src, |src|);
    assert src[..|src|] == src;
  }

  /** The first loop's label is `_1`. */
  lemma LabelOne()
    ensures Label(1) == "_1"
    ensures ".label " + Label(1) == ".label _1" && "SETREG W1 " + Label(1) == "SETREG W1 _1"
  {
    assert Numeral(1, 10) == "1";
  }

  /** The first two characters of `+[-]`: the increment, then the loop's label declared and
      pushed. */
  lemma ClearLoopOpened()
    ensures var src := "+[-]";
      && FirstUnmatched(src[..2]) == 2
      && Chunks(src, 2) == ["INC W3", ".label _1"]
      && LabelsOf(Unclosed(src[..2])) == ["_1"]
  {
    var src := "+[-]";
    assert src[..0] == [];
    assert Opens(src[..0]) == 0 && Unclosed(src[..0]) == [];
    LabelOne();
    PlainStep(src, 0);
    assert Chunks(src, 1) == ["INC W3"];
    assert LabelsOf(Unclosed(src[..1])) == [];
    OpenStep(src, 1);
    assert Opens(src[..2]) == 1;
    assert Chunks(src, 2) == Chunks(src, 1) + [".label " + Label(1)];
  }

  /** A loop that clears the cell after incrementing it: the `[` declares `_1` and the `]`
      branches back to it. */
  lemma CompileClearLoop()
    ensures Compile("+[-]") ==
      Compiled(["INC W3", ".label _1", "DEC W3", "SETREG W1 _1", "BRNZ W1 W3"], Completed)
  {
    var src := "+[-]";
    ClearLoopOpened();
    LabelOne();
    PlainStep(src, 2);
    assert Chunks(src, 3) == ["INC W3", ".label _1", "DEC W3"];
    assert LabelsOf(Unclosed(src[..3])) == ["_1"];
    CloseStep(src, 3);
    assert Chunk(src, 3) == ["SETREG W1 _1", "BRNZ W1 W3"];
    assert Chunks(src, 4) == ["INC W3", ".label _1", "DEC W3", "SETREG W1 _1", "BRNZ W1 W3"];
    CompileEnd(src, 4);
  }
}
