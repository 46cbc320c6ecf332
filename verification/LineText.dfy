/** Lines of assembly as text: matching, labels, and what a return is. */
module LineText {
  import opened Instrumenter

  // ---------------------------------------------------------------------- Matching

  lemma PrefixByte(line: string, prefix: string, i: nat)
    requires StartsWith(line, prefix) && i < |prefix|
    ensures i < |line| && line[i] == prefix[i]
  {
    assert line[i] == line[..|prefix|][i];
  }

  lemma {:induction false} FindsNothing(line: string, part: string)
    requires part != "" && part[0] !in line
    ensures Find(line, part) == |line| && !StartsWith(line, part)
  {
    if line != "" {
      FindsNothing(line[1..], part);
      assert line[0] in line;
    }
  }

  lemma {:induction false} FindsChar(line: string, c: char)
    requires c in line
    ensures Contains(line, [c])
  {
    if line[0] != c {
      assert line == [line[0]] + line[1..];
      FindsChar(line[1..], c);
    }
  }

  /** A label without dots, hashes and blanks. */
  lemma LabelShape(line: string)
    requires line != "" && line[0] != ' ' && ':' in line
    requires '.' !in line && '#' !in line && '\t' !in line && '}' !in line
    ensures Squeezed(line) == line
    ensures var s := ShapeOf(line);
            && !s.start && !s.end && !s.ret && s.call.NoCall? && !s.instruction && !s.entersText && !s.leavesText
            && !s.jumpTable && !s.code32 && !s.code64 && !s.intel && !s.att && !s.app && !s.noApp
            && !s.tab && !s.skipped && s.hasColon && !s.dot
  {
    FindsNothing(line, "} {z}\n");
    FindsNothing(line, ".code");
    FindsNothing(line, ".intel_syntax");
    FindsNothing(line, ".att_syntax");
    FindsNothing(line, "#APP");
    FindsNothing(line, "#NO_APP");
    FindsChar(line, ':');
    assert ":" == [':'];
    TabLines(line);
  }

  lemma TabLines(line: string)
    requires line != "" && '\t' !in line
    ensures !StartsWith(line, "\t.cfi_startproc\n") && !StartsWith(line, "\t.cfi_endproc\n")
    ensures !StartsWith(line, "\tret\n") && !StartsWith(line, "\tretq\n")
    ensures !StartsWith(line, "\tcallq\t*") && !StartsWith(line, "\tcallq") && CharAt(line, 0) != '\t'
  {
    FindsNothing(line, "\t.cfi_startproc\n");
    FindsNothing(line, "\t.cfi_endproc\n");
    FindsNothing(line, "\tret\n");
    FindsNothing(line, "\tretq\n");
    FindsNothing(line, "\tcallq\t*");
    FindsNothing(line, "\tcallq");
  }

  lemma MallocIsCustomized(line: string)
    requires line == "malloc:\n"
    ensures IsTarget(line, CUSTOMIZED)
  {
    assert CUSTOMIZED[0] == "malloc:";
    assert line[..7] == "malloc:";
    assert StartsWith(line, CUSTOMIZED[0]);
  }

  lemma DiffersAt(line: string, prefix: string, i: nat)
    requires i < |line| && i < |prefix| && line[i] != prefix[i]
    ensures !StartsWith(line, prefix)
  {
    if StartsWith(line, prefix) {
      PrefixByte(line, prefix, i);
    }
  }

  lemma {:induction false} FindsAt(line: string, part: string, p: nat)
    requires p < |line| && StartsWith(line[p..], part)
    ensures Contains(line, part)
  {
    if p > 0 && !StartsWith(line, part) {
      assert line[1..][p - 1..] == line[p..];
      FindsAt(line[1..], part, p - 1);
    }
  }

  /** No two neighbours in the line are the first two characters of `part`. */
  lemma {:induction false} FindsNoPair(line: string, part: string)
    requires |part| >= 2 && forall p :: 0 <= p < |line| - 1 ==> line[p] != part[0] || line[p + 1] != part[1]
    ensures Find(line, part) == |line|
  {
    if line != "" {
      if StartsWith(line, part) {
        PrefixByte(line, part, 0);
        PrefixByte(line, part, 1);
      }
      FindsNoPair(line[1..], part);
    }
  }

  predicate PartAt(line: string, p: nat, part: string) {
    p + |part| <= |line| && line[p..p + |part|] == part
  }

  /** The part stands somewhere in the line. */
  ghost predicate HasPart(line: string, part: string) {
    exists p: nat :: PartAt(line, p, part)
  }

  /** strstr finds exactly the parts that are there. */
  lemma {:induction false} FindsExactly(line: string, part: string)
    requires part != ""
    ensures Contains(line, part) <==> HasPart(line, part)
  {
    if StartsWith(line, part) {
      assert PartAt(line, 0, part);
    } else if line != "" {
      FindsExactly(line[1..], part);
      if p: nat :| PartAt(line, p, part) {
        assert p > 0 && PartAt(line[1..], p - 1, part);
      }
      if p: nat :| PartAt(line[1..], p, part) {
        assert PartAt(line, p + 1, part);
      }
    }
  }

  /** Where strstr finds a part, it stands. */
  lemma {:induction false} FoundWithMark(line: string, part: string)
    requires part != ""
    ensures Contains(line, part) ==> PartAt(line, Find(line, part), part)
  {
    if !StartsWith(line, part) && line != "" {
      FoundWithMark(line[1..], part);
    }
  }

  /** A part with a character that the line does not have is not found. */
  lemma FindsNoChar(line: string, part: string, k: nat)
    requires k < |part| && part[k] !in line
    ensures Find(line, part) == |line|
  {
    FindsExactly(line, part);
    forall p: nat
      ensures !PartAt(line, p, part)
    {
    }
  }

  lemma AfterTwo(line: string, d: string)
    ensures StartsWith(line, "\t." + d) <==> IsDirective(line) && StartsWith(After(line, 2), d)
  {
    if StartsWith(line, "\t." + d) {
      PrefixByte(line, "\t." + d, 0);
      PrefixByte(line, "\t." + d, 1);
      assert line[2..][..|d|] == line[..2 + |d|][2..] == d;
    }
  }

  /** The directives that open and close procedures, and text sections, as text. */
  lemma SectionsAsText(line: string)
    requires OneLine(line)
    ensures var s := ShapeOf(line);
            && (s.start <==> line == "\t.cfi_startproc\n") && (s.end <==> line == "\t.cfi_endproc\n")
            && (s.entersText <==>
                  || StartsWith(line, "\t.text\n") || StartsWith(line, "\t.section\t.text")
                  || StartsWith(line, "\t.section\t__TEXT,__text") || StartsWith(line, "\t.section __TEXT,__text"))
            && (s.leavesText <==>
                  || StartsWith(line, "\t.section\t") || StartsWith(line, "\t.section ")
                  || StartsWith(line, "\t.bss\n") || StartsWith(line, "\t.data\n"))
  {
    OneLinePrefix(line, "\t.cfi_startproc\n", 15);
    OneLinePrefix(line, "\t.cfi_endproc\n", 13);
    hide StartsWith, CallOf, HasHash, Contains, IsTarget, IsDirective, After, IsJumpTable, OneLine;
    EntersAsText(line);
    LeavesAsText(line);
  }

  lemma EntersAsText(line: string)
    ensures EntersText(line) <==>
              || StartsWith(line, "\t.text\n") || StartsWith(line, "\t.section\t.text")
              || StartsWith(line, "\t.section\t__TEXT,__text") || StartsWith(line, "\t.section __TEXT,__text")
  {
    hide StartsWith, IsDirective, After;
    AfterTwo(line, "text\n");
    AfterTwo(line, "section\t.text");
    AfterTwo(line, "section\t__TEXT,__text");
    AfterTwo(line, "section __TEXT,__text");
    assert "\t." + "text\n" == "\t.text\n" && "\t." + "section\t.text" == "\t.section\t.text";
    assert "\t." + "section\t__TEXT,__text" == "\t.section\t__TEXT,__text";
    assert "\t." + "section __TEXT,__text" == "\t.section __TEXT,__text";
  }

  lemma LeavesAsText(line: string)
    ensures LeavesText(line) <==>
              || StartsWith(line, "\t.section\t") || StartsWith(line, "\t.section ")
              || StartsWith(line, "\t.bss\n") || StartsWith(line, "\t.data\n")
  {
    hide StartsWith, IsDirective, After;
    AfterTwo(line, "section\t");
    AfterTwo(line, "section ");
    AfterTwo(line, "bss\n");
    AfterTwo(line, "data\n");
    assert "\t." + "section\t" == "\t.section\t" && "\t." + "section " == "\t.section ";
    assert "\t." + "bss\n" == "\t.bss\n" && "\t." + "data\n" == "\t.data\n";
  }

  /** Code width, syntax and inline assembly, as text. */
  lemma ModesAsText(line: string)
    ensures var s, hash := ShapeOf(line), (line != "" && line[0] == '#') || (|line| > 1 && line[1] == '#');
            && (s.code32 <==> HasPart(line, ".code32")) && (s.code64 <==> HasPart(line, ".code64"))
            && (s.intel <==> HasPart(line, ".intel_syntax")) && (s.att <==> HasPart(line, ".att_syntax"))
            && (s.app <==> hash && HasPart(line, "#APP")) && (s.noApp <==> hash && HasPart(line, "#NO_APP"))
  {
    hide Contains, StartsWith, CallOf, EntersText, LeavesText, IsJumpTable, IsTarget, HasPart;
    FindsExactly(line, ".code32");
    FindsExactly(line, ".code64");
    FindsExactly(line, ".intel_syntax");
    FindsExactly(line, ".att_syntax");
    FindsExactly(line, "#APP");
    FindsExactly(line, "#NO_APP");
    WidthStarts(line, ".code32");
    WidthStarts(line, ".code64");
  }

  lemma WidthStarts(line: string, part: string)
    requires part == ".code32" || part == ".code64"
    ensures Contains(line, part) ==> Contains(line, ".code")
  {
    FindsExactly(line, part);
    FindsExactly(line, ".code");
    if p: nat :| PartAt(line, p, part) {
      assert part[..5] == ".code";
      assert PartAt(line, p, ".code");
    }
  }

  // ----------------------------------------------------------------------- Returns

  predicate Blank(c: char) {
    c == ' ' || c == '\t'
  }

  function SkipBlanks(s: string): (r: string)
    ensures |r| <= |s|
  {
    if s != "" && Blank(s[0]) then SkipBlanks(s[1..]) else s
  }

  predicate EndsWord(c: char) {
    Blank(c) || c == '\n' || c == '\r' || c == '#' || c == ';'
  }

  /** What comes before the next blank, comment or end of statement. */
  function Word(s: string): (w: string)
    ensures |w| <= |s| && w == s[..|w|]
  {
    if s == "" || EndsWord(s[0]) then "" else [s[0]] + Word(s[1..])
  }

  predicate ReturnWord(w: string) {
    w == "ret" || w == "retq"
  }

  /** Prefixes that compilers put before a return. */
  predicate PrefixWord(w: string) {
    w == "rep" || w == "repz" || w == "repe" || w == "bnd"
  }

  /** The line starts with a return: possibly indented otherwise, with a prefix, an operand or
      a comment. */
  predicate IsReturn(line: string) {
    var s := SkipBlanks(line);
    var w := Word(s);
    ReturnWord(w) || (PrefixWord(w) && ReturnWord(Word(SkipGap(s[|w|..]))))
  }

  /** Between a prefix and its instruction old compilers put a semicolon. */
  function SkipGap(s: string): string {
    if s != "" && (Blank(s[0]) || s[0] == ';') then SkipGap(s[1..]) else s
  }

  /** A return written as compilers usually write it. */
  predicate PlainReturn(line: string) {
    line == "\tret\n" || line == "\tretq\n"
  }

  /** A newline comes last only, as in what fgets reads. */
  predicate OneLine(text: string) {
    forall k :: 0 <= k < |text| - 1 ==> text[k] != '\n'
  }

  /** The lines are what fgets read. */
  predicate AsRead(lines: seq<Line>) {
    forall m :: 0 <= m < |lines| ==> lines[m].shape == ShapeOf(lines[m].text) && OneLine(lines[m].text)
  }

  lemma ParsedAsRead(raws: seq<string>)
    requires forall m :: 0 <= m < |raws| ==> OneLine(raws[m])
    ensures AsRead(ParsedAll(raws))
  {
    hide ShapeOf, OneLine;
    forall m | 0 <= m < |raws|
      ensures OneLine(Squeezed(raws[m]))
    {
      SqueezedOneLine(raws[m]);
    }
  }

  lemma SqueezedOneLine(line: string)
    requires OneLine(line)
    ensures OneLine(Squeezed(line))
  {
  }

  /** Only the notation at the end of the line is rewritten, by taking its blank out. */
  lemma SqueezedAsText(line: string, head: string)
    requires OneLine(line)
    ensures !HasPart(line, "} {z}\n") ==> Squeezed(line) == line
    ensures line == head + "} {z}\n" ==> Squeezed(line) == head + "}{z}\n"
  {
    var mark := "} {z}\n";
    FindsExactly(line, mark);
    if line == head + mark {
      assert PartAt(line, |head|, mark);
      FoundWithMark(line, mark);
      var p := Find(line, mark);
      assert line[p + 5] == line[p..p + 6][5] == '\n';
      assert p + 5 == |line| - 1;
    }
  }

  /** The instrumenter recognises exactly the plain returns. */
  lemma RecognisedExactly(line: string)
    requires OneLine(line)
    ensures ShapeOf(line).ret <==> PlainReturn(line)
  {
    OneLinePrefix(line, "\tret\n", 4);
    OneLinePrefix(line, "\tretq\n", 5);
    hide StartsWith, CallOf, EntersText, LeavesText, IsJumpTable, HasHash, Contains, IsTarget, OneLine;
  }

  lemma OneLinePrefix(line: string, prefix: string, n: nat)
    requires OneLine(line) && |prefix| == n + 1 && prefix[n] == '\n'
    ensures StartsWith(line, prefix) <==> line == prefix
  {
    assert prefix[..n + 1] == prefix;
    if StartsWith(line, prefix) {
      PrefixByte(line, prefix, n);
    }
  }

  lemma {:induction false} WordOf(s: string, w: string)
    requires |w| < |s| && s[..|w|] == w && EndsWord(s[|w|]) && forall k :: 0 <= k < |w| ==> !EndsWord(w[k])
    ensures Word(s) == w
  {
    if w != "" {
      assert s[0] == w[0] && s[1..][..|w| - 1] == w[1..];
      WordOf(s[1..], w[1..]);
    }
  }

  lemma OneBlank(line: string)
    requires |line| > 1 && Blank(line[0]) && !Blank(line[1])
    ensures SkipBlanks(line) == line[1..]
  {
  }

  lemma PlainIsReturn(line: string)
    requires PlainReturn(line)
    ensures IsReturn(line)
  {
    var w := if line == "\tret\n" then "ret" else "retq";
    OneBlank(line);
    WordOf(line[1..], w);
  }

  /** A line is one if a newline comes last. */
  lemma EndsLine(start: string, line: string)
    requires line == start + "\n" && '\n' !in start
    ensures OneLine(line)
  {
  }

  lemma WordStart(s: string)
    ensures Word(s) != "" ==> s != "" && Word(s)[0] == s[0]
  {
  }

  /** A return, however written, is taken for no call and for no other directive. */
  lemma ReturnIsNoCall(line: string)
    requires IsReturn(line)
    ensures ShapeOf(line).call.NoCall?
  {
    var s := SkipBlanks(line);
    WordStart(s);
    assert s != "" && (s[0] == 'r' || s[0] == 'b');
    NoCallStart(line, s);
  }

  lemma NoCallStart(line: string, s: string)
    requires s == SkipBlanks(line) && s != "" && s[0] != 'c'
    ensures CallOf(line).NoCall?
  {
    if StartsWith(line, "\tcallq") {
      PrefixByte(line, "\tcallq", 0);
      PrefixByte(line, "\tcallq", 1);
    } else if StartsWith(line, "\tcallq\t*") {
      PrefixByte(line, "\tcallq\t*", 0);
      PrefixByte(line, "\tcallq\t*", 1);
    }
  }
}
