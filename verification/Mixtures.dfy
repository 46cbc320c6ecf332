/** Procedures that are treated as a mixture, as lines of assembly. */
module Mixtures {
  import opened Instrumenter
  import opened FlagEffects
  import opened LineText
  import opened Consistency
  import opened Redirection

  // -------------------------------------------------- A procedure treated as a mixture

  predicate LabelledLike(lines: seq<Line>) {
    && |lines| == 6 && TextLike(lines[0].shape)
    && LabelLike(lines[1].shape) && lines[1].shape.customized
    && lines[2].shape.start && LabelLike(lines[3].shape)
    && ReturnLike(lines[4].shape) && lines[5].shape.end
  }

  lemma TextNext(c: Config, s: Shape, lucky: bool)
    requires Active(c) && TextLike(s)
    ensures InText(Next(c, CLEAR, s, lucky)) && !Next(c, CLEAR, s, lucky).start2end
  {
  }

  lemma LabelNext(c: Config, f: Flags, s: Shape, lucky: bool)
    requires Active(c) && InText(f) && LabelLike(s)
    ensures InText(Next(c, f, s, lucky)) && (!f.start2end ==> Next(c, f, s, lucky).inCustomized == s.customized)
  {
  }

  lemma StartNext(c: Config, f: Flags, s: Shape, lucky: bool)
    requires Active(c) && InText(f) && s.start
    ensures InText(Next(c, f, s, lucky))
  {
  }

  lemma LabelRelabels(c: Config, f: Flags, s: Shape)
    requires Active(c) && InText(f) && LabelLike(s)
    ensures Relabels(c, f, s)
  {
  }

  lemma LabelledFlags(file: File)
    requires file.Valid() && Active(file.c) && LabelledLike(file.lines)
    ensures file.At(2).inCustomized && RelabelAt(file, 3) && !Skips(file.At(4))
  {
    hide Next, Relabels;
    var c, lines, luck := file.c, file.lines, file.luck;
    TextNext(c, lines[0].shape, luck[0]);
    StepAt(file, 0);
    LabelNext(c, file.At(1), lines[1].shape, luck[1]);
    StepAt(file, 1);
    StartNext(c, file.At(2), lines[2].shape, luck[2]);
    StepAt(file, 2);
    LabelRelabels(c, file.At(3), lines[3].shape);
    LabelNext(c, file.At(3), lines[3].shape, luck[3]);
    StepAt(file, 3);
  }

  /** The hypothesis on labels is needed: a function of the C library with a label of its
      own inside gets no prologue, but the return after the label is replaced. */
  lemma LabelBreaksConsistency(file: File)
    requires file.Valid() && Active(file.c) && !file.c.scheme.Buddy? && LabelledLike(file.lines)
    requires AsRead(file.lines) && Procedure(file.lines, 2, 5)
    ensures !Has(file.Out(2), Prologue) && Replaced(file, 4)
    ensures !FullyProtected(file, 2, 5) && !Untouched(file, 2, 5)
  {
    LabelledFlags(file);
    RecognisedIsReturn(file.lines, 4);
    hide LabelledLike, AsRead, IsReturn, PlainReturn;
    ProtectedMeansAll(file, 2, 5);
    ReturnAt(file, 2, 5, 4);
  }

  /** Such a function, as text. */
  function Labelled(): seq<string> {
    ["\t.text\n", "malloc:\n", "\t.cfi_startproc\n", "again:\n", "\tretq\n", "\t.cfi_endproc\n"]
  }

  lemma TextShape(line: string)
    requires line == "\t.text\n"
    ensures TextLike(Parsed(line).shape)
  {
    FindsNothing(line, "} {z}\n");
    assert After(line, 2) == "text\n";
    DiffersAt(line, "\t.cfi_startproc\n", 2);
    DiffersAt(line, "\t.cfi_endproc\n", 2);
    DiffersAt(line, "\tret\n", 1);
    DiffersAt(line, "\tretq\n", 1);
    DiffersAt(line, "\tcallq\t*", 1);
    DiffersAt(line, "\tcallq", 1);
  }

  lemma StartShape(line: string)
    requires line == "\t.cfi_startproc\n"
    ensures Parsed(line).shape.start && !Parsed(line).shape.end
  {
    FindsNothing(line, "} {z}\n");
    assert line[..|line|] == line;
    DiffersAt(line, "\t.cfi_endproc\n", 6);
  }

  lemma EndShape(line: string)
    requires line == "\t.cfi_endproc\n"
    ensures Parsed(line).shape.end && !Parsed(line).shape.start
  {
    FindsNothing(line, "} {z}\n");
    assert line[..|line|] == line;
    DiffersAt(line, "\t.cfi_startproc\n", 6);
  }

  lemma ReturnShape(line: string)
    requires line == "\tretq\n"
    ensures ReturnLike(Parsed(line).shape)
  {
    FindsNothing(line, "} {z}\n");
    FindsNothing(line, ".intel_syntax");
    FindsNothing(line, "#APP");
    assert line[..|line|] == line;
    DiffersAt(line, "\t.cfi_startproc\n", 1);
    DiffersAt(line, "\t.cfi_endproc\n", 1);
  }

  lemma LibraryLabelShape(line: string)
    requires line == "malloc:\n"
    ensures LabelLike(Parsed(line).shape) && Parsed(line).shape.customized
  {
    ColonAt(line, 6);
    LabelShape(line);
    MallocIsCustomized(line);
  }

  lemma InnerLabelShape(line: string)
    requires line == "again:\n"
    ensures LabelLike(Parsed(line).shape)
  {
    ColonAt(line, 5);
    LabelShape(line);
  }

  lemma LabelledShapes(raws: seq<string>)
    requires raws == Labelled()
    ensures LabelledLike(ParsedAll(raws)) && Procedure(ParsedAll(raws), 2, 5)
  {
    hide ShapeOf, Squeezed;
    TextShape(raws[0]);
    LibraryLabelShape(raws[1]);
    StartShape(raws[2]);
    InnerLabelShape(raws[3]);
    ReturnShape(raws[4]);
    EndShape(raws[5]);
    PiecesTogether(raws);
    ShapesTogether(ParsedAll(raws));
  }

  lemma LabelledAsRead(raws: seq<string>)
    requires raws == Labelled()
    ensures forall m :: 0 <= m < |raws| ==> OneLine(raws[m])
  {
    hide OneLine;
    EndsLine("\t.text", raws[0]);
    EndsLine("malloc:", raws[1]);
    EndsLine("\t.cfi_startproc", raws[2]);
    EndsLine("again:", raws[3]);
    EndsLine("\tretq", raws[4]);
    EndsLine("\t.cfi_endproc", raws[5]);
  }

  lemma LabelledIsMixed(file: File, raws: seq<string>)
    requires file.Valid() && Active(file.c) && !file.c.scheme.Buddy?
    requires raws == Labelled() && file.lines == ParsedAll(raws)
    ensures !Has(file.Out(2), Prologue) && Replaced(file, 4)
    ensures !FullyProtected(file, 2, 5) && !Untouched(file, 2, 5)
  {
    hide Labelled, FullyProtected, Untouched, Has, Replaced, LabelledLike;
    LabelledShapes(raws);
    LabelledAsRead(raws);
    ParsedAsRead(raws);
    LabelBreaksConsistency(file);
  }

  lemma PiecesTogether(raws: seq<string>)
    requires |raws| == 6 && TextLike(Parsed(raws[0]).shape)
    requires LabelLike(Parsed(raws[1]).shape) && Parsed(raws[1]).shape.customized
    requires Parsed(raws[2]).shape.start && !Parsed(raws[2]).shape.end && LabelLike(Parsed(raws[3]).shape)
    requires ReturnLike(Parsed(raws[4]).shape) && Parsed(raws[5]).shape.end && !Parsed(raws[5]).shape.start
    ensures var lines := ParsedAll(raws);
            LabelledLike(lines) && !lines[2].shape.end && !lines[5].shape.start
  {
  }

  lemma ColonAt(line: string, i: nat)
    requires i < |line| && line[i] == ':'
    ensures ':' in line
  {
  }

  lemma ShapesTogether(lines: seq<Line>)
    requires LabelledLike(lines) && !lines[2].shape.end && !lines[5].shape.start
    ensures Procedure(lines, 2, 5)
  {
  }

  // ------------------------------------------------------- A return inside a block

  /** An Intel block that is not closed, then a procedure that only returns. */
  predicate OpenedLike(lines: seq<Line>) {
    && |lines| == 4 && IntelLike(lines[0].shape)
    && lines[1].shape.start && ReturnLike(lines[2].shape) && lines[3].shape.end
  }

  predicate IntelLike(s: Shape) {
    s.intel && !s.att && !Passed(s) && !s.ret && s.call.NoCall?
  }

  lemma IntelNext(c: Config, s: Shape, lucky: bool)
    requires Active(c) && IntelLike(s)
    ensures Next(c, CLEAR, s, lucky).skipIntel && !Exempt(c, Next(c, CLEAR, s, lucky))
  {
  }

  /** The hypothesis on blocks is needed: the prologue is inserted without a look at the
      block, but a return inside it is left. */
  lemma BlockBreaksConsistency(file: File)
    requires file.Valid() && Active(file.c) && OpenedLike(file.lines)
    requires AsRead(file.lines) && Procedure(file.lines, 1, 3)
    ensures Has(file.Out(1), Prologue) && Left(file, 2)
    ensures !FullyProtected(file, 1, 3) && !Untouched(file, 1, 3)
  {
    hide Next, Exempt, Procedure;
    var c, lines, luck := file.c, file.lines, file.luck;
    IntelNext(c, lines[0].shape, luck[0]);
    StepAt(file, 0);
    SkipsAfter(c, file.At(1), lines[1].shape, luck[1]);
    StepAt(file, 1);
    RecognisedIsReturn(file.lines, 2);
    hide OpenedLike, AsRead, IsReturn, PlainReturn;
    ProtectedMeansAll(file, 1, 3);
    ReturnAt(file, 1, 3, 2);
  }

  /** Such a file, as text. */
  function Opened(): seq<string> {
    ["\t.intel_syntax noprefix\n", "\t.cfi_startproc\n", "\tretq\n", "\t.cfi_endproc\n"]
  }

  lemma IntelShape(line: string)
    requires line == "\t.intel_syntax noprefix\n"
    ensures IntelLike(Parsed(line).shape)
  {
    hide ShapeOf, Find, StartsWith;
    FindsNothing(line, "} {z}\n");
    FindsNoPair(line, ".att_syntax");
    IntelFound(line);
    IntelIsNoOther(line);
    IntelFrom(line);
  }

  lemma IntelFound(line: string)
    requires line == "\t.intel_syntax noprefix\n"
    ensures Contains(line, ".intel_syntax")
  {
    assert line[1..][..13] == ".intel_syntax";
    FindsAt(line, ".intel_syntax", 1);
  }

  lemma IntelFrom(line: string)
    requires Contains(line, ".intel_syntax") && !Contains(line, ".att_syntax")
    requires !StartsWith(line, "\t.cfi_startproc\n") && !StartsWith(line, "\t.cfi_endproc\n")
    requires !StartsWith(line, "\tret\n") && !StartsWith(line, "\tretq\n")
    requires !StartsWith(line, "\tcallq\t*") && !StartsWith(line, "\tcallq")
    requires !EntersText(line) && !LeavesText(line)
    ensures IntelLike(ShapeOf(line))
  {
    hide Contains, StartsWith, EntersText, LeavesText, IsJumpTable, IsTarget, WithoutComment, After, HasHash;
  }

  lemma IntelIsNoOther(line: string)
    requires line == "\t.intel_syntax noprefix\n"
    ensures !StartsWith(line, "\t.cfi_startproc\n") && !StartsWith(line, "\t.cfi_endproc\n")
    ensures !StartsWith(line, "\tret\n") && !StartsWith(line, "\tretq\n")
    ensures !StartsWith(line, "\tcallq\t*") && !StartsWith(line, "\tcallq")
    ensures !EntersText(line) && !LeavesText(line)
  {
    DiffersAt(line, "\t.cfi_startproc\n", 2);
    DiffersAt(line, "\t.cfi_endproc\n", 2);
    DiffersAt(line, "\tret\n", 1);
    DiffersAt(line, "\tretq\n", 1);
    DiffersAt(line, "\tcallq\t*", 1);
    DiffersAt(line, "\tcallq", 1);
    NoSection(After(line, 2));
  }

  lemma NoSection(d: string)
    requires d != "" && d[0] == 'i'
    ensures !StartsWith(d, "text\n") && !StartsWith(d, "section\t.text")
    ensures !StartsWith(d, "section\t__TEXT,__text") && !StartsWith(d, "section __TEXT,__text")
    ensures !StartsWith(d, "section\t") && !StartsWith(d, "section ")
    ensures !StartsWith(d, "bss\n") && !StartsWith(d, "data\n")
  {
    DiffersAt(d, "text\n", 0);
    DiffersAt(d, "section\t.text", 0);
    DiffersAt(d, "section\t__TEXT,__text", 0);
    DiffersAt(d, "section __TEXT,__text", 0);
    DiffersAt(d, "section\t", 0);
    DiffersAt(d, "section ", 0);
    DiffersAt(d, "bss\n", 0);
    DiffersAt(d, "data\n", 0);
  }

  lemma OpenedShapes(raws: seq<string>)
    requires raws == Opened()
    ensures OpenedLike(ParsedAll(raws)) && Procedure(ParsedAll(raws), 1, 3)
  {
    hide ShapeOf, Squeezed;
    IntelShape(raws[0]);
    StartShape(raws[1]);
    ReturnShape(raws[2]);
    EndShape(raws[3]);
  }

  lemma OpenedAsRead(raws: seq<string>)
    requires raws == Opened()
    ensures forall m :: 0 <= m < |raws| ==> OneLine(raws[m])
  {
    hide OneLine;
    EndsLine("\t.intel_syntax noprefix", raws[0]);
    EndsLine("\t.cfi_startproc", raws[1]);
    EndsLine("\tretq", raws[2]);
    EndsLine("\t.cfi_endproc", raws[3]);
  }

  lemma OpenedIsMixed(file: File, raws: seq<string>)
    requires file.Valid() && Active(file.c)
    requires raws == Opened() && file.lines == ParsedAll(raws)
    ensures Has(file.Out(1), Prologue) && Left(file, 2)
    ensures !FullyProtected(file, 1, 3) && !Untouched(file, 1, 3)
  {
    hide Opened, FullyProtected, Untouched, Has, Left, OpenedLike;
    OpenedShapes(raws);
    OpenedAsRead(raws);
    ParsedAsRead(raws);
    BlockBreaksConsistency(file);
  }

  // ---------------------------------------------------- A return written otherwise

  function RepReturn(): seq<string> {
    ["\t.cfi_startproc\n", "\trep ret\n", "\t.cfi_endproc\n"]
  }

  lemma RepIsReturn(line: string)
    requires line == "\trep ret\n"
    ensures IsReturn(line) && !PlainReturn(line) && Parsed(line).text == line
    ensures !Parsed(line).shape.start && !Parsed(line).shape.end
  {
    FindsNothing(line, "} {z}\n");
    DiffersAt(line, "\t.cfi_startproc\n", 1);
    DiffersAt(line, "\t.cfi_endproc\n", 1);
    RepWords(line);
    assert line[2] == 'e' && line[3] == 'p' && "\tret\n"[3] == 't' && "\tretq\n"[3] == 't';
  }

  lemma RepWords(line: string)
    requires line == "\trep ret\n"
    ensures IsReturn(line)
  {
    var s := line[1..];
    OneBlank(line);
    WordOf(s, "rep");
    var s' := s[3..];
    assert SkipGap(s') == SkipGap(s'[1..]) == s'[1..];
    WordOf(s'[1..], "ret");
  }

  lemma RepShapes(raws: seq<string>)
    requires raws == RepReturn()
    ensures AsRead(ParsedAll(raws)) && Procedure(ParsedAll(raws), 0, 2)
    ensures ParsedAll(raws)[1].text == raws[1]
  {
    hide ShapeOf, Squeezed, OneLine;
    EndsLine("\t.cfi_startproc", raws[0]);
    EndsLine("\trep ret", raws[1]);
    EndsLine("\t.cfi_endproc", raws[2]);
    ParsedAsRead(raws);
    StartShape(raws[0]);
    RepIsReturn(raws[1]);
    EndShape(raws[2]);
  }

  /** The hypothesis on returns is needed: the prologue is inserted, but a return with a
      prefix is not recognised and left. */
  lemma RepReturnIsLeft(file: File, raws: seq<string>)
    requires file.Valid() && Active(file.c)
    requires raws == RepReturn() && file.lines == ParsedAll(raws)
    ensures Has(file.Out(0), Prologue) && Left(file, 1)
    ensures !FullyProtected(file, 0, 2) && !Untouched(file, 0, 2)
  {
    RepIsReturn(raws[1]);
    RepShapes(raws);
    hide RepReturn, AsRead, IsReturn, PlainReturn, ParsedAll;
    ProtectedMeansAll(file, 0, 2);
    ReturnAt(file, 0, 2, 1);
  }

  // --------------------------------------- A function of the kind of the one before

  /** A function of the C library's, then one outside text sections. */
  function Inherited(): seq<string> {
    ["\t.text\n", "malloc:\n", "\t.cfi_startproc\n", "\t.cfi_endproc\n",
     "\t.section\t.init\n", "foo:\n", "\t.cfi_startproc\n"]
  }

  predicate InheritedLike(lines: seq<Line>) {
    && |lines| == 7 && AsRead(lines)
    && lines[0].shape.entersText && Plain(lines[0].shape) && LabelLike(lines[1].shape)
    && lines[2].shape.start && !lines[2].shape.end && lines[3].shape.end && !lines[3].shape.start
    && !lines[4].shape.entersText && lines[4].shape.leavesText && Quiet(lines[4].shape)
    && LabelLike(lines[5].shape) && lines[6].shape.start
    && FunctionLabel(lines[1].text, "malloc") && FunctionLabel(lines[5].text, "foo")
  }

  /** No start, no end, no block, no change of width. */
  predicate Plain(s: Shape) {
    !s.start && !s.end && !s.intel && !s.app && !s.code32 && !s.code64
  }

  lemma EndStays(c: Config, f: Flags, s: Shape, lucky: bool)
    requires Active(c) && s.end && !s.start
    ensures Exempt(c, Next(c, f, s, lucky)) == Exempt(c, f)
  {
    hide Next, Exempt, AfterDeferred, Started, Ended, Updated;
    var f1 := AfterDeferred(c, f, s);
    NextIs(c, f, s, lucky);
    DeferredKeeps(c, f, s);
    StartedKeeps(c, f1, s);
    EndedKeeps(c, Started(f1, s), s);
  }

  lemma InheritedDefines(lines: seq<Line>)
    requires InheritedLike(lines)
    ensures Defines(lines, 1, 2, "malloc") && PlainlyPlaced(lines, 1)
    ensures Defines(lines, 5, 6, "foo") && !TextOpen(lines, 5)
  {
    hide FunctionLabel, AsRead, EmitsNothing;
    NoWidths(lines, 2);
    assert !ProcOpen(lines, 0) && !IntelOpen(lines, 0) && !AppOpen(lines, 0);
    assert !ProcOpen(lines, 1) && !IntelOpen(lines, 1) && !AppOpen(lines, 1) && TextOpen(lines, 1);
    assert !ProcOpen(lines, 4) && !TextOpen(lines, 5);
  }

  /** That a label counts is needed: `foo` is of the kind of `malloc` before it. */
  lemma InheritedKind(file: File)
    requires file.Valid() && Active(file.c) && InheritedLike(file.lines)
    ensures Protected(file, 6) == Protected(file, 2) == (file.c.scheme.Buddy? || !ExemptName("malloc"))
  {
    hide Next, Exempt, Defines, Counts, ExemptName, PlainlyPlaced, FunctionLabel, Quiet, AsRead, ShapeOf;
    var c, lines, luck := file.c, file.lines, file.luck;
    InheritedDefines(lines);
    CountsByText(file, 1);
    LabelProtects(file, 1, 2, "malloc");
    FirstLine(c, file.At(2), lines[2].shape, luck[2]);
    StepAt(file, 2);
    EndStays(c, file.At(3), lines[3].shape, luck[3]);
    StepAt(file, 3);
    QuietKeeps(c, file.At(4), lines[4].shape, luck[4]);
    StepAt(file, 4);
    CountsByText(file, 5);
    LabelProtects(file, 5, 6, "foo");
  }

  lemma PlainText(line: string)
    requires line == "\t.text\n"
    ensures Plain(ShapeOf(line)) && ShapeOf(line).entersText && Squeezed(line) == line
  {
    hide ShapeOf, StartsWith, Find;
    TextShape(line);
    FindsNothing(line, "} {z}\n");
    FindsNoPair(line, ".code");
    FindsNoPair(line, ".intel_syntax");
    FindsNoPair(line, "#APP");
    PlainShape(line);
  }

  lemma PlainShape(line: string)
    requires Find(line, ".code") == Find(line, ".intel_syntax") == Find(line, "#APP") == |line|
    ensures var s := ShapeOf(line);
            !s.code32 && !s.code64 && !s.intel && !s.app
  {
    hide StartsWith, CallOf, EntersText, LeavesText, IsJumpTable, Find, IsTarget;
  }

  lemma InitSection(line: string)
    requires line == "\t.section\t.init\n"
    ensures LeavesText(line) && !EntersText(line) && Squeezed(line) == line
  {
    FindsNothing(line, "} {z}\n");
    assert IsDirective(line);
    var d := After(line, 2);
    assert d == "section\t.init\n" && d[..8] == "section\t";
    InitStarts(d);
    hide StartsWith, Find;
  }

  lemma InitStarts(d: string)
    requires d == "section\t.init\n"
    ensures !StartsWith(d, "text\n") && !StartsWith(d, "section\t.text")
    ensures !StartsWith(d, "section\t__TEXT,__text") && !StartsWith(d, "section __TEXT,__text")
    ensures StartsWith(d, "section\t")
  {
    assert d[..8] == "section\t";
    DiffersAt(d, "text\n", 0);
    DiffersAt(d, "section\t.text", 9);
    DiffersAt(d, "section\t__TEXT,__text", 8);
    DiffersAt(d, "section __TEXT,__text", 7);
  }

  lemma SectionShape(line: string)
    requires LeavesText(line) && !EntersText(line) && Squeezed(line) == line
    ensures var s := Parsed(line).shape;
            !s.entersText && s.leavesText && Quiet(s)
  {
    DirectiveAlone(line);
    hide StartsWith, CallOf, HasHash, Contains, IsTarget, EntersText, IsJumpTable, Find;
  }

  lemma IsFunctionLabel(line: string, name: string)
    requires line == name + ":\n" && name != "" && ':' !in name
    requires name[0] != '\t' && name[0] != ' ' && name[0] != '#' && name[0] != '.'
    ensures FunctionLabel(line, name)
  {
    assert line[|name| + 1..] == "\n";
  }

  lemma MallocLabel(line: string)
    requires line == "malloc:\n"
    ensures LabelLike(Parsed(line).shape) && FunctionLabel(Parsed(line).text, "malloc")
  {
    hide ShapeOf, FunctionLabel, Squeezed;
    ColonAt(line, 6);
    LabelShape(line);
    IsFunctionLabel(line, "malloc");
  }

  lemma FooLabel(line: string)
    requires line == "foo:\n"
    ensures LabelLike(Parsed(line).shape) && FunctionLabel(Parsed(line).text, "foo")
  {
    hide ShapeOf, FunctionLabel, Squeezed;
    ColonAt(line, 3);
    LabelShape(line);
    IsFunctionLabel(line, "foo");
  }

  lemma InheritedAsRead(raws: seq<string>)
    requires raws == Inherited()
    ensures AsRead(ParsedAll(raws))
  {
    hide OneLine, ParsedAll, AsRead;
    EndsLine("\t.text", raws[0]);
    EndsLine("malloc:", raws[1]);
    EndsLine("\t.cfi_startproc", raws[2]);
    EndsLine("\t.cfi_endproc", raws[3]);
    EndsLine("\t.section\t.init", raws[4]);
    EndsLine("foo:", raws[5]);
    ParsedAsRead(raws);
  }

  lemma InheritedShapes(raws: seq<string>)
    requires raws == Inherited()
    ensures InheritedLike(ParsedAll(raws))
  {
    hide ShapeOf, Squeezed, AsRead, FunctionLabel, Plain, LabelLike, Quiet;
    PlainText(raws[0]);
    MallocLabel(raws[1]);
    FooLabel(raws[5]);
    StartShape(raws[2]);
    EndShape(raws[3]);
    InitSection(raws[4]);
    SectionShape(raws[4]);
    InheritedAsRead(raws);
  }

  /** `foo` is not exempt by its name, and yet gets no prologue. */
  lemma InheritedIsExempt(file: File, raws: seq<string>)
    requires file.Valid() && Active(file.c) && !file.c.scheme.Buddy?
    requires raws == Inherited() && file.lines == ParsedAll(raws)
    ensures Defines(file.lines, 5, 6, "foo") && !ExemptName("foo") && !Has(file.Out(6), Prologue)
  {
    InheritedShapes(raws);
    InheritedDefines(file.lines);
    InheritedKind(file);
    ExemptNames();
    hide InheritedLike, Inherited, ExemptName, Exempt, Defines;
    EntryOutput(file.c, file.At(6), file.lines[6], file.luck[6]);
  }

  lemma ExemptNames()
    ensures ExemptName("malloc") && !ExemptName("foo")
  {
    assert CUSTOMIZED[0] == "malloc" + ":";
    assert "foo" + ":" == "foo:";
  }
}
