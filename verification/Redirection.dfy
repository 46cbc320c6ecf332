/** Where redirected calls land. */
module Redirection {
  import opened Instrumenter
  import opened FlagEffects
  import opened LineText
  import opened Consistency

  // --------------------------------------------------------- Where calls may go

  /** A call that is looked at is redirected past the prologue of its target. */
  predicate Redirects(c: Config, l: Line) {
    && l.shape.call.Named? && !l.shape.call.external && !IsTarget(l.shape.call.target, c.libraryFuncs)
    && Names.TargetName(l.shape.call.target) in c.protectedFuncs
  }

  lemma RedirectedExactly(c: Config, f: Flags, l: Line, lucky: bool, bare: string)
    requires Active(c) && !l.shape.start && !l.shape.end
    ensures Has(Output(c, f, l, lucky), DirectCall(bare))
       <==> CallsWatched(c, AfterDeferred(c, f, l.shape)) && Redirects(c, l) && l.shape.call.bare == bare
  {
    hide IsTarget, CallsWatched, ReturnsWatched;
    var f1 := AfterDeferred(c, f, l.shape);
    assert !Has(Deferred(c, f, l.shape), DirectCall(bare));
    assert Ended(Started(f1, l.shape), l.shape) == f1;
    BodyRedirects(c, f1, l, lucky, bare);
  }

  lemma BodyRedirects(c: Config, f: Flags, l: Line, lucky: bool, bare: string)
    ensures Has(BodyOutput(c, f, l, lucky), DirectCall(bare))
       <==> CallsWatched(c, f) && Redirects(c, l) && l.shape.call.bare == bare
  {
    hide IsTarget, CallsWatched, ReturnsWatched, Ignored, AfterModes;
  }

  /** A function whose label has one of these names gets no prologue, except for Buddy. */
  predicate ExemptName(name: string) {
    name + ":" in CUSTOMIZED || name + ":" in NO_INSTR || name + ":" in HANDLERS
  }

  // ------------------------------------------------------------------ Labels, as text

  /** Blanks and a comment at most. */
  predicate Void(s: string) {
    var r := SkipBlanks(s);
    r == "" || r == "\n" || r[0] == '#'
  }

  /** The line is the label `name:`, followed by a comment at most. */
  predicate LabelText(text: string, name: string) {
    && |name| < |text| && text[..|name|] == name && text[|name|] == ':' && Void(text[|name| + 1..])
    && ':' !in name && name != "" && name[0] != '\t' && name[0] != ' ' && name[0] != '#'
  }

  /** A label that may stand for a function. */
  predicate FunctionLabel(text: string, name: string) {
    LabelText(text, name) && name[0] != '.'
  }

  const SILENT: seq<string> :=
    ["\t.cfi_", "\t.loc", "\t.file", "\t.type", "\t.size", "\t.globl", "\t.weak", "\t.hidden"]

  /** The line puts nothing into the object file at this place. */
  ghost predicate EmitsNothing(text: string) {
    || Void(text) || (IsTarget(text, SILENT) && ';' !in text)
    || exists name :: LabelText(text, name) && name[0] == '.' && Word(name) == name
  }

  /** Line `m` stands inside a procedure. */
  predicate ProcOpen(lines: seq<Line>, m: nat)
    requires m <= |lines|
  {
    && m > 0
    && var s := lines[m - 1].shape;
       s.start || (!s.end && ProcOpen(lines, m - 1))
  }

  /** Line `m` stands in a text section. */
  predicate TextOpen(lines: seq<Line>, m: nat)
    requires m <= |lines|
  {
    && m > 0
    && var s := lines[m - 1].shape;
       s.entersText || (!s.leavesText && TextOpen(lines, m - 1))
  }

  /** The function `name`, with its label at `l`, starts at `i`: nothing is emitted between. */
  ghost predicate Defines(lines: seq<Line>, l: nat, i: nat, name: string) {
    && l < i < |lines| && AsRead(lines) && FunctionLabel(lines[l].text, name) && !ProcOpen(lines, l)
    && (forall m :: l < m < i ==> EmitsNothing(lines[m].text) && !lines[m].shape.start && !lines[m].shape.end)
    && lines[i].shape.start
  }

  // ----------------------------------------------------- What a label decides

  /** The automaton knows exactly when it is inside a procedure. */
  lemma {:induction false} StartsByText(file: File, m: nat)
    requires file.Valid() && Active(file.c) && m <= |file.lines|
    ensures file.At(m).start2end == ProcOpen(file.lines, m)
  {
    hide Next;
    if m > 0 {
      StartsByText(file, m - 1);
      NextDoes(file.c, file.At(m - 1), file.lines[m - 1].shape, file.luck[m - 1]);
    }
  }

  /** A function's label outside procedures counts unless it stands outside the text section,
      in a block, or in code of another width. */
  predicate Counts(c: Config, f: Flags, s: Shape) {
    !Ignored(AfterModes(c, f, s), s)
  }

  predicate LabelShaped(s: Shape) {
    && !s.start && !s.end && !s.instruction && !s.entersText && !s.leavesText && !s.jumpTable
    && !s.tab && !s.skipped && s.hasColon && !s.dot
  }

  /** A label that counts decides the kind of what follows; one that does not leaves it. */
  lemma LabelDecides(c: Config, f: Flags, s: Shape, lucky: bool)
    requires Active(c) && !f.start2end && LabelShaped(s)
    ensures Exempt(c, Next(c, f, s, lucky))
       <==> if Counts(c, f, s) then !c.scheme.Buddy? && (s.customized || s.noInstr || s.handler) else Exempt(c, f)
    ensures if Counts(c, f, s) then Marked(Next(c, f, s, lucky), s) else SameFunction(f, Next(c, f, s, lucky))
  {
    hide AfterModes, AfterLabel, AfterFunctionLabel, Ignored, Counted, Exempt;
    assert Next(c, f, s, lucky) == AfterLabel(c, AfterModes(c, f, s), s, lucky);
    ModesDo(c, f, s);
    LabelCases(c, AfterModes(c, f, s), s, lucky);
    FunctionLabelDoes(c, AfterModes(c, f, s), s);
  }

  /** Lines that change nothing about the kind of what follows. */
  predicate Quiet(s: Shape) {
    !s.start && !s.end && (s.hasColon ==> s.tab || s.skipped || s.dot)
  }

  lemma QuietKeeps(c: Config, f: Flags, s: Shape, lucky: bool)
    requires Active(c) && Quiet(s)
    ensures Exempt(c, Next(c, f, s, lucky)) == Exempt(c, f) && SameFunction(f, Next(c, f, s, lucky))
  {
    hide Next, Updated, Exempt, AfterDeferred;
    var f1 := AfterDeferred(c, f, s);
    NextIs(c, f, s, lucky);
    DeferredKeeps(c, f, s);
    assert Started(f1, s) == f1 && Ended(f1, s) == f1;
    QuietUpdate(c, f1, s, lucky);
  }

  lemma QuietUpdate(c: Config, f: Flags, s: Shape, lucky: bool)
    requires Quiet(s)
    ensures Exempt(c, Updated(c, f, s, lucky)) == Exempt(c, f) && SameFunction(f, Updated(c, f, s, lucky))
  {
    hide AfterModes, AfterLabel, AfterJumpTable, Updated, Exempt;
    var f1 := AfterJumpTable(c, f, s);
    JumpTableKeeps(c, f, s);
    if s.entersText || s.leavesText {
      SectionDoes(c, f, s, lucky);
    } else {
      UpdatedIs(c, f, s, lucky);
      ModesDo(c, f1, s);
      QuietLabel(c, AfterModes(c, f1, s), s, lucky);
    }
  }

  lemma QuietLabel(c: Config, f: Flags, s: Shape, lucky: bool)
    requires Quiet(s)
    ensures Exempt(c, AfterLabel(c, f, s, lucky)) == Exempt(c, f) && SameFunction(f, AfterLabel(c, f, s, lucky))
  {
    hide AfterLabel, AfterDotLabel, AfterFunctionLabel, Counted, Exempt;
    LabelCases(c, f, s, lucky);
    DotLabelKeeps(c, f, s, lucky);
    CountedKeeps(c, f);
  }

  lemma {:induction false} KindStays(file: File, l: nat, i: nat)
    requires file.Valid() && Active(file.c) && l < i <= |file.lines|
    requires forall m :: l < m < i ==> Quiet(file.lines[m].shape)
    ensures Exempt(file.c, file.At(i)) == Exempt(file.c, file.At(l + 1))
    ensures SameFunction(file.At(l + 1), file.At(i))
    decreases i
  {
    hide Exempt, Next, Quiet;
    if l + 1 < i {
      KindStays(file, l, i - 1);
      QuietKeeps(file.c, file.At(i - 1), file.lines[i - 1].shape, file.luck[i - 1]);
      StepAt(file, i - 1);
    }
  }

  // --------------------------------------------------------------- From text to shapes

  lemma NotTab(line: string)
    requires line != "" && line[0] != '\t'
    ensures var s := ShapeOf(line);
            && !s.start && !s.end && !s.ret && !s.instruction && !s.entersText && !s.leavesText && !s.jumpTable
            && !s.tab
  {
    DiffersAt(line, "\t.cfi_startproc\n", 0);
    DiffersAt(line, "\t.cfi_endproc\n", 0);
    DiffersAt(line, "\tret\n", 0);
    DiffersAt(line, "\tretq\n", 0);
    hide StartsWith, CallOf, HasHash, Contains, IsTarget;
  }

  lemma LabelIsShaped(text: string, name: string)
    requires FunctionLabel(text, name)
    ensures LabelShaped(ShapeOf(text))
  {
    assert text[0] == name[0];
    NotTab(text);
    FindsChar(text, ':');
    assert ":" == [':'];
    hide StartsWith, CallOf, HasHash, Contains, IsTarget, EntersText, LeavesText, IsJumpTable, Void;
  }

  lemma SilentIsQuiet(text: string)
    requires EmitsNothing(text) && !ShapeOf(text).start && !ShapeOf(text).end
    ensures Quiet(ShapeOf(text))
  {
    if Void(text) {
      VoidIsQuiet(text);
    } else if IsTarget(text, SILENT) {
      SilentIsTab(text);
    } else {
      var name :| LabelText(text, name) && name[0] == '.';
      assert text[0] == name[0];
    }
    hide StartsWith, CallOf, HasHash, Contains, IsTarget, EntersText, LeavesText, IsJumpTable, LabelText;
  }

  lemma VoidIsQuiet(text: string)
    requires Void(text)
    ensures text == "" || text[0] == '\t' || text[0] == ' ' || text[0] == '#' || !Contains(text, ":")
  {
    if text == "\n" {
      FindsNothing(text, ":");
    }
  }

  lemma SilentIsTab(text: string)
    requires IsTarget(text, SILENT)
    ensures text != "" && text[0] == '\t'
  {
    var i :| 0 <= i < |SILENT| && StartsWith(text, SILENT[i]);
    PrefixByte(text, SILENT[i], 0);
  }

  // ------------------------------------------------------------------ By name

  /** The string ends with its only colon. */
  predicate IsLabel(l: string) {
    l != "" && l[|l| - 1] == ':' && ':' !in l[..|l| - 1]
  }

  predicate Labels(list: seq<string>) {
    forall i :: 0 <= i < |list| ==> IsLabel(list[i])
  }

  lemma LabelMatches(list: seq<string>, name: string, line: string)
    requires Labels(list) && ':' !in name && StartsWith(line, name + ":")
    ensures IsTarget(line, list) <==> name + ":" in list
  {
    var full := name + ":";
    if i :| 0 <= i < |list| && StartsWith(line, list[i]) {
      SameLabel(line, full, list[i]);
    }
    if i :| 0 <= i < |list| && list[i] == full {
      assert StartsWith(line, list[i]);
    }
  }

  lemma SameLabel(line: string, a: string, b: string)
    requires StartsWith(line, a) && StartsWith(line, b)
    requires IsLabel(a) && IsLabel(b)
    ensures a == b
  {
    PrefixByte(line, a, |a| - 1);
    PrefixByte(line, b, |b| - 1);
    ColonIsLast(line, a, |b| - 1);
    ColonIsLast(line, b, |a| - 1);
  }

  lemma ColonIsLast(line: string, a: string, k: nat)
    requires StartsWith(line, a) && IsLabel(a) && k < |line| && line[k] == ':'
    ensures k >= |a| - 1
  {
    if k < |a| - 1 {
      PrefixByte(line, a, k);
      assert false;
    }
  }

  lemma CustomizedAreLabels()
    ensures Labels(CUSTOMIZED)
  {
    assert |CUSTOMIZED| == 10;
    assert IsLabel(CUSTOMIZED[0]) && IsLabel(CUSTOMIZED[1]) && IsLabel(CUSTOMIZED[2]) && IsLabel(CUSTOMIZED[3]);
    assert IsLabel(CUSTOMIZED[4]) && IsLabel(CUSTOMIZED[5]) && IsLabel(CUSTOMIZED[6]);
    assert IsLabel(CUSTOMIZED[7]) && IsLabel(CUSTOMIZED[8]) && IsLabel(CUSTOMIZED[9]);
  }

  lemma OthersAreLabels()
    ensures Labels(NO_INSTR) && Labels(HANDLERS)
  {
    assert |NO_INSTR| == 1 && |HANDLERS| == 3;
    assert IsLabel(NO_INSTR[0]);
    assert IsLabel(HANDLERS[0]);
    assert IsLabel(HANDLERS[1]);
    assert IsLabel(HANDLERS[2]);
  }

  lemma ListsAreLabels()
    ensures Labels(CUSTOMIZED) && Labels(NO_INSTR) && Labels(HANDLERS)
  {
    hide Labels;
    CustomizedAreLabels();
    OthersAreLabels();
  }

  /** A function gets a prologue unless its name is exempt, if its label counts; otherwise it
      is of the kind of what came before. */
  lemma LabelProtects(file: File, l: nat, i: nat, name: string)
    requires file.Valid() && Active(file.c) && Defines(file.lines, l, i, name)
    ensures Protected(file, i)
       <==> if Counts(file.c, file.At(l), file.lines[l].shape) then file.c.scheme.Buddy? || !ExemptName(name)
            else !Exempt(file.c, file.At(l))
  {
    hide Next, Counts, ShapeOf, EmitsNothing, LabelShaped, Quiet, Exempt, OneLine;
    var lines := file.lines;
    StartsByText(file, l);
    LabelIsShaped(lines[l].text, name);
    LabelLists(lines[l].text, name);
    LabelDecides(file.c, file.At(l), lines[l].shape, file.luck[l]);
    StepAt(file, l);
    QuietBetween(lines, l, i, name);
    KindStays(file, l, i);
  }

  // ------------------------------------------------------------- What stands at an entry

  lemma EntryMarks(c: Config, f: Flags, l: Line, lucky: bool)
    requires Active(c) && l.shape.start
    ensures Has(Output(c, f, l, lucky), InitCall)
       <==> !c.scheme.Buddy? && f.inCustomized && !f.inNoInstr && !f.onStackHandler
    ensures Has(Output(c, f, l, lucky), HandlerCall) <==> !c.scheme.Buddy? && f.onStackHandler && !f.inNoInstr
    ensures Has(Output(c, f, l, lucky), Prologue)
       <==> c.scheme.Buddy? || (!f.inNoInstr && !f.onStackHandler && !f.inCustomized)
  {
  }

  /** No name is in two of the lists. */
  lemma ListsApart(name: string)
    ensures !(name in CUSTOMIZED && name in HANDLERS)
    ensures !(name in CUSTOMIZED && name in NO_INSTR)
    ensures !(name in HANDLERS && name in NO_INSTR)
  {
    assert forall i :: 0 <= i < |CUSTOMIZED| ==> |CUSTOMIZED[i]| < 20;
    assert |HANDLERS[0]| > 20 && |HANDLERS[1]| > 20 && |HANDLERS[2]| > 20;
    assert |NO_INSTR[0]| > 20 && NO_INSTR[0][0] == 'f';
    assert HANDLERS[0][0] == '_' && HANDLERS[1][0] == '_' && HANDLERS[2][0] == 's';
  }

  lemma LabelLists(text: string, name: string)
    requires LabelText(text, name)
    ensures var s := ShapeOf(text);
            && (s.customized <==> name + ":" in CUSTOMIZED) && (s.noInstr <==> name + ":" in NO_INSTR)
            && (s.handler <==> name + ":" in HANDLERS)
  {
    hide IsTarget, Labels, Void;
    assert text[..|name| + 1] == name + ":";
    ListsAreLabels();
    LabelMatches(CUSTOMIZED, name, text);
    LabelMatches(NO_INSTR, name, text);
    LabelMatches(HANDLERS, name, text);
  }

  /** What is written at the entry of a function whose label counts: the call that initialises
      the shadow stack for one of the C library's, the call that counts for a signal handler,
      nothing for a function not to be instrumented, and the prologue for any other. */
  lemma EntryByName(file: File, l: nat, i: nat, name: string)
    requires file.Valid() && Active(file.c) && Defines(file.lines, l, i, name)
    requires Counts(file.c, file.At(l), file.lines[l].shape)
    ensures var out, buddy := file.Out(i), file.c.scheme.Buddy?;
            && (Has(out, InitCall) <==> !buddy && name + ":" in CUSTOMIZED)
            && (Has(out, HandlerCall) <==> !buddy && name + ":" in HANDLERS)
            && (Has(out, Prologue) <==> buddy || !ExemptName(name))
  {
    hide Next, Counts, ShapeOf, EmitsNothing, LabelShaped, Quiet, Exempt, OneLine, Output;
    var lines := file.lines;
    StartsByText(file, l);
    LabelIsShaped(lines[l].text, name);
    LabelLists(lines[l].text, name);
    ListsApart(name + ":");
    LabelDecides(file.c, file.At(l), lines[l].shape, file.luck[l]);
    StepAt(file, l);
    QuietBetween(lines, l, i, name);
    KindStays(file, l, i);
    EntryMarks(file.c, file.At(i), lines[i], file.luck[i]);
  }

  lemma QuietBetween(lines: seq<Line>, l: nat, i: nat, name: string)
    requires Defines(lines, l, i, name)
    ensures forall m :: l < m < i ==> Quiet(lines[m].shape)
  {
    hide ShapeOf, EmitsNothing, Quiet, FunctionLabel;
    forall m | l < m < i
      ensures Quiet(lines[m].shape)
    {
      SilentIsQuiet(lines[m].text);
    }
  }

  // ----------------------------------------------------------------- Landing

  /** Nothing but lines of the input and comments. */
  predicate NoCode(out: seq<Chunk>) {
    forall k :: k in out ==> k.Text? || k.Note?
  }

  lemma OutsideOutput(c: Config, f: Flags, l: Line, lucky: bool)
    requires Active(c) && !f.start2end && !l.shape.start
    ensures NoCode(Output(c, f, l, lucky))
  {
  }

  lemma StartOutput(c: Config, f: Flags, l: Line, lucky: bool)
    requires Active(c) && l.shape.start && !Exempt(c, f)
    ensures var out := Output(c, f, l, lucky);
            |out| > 0 && out[|out| - 1] == Prologue && NoCode(out[..|out| - 1])
  {
    var d := Deferred(c, f, l.shape);
    assert NoCode(d);
    assert Output(c, f, l, lucky) == d + [Text(l.text)] + [Prologue];
    assert (d + [Text(l.text)] + [Prologue])[..|d| + 1] == d + [Text(l.text)];
  }

  /** From the label to the prologue nothing is emitted. */
  ghost predicate EntersPrologue(file: File, l: nat, i: nat)
    requires file.Valid() && l < i < |file.lines|
  {
    && (forall m :: l <= m < i ==> NoCode(file.Out(m)))
    && |file.Out(i)| > 0 && file.Out(i)[|file.Out(i)| - 1] == Prologue && NoCode(file.Out(i)[..|file.Out(i)| - 1])
  }

  lemma ProtectedEntry(file: File, l: nat, i: nat, name: string)
    requires file.Valid() && Active(file.c) && Defines(file.lines, l, i, name)
    ensures EntersPrologue(file, l, i) <==> Protected(file, i)
  {
    hide Output, Exempt, EmitsNothing, AsRead, FunctionLabel, NoCode, FlagsAt;
    LabelLineStarts(file.lines, l, i, name);
    forall m | l <= m < i
      ensures NoCode(file.Out(m))
    {
      StartsByText(file, m);
      StaysOutside(file.lines, l, m);
      OutsideOutput(file.c, file.At(m), file.lines[m], file.luck[m]);
    }
    EntryOutput(file.c, file.At(i), file.lines[i], file.luck[i]);
    if Protected(file, i) {
      StartOutput(file.c, file.At(i), file.lines[i], file.luck[i]);
    }
  }

  lemma LabelLineStarts(lines: seq<Line>, l: nat, i: nat, name: string)
    requires Defines(lines, l, i, name)
    ensures !lines[l].shape.start && !lines[l].shape.end
    ensures forall m :: l <= m < i ==> !lines[m].shape.start && !lines[m].shape.end
  {
    hide ShapeOf, EmitsNothing, FunctionLabel, OneLine;
    LabelIsShaped(lines[l].text, name);
  }

  lemma {:induction false} StaysOutside(lines: seq<Line>, l: nat, m: nat)
    requires l <= m < |lines| && !ProcOpen(lines, l)
    requires forall k :: l <= k < m ==> !lines[k].shape.start
    ensures !ProcOpen(lines, m)
  {
    if l < m {
      StaysOutside(lines, l, m - 1);
    }
  }

  /** A call redirected in one file enters past a prologue in another exactly when the name of
      its target is not exempt; if the target's label does not count, exactly when what came
      before it was not exempt. */
  lemma LandsPastPrologue(calls: File, m: nat, bare: string, defs: File, l: nat, i: nat)
    requires calls.Valid() && defs.Valid() && calls.c == defs.c && Active(calls.c)
    requires m < |calls.lines| && !calls.lines[m].shape.start && !calls.lines[m].shape.end
    requires Has(calls.Out(m), DirectCall(bare)) && calls.lines[m].shape.call.Named?
    requires Defines(defs.lines, l, i, Names.TargetName(calls.lines[m].shape.call.target))
    ensures Redirects(calls.c, calls.lines[m])
    ensures EntersPrologue(defs, l, i)
       <==> if Counts(defs.c, defs.At(l), defs.lines[l].shape)
            then !ExemptName(Names.TargetName(calls.lines[m].shape.call.target))
            else !Exempt(defs.c, defs.At(l))
  {
    hide Output, Defines, ExemptName, Redirects, Counts, EntersPrologue;
    RedirectedExactly(calls.c, calls.At(m), calls.lines[m], calls.luck[m], bare);
    var name := Names.TargetName(calls.lines[m].shape.call.target);
    DefinesWithin(defs.lines, l, i, name);
    LabelProtects(defs, l, i, name);
    ProtectedEntry(defs, l, i, name);
  }

  lemma DefinesWithin(lines: seq<Line>, l: nat, i: nat, name: string)
    requires Defines(lines, l, i, name)
    ensures l < i < |lines|
  {
  }

  // ------------------------------------------------------------- When labels count

  /** The label stands in a text section, in no block and not in 32-bit code. */
  ghost predicate PlainlyPlaced(lines: seq<Line>, l: nat)
    requires l < |lines|
  {
    && TextOpen(lines, l) && !IntelOpen(lines, l + 1) && !AppOpen(lines, l + 1)
    && WidthsApart(lines, l + 1) && !Code32Open(lines, l + 1)
  }

  /** Directives of code width stand on lines of their own. */
  predicate WidthsApart(lines: seq<Line>, m: nat)
    requires m <= |lines|
  {
    forall k :: 0 <= k < m && (lines[k].shape.code32 || lines[k].shape.code64) ==>
      !Passed(lines[k].shape) && !lines[k].shape.ret && lines[k].shape.call.NoCall?
  }

  /** Of the directives of code width before line `m` the latest is .code32. */
  ghost predicate Code32Open(lines: seq<Line>, m: nat)
    requires m <= |lines|
  {
    && m > 0 && !HasPart(lines[m - 1].text, ".code64")
    && (HasPart(lines[m - 1].text, ".code32") || Code32Open(lines, m - 1))
  }

  lemma {:induction false} NoWidths(lines: seq<Line>, m: nat)
    requires AsRead(lines) && m <= |lines|
    requires forall k :: 0 <= k < m ==> !lines[k].shape.code32 && !lines[k].shape.code64
    ensures WidthsApart(lines, m) && !Code32Open(lines, m)
  {
    hide HasPart, ShapeOf;
    if m > 0 {
      NoWidths(lines, m - 1);
      ModesAsText(lines[m - 1].text);
    }
  }

  /** Section directives are nothing else. */
  lemma DirectiveAlone(line: string)
    requires EntersText(line) || LeavesText(line)
    ensures var s := ShapeOf(line);
            !s.start && !s.end && !s.ret && s.call.NoCall?
  {
    var d := After(line, 2);
    DiffersAt(line, "\tret\n", 1);
    DiffersAt(line, "\tretq\n", 1);
    DiffersAt(line, "\tcallq\t*", 1);
    DiffersAt(line, "\tcallq", 1);
    NoProc(line, d);
    hide StartsWith, HasHash, Contains, IsTarget, EntersText, LeavesText, IsJumpTable;
  }

  lemma NoProc(line: string, d: string)
    requires |line| >= 2 && d == line[2..]
    requires d != "" && (d[0] == 't' || d[0] == 's' || d[0] == 'b' || d[0] == 'd')
    ensures !StartsWith(line, "\t.cfi_startproc\n") && !StartsWith(line, "\t.cfi_endproc\n")
  {
    DiffersAt(line, "\t.cfi_startproc\n", 2);
    DiffersAt(line, "\t.cfi_endproc\n", 2);
  }

  /** The automaton knows exactly when it is in a text section. */
  lemma {:induction false} SectionByText(file: File, m: nat)
    requires file.Valid() && Active(file.c) && AsRead(file.lines) && m <= |file.lines|
    ensures file.At(m).instrOk == TextOpen(file.lines, m)
  {
    hide Next, ShapeOf;
    if m > 0 {
      SectionByText(file, m - 1);
      SectionsAlone(file.lines[m - 1].text);
      NextDoes(file.c, file.At(m - 1), file.lines[m - 1].shape, file.luck[m - 1]);
    }
  }

  lemma SectionsAlone(line: string)
    ensures var s := ShapeOf(line);
            s.entersText || s.leavesText ==> !s.start && !s.end && !s.ret && s.call.NoCall?
  {
    var s := ShapeOf(line);
    assert s.entersText == EntersText(line) && s.leavesText == LeavesText(line);
    hide ShapeOf, EntersText, LeavesText;
    if s.entersText || s.leavesText {
      DirectiveAlone(line);
    }
  }

  /** Exactly 32-bit code is skipped. */
  lemma {:induction false} WidthByText(file: File, m: nat)
    requires file.Valid() && Active(file.c) && AsRead(file.lines) && m <= |file.lines| && WidthsApart(file.lines, m)
    ensures file.At(m).skipCsect == Code32Open(file.lines, m)
  {
    hide Next, HasPart, ShapeOf;
    if m > 0 {
      WidthByText(file, m - 1);
      ModesAsText(file.lines[m - 1].text);
      NextDoes(file.c, file.At(m - 1), file.lines[m - 1].shape, file.luck[m - 1]);
    }
  }

  /** Such a label counts, and a label outside text sections does not. */
  lemma CountsByText(file: File, l: nat)
    requires file.Valid() && Active(file.c) && AsRead(file.lines) && l < |file.lines|
    requires LabelShaped(file.lines[l].shape)
    ensures PlainlyPlaced(file.lines, l) ==> Counts(file.c, file.At(l), file.lines[l].shape)
    ensures !TextOpen(file.lines, l) ==> !Counts(file.c, file.At(l), file.lines[l].shape)
  {
    hide AfterModes, ShapeOf, HasPart;
    var c, f, s := file.c, file.At(l), file.lines[l].shape;
    ModesAsText(file.lines[l].text);
    SectionByText(file, l);
    ModesDo(c, f, s);
    if PlainlyPlaced(file.lines, l) {
      WidthByText(file, l);
      SkippedBlocks(file, l);
    }
  }

  /** No exempt name is in the list of protected functions, unless it is taken for a library's. */
  predicate SafeLists(c: Config) {
    forall name :: name in c.protectedFuncs && ExemptName(name) ==> IsTarget(name, c.libraryFuncs)
  }

  lemma {:induction false} TargetIsPrefix(target: string)
    ensures StartsWith(target, Names.TargetName(target))
  {
    var name := Names.TargetName(target);
    if name != "" {
      TargetIsPrefix(target[1..]);
      assert target[..|name|] == [target[0]] + target[1..][..|name| - 1];
    }
  }

  lemma LibraryByPrefix(target: string, name: string, list: seq<string>)
    requires StartsWith(target, name) && IsTarget(name, list)
    ensures IsTarget(target, list)
  {
    var i :| 0 <= i < |list| && StartsWith(name, list[i]);
    assert target[..|list[i]|] == target[..|name|][..|list[i]|];
  }

  /** With such lists every redirected call to a plainly placed label enters past a prologue. */
  lemma RedirectionIsSafe(calls: File, m: nat, bare: string, defs: File, l: nat, i: nat)
    requires calls.Valid() && defs.Valid() && calls.c == defs.c && Active(calls.c) && SafeLists(calls.c)
    requires m < |calls.lines| && !calls.lines[m].shape.start && !calls.lines[m].shape.end
    requires Has(calls.Out(m), DirectCall(bare)) && calls.lines[m].shape.call.Named?
    requires Defines(defs.lines, l, i, Names.TargetName(calls.lines[m].shape.call.target))
    requires PlainlyPlaced(defs.lines, l)
    ensures EntersPrologue(defs, l, i)
  {
    hide Output, ExemptName, IsTarget, Counts, EntersPrologue, PlainlyPlaced, LabelShaped, EmitsNothing;
    var target := calls.lines[m].shape.call.target;
    LandsPastPrologue(calls, m, bare, defs, l, i);
    LabelIsShaped(defs.lines[l].text, Names.TargetName(target));
    CountsByText(defs, l);
    TargetIsPrefix(target);
    if ExemptName(Names.TargetName(target)) {
      LibraryByPrefix(target, Names.TargetName(target), calls.c.libraryFuncs);
    }
  }
}
