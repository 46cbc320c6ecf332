/** The counts that add_instrumentation reports. */
module Counts {
  import opened Instrumenter
  import opened FlagEffects
  import opened LineText
  import opened Consistency
  import opened Redirection
  import Names

  // ------------------------------------------------------------------ Procedures

  /** How many of the first `m` lines start a procedure, and how many end one. */
  function StartCount(lines: seq<Line>, m: nat): nat
    requires m <= |lines|
  {
    if m == 0 then 0 else StartCount(lines, m - 1) + if lines[m - 1].text == "\t.cfi_startproc\n" then 1 else 0
  }

  function EndCount(lines: seq<Line>, m: nat): nat
    requires m <= |lines|
  {
    if m == 0 then 0 else EndCount(lines, m - 1) + if lines[m - 1].text == "\t.cfi_endproc\n" then 1 else 0
  }

  predicate SameCounts(f: Flags, f': Flags) {
    f'.nStart == f.nStart && f'.nEnd == f.nEnd
  }

  lemma UpdatedCounts(c: Config, f: Flags, s: Shape, lucky: bool)
    ensures SameCounts(f, Updated(c, f, s, lucky))
  {
    hide AfterLabel, AfterModes, AfterJumpTable;
    JumpTableCounts(c, f, s);
    ModesCounts(c, AfterJumpTable(c, f, s), s);
    LabelCounts(c, AfterModes(c, AfterJumpTable(c, f, s), s), s, lucky);
  }

  lemma JumpTableCounts(c: Config, f: Flags, s: Shape)
    ensures SameCounts(f, AfterJumpTable(c, f, s))
  {
  }

  lemma ModesCounts(c: Config, f: Flags, s: Shape)
    ensures SameCounts(f, AfterModes(c, f, s))
  {
    hide CsectAfter;
  }

  lemma LabelCounts(c: Config, f: Flags, s: Shape, lucky: bool)
    ensures SameCounts(f, AfterLabel(c, f, s, lucky))
  {
    hide AfterLabel, Ignored, AfterDotLabel, AfterFunctionLabel;
    LabelCases(c, f, s, lucky);
    DotLabelIs(c, f, s, lucky);
    FunctionLabelCounts(f, s);
  }

  lemma FunctionLabelCounts(f: Flags, s: Shape)
    ensures SameCounts(f, AfterFunctionLabel(f, s))
  {
  }

  lemma NextCounts(c: Config, f: Flags, s: Shape, lucky: bool)
    requires !(s.start && s.end)
    ensures Next(c, f, s, lucky).nStart == f.nStart + (if s.start then 1 else 0)
    ensures Next(c, f, s, lucky).nEnd == f.nEnd + (if s.end then 1 else 0)
  {
    hide Updated, CallsWatched, ReturnsWatched, TrampolineDue;
    UpdatedCounts(c, Ended(Started(AfterDeferred(c, f, s), s), s), s, lucky);
  }

  /** The counts that are reported are those of the lines that start and end procedures. */
  lemma {:induction false} ProceduresCounted(file: File, m: nat)
    requires file.Valid() && AsRead(file.lines) && m <= |file.lines|
    ensures file.At(m).nStart == StartCount(file.lines, m) && file.At(m).nEnd == EndCount(file.lines, m)
  {
    hide Next, ShapeOf, OneLine;
    if m > 0 {
      ProceduresCounted(file, m - 1);
      SectionsAsText(file.lines[m - 1].text);
      NextCounts(file.c, file.At(m - 1), file.lines[m - 1].shape, file.luck[m - 1]);
    }
  }

  // ------------------------------------------------------------------- Locations

  /** How many trampolines are noted in the output. */
  function Trampolines(out: seq<Chunk>): nat {
    if out == [] then 0
    else Trampolines(out[..|out| - 1]) + if out[|out| - 1] == Note("trampoline") then 1 else 0
  }

  lemma {:induction false} TrampolinesSum(a: seq<Chunk>, b: seq<Chunk>)
    ensures Trampolines(a + b) == Trampolines(a) + Trampolines(b)
  {
    if b == [] {
      assert a + b == a;
    } else {
      assert (a + b)[..|a + b| - 1] == a + b[..|b| - 1];
      TrampolinesSum(a, b[..|b| - 1]);
    }
  }

  lemma OneChunk(x: Chunk)
    ensures Trampolines([x]) == if x == Note("trampoline") then 1 else 0
  {
    assert [x][..0] == [];
  }

  lemma TwoChunks(x: Chunk, y: Chunk)
    ensures Trampolines([x, y]) == Trampolines([x]) + Trampolines([y])
  {
    assert [x, y] == [x] + [y];
    TrampolinesSum([x], [y]);
  }

  lemma DeferredLocations(c: Config, f: Flags, s: Shape)
    ensures AfterDeferred(c, f, s).insLines == f.insLines + Trampolines(Deferred(c, f, s))
  {
    hide TrampolineDue, Trampolines;
    if TrampolineDue(c, f, s) {
      WithMainNote(f.inMain && c.use64);
    } else {
      NoChunk();
    }
  }

  lemma WithMainNote(main: bool)
    ensures Trampolines([Note("trampoline")] + if main then [Note("main")] else []) == 1
  {
    hide Trampolines;
    OneChunk(Note("trampoline"));
    OneChunk(Note("main"));
    assert "main" != "trampoline" by {
      assert |"main"| == 4;
    }
    NoChunk();
    TrampolinesSum([Note("trampoline")], if main then [Note("main")] else []);
  }

  lemma NoChunk()
    ensures Trampolines([]) == 0
  {
  }

  /** A branch that gets a trampoline. */
  predicate Branches(c: Config, f: Flags, s: Shape, lucky: bool) {
    !s.entersText && !s.leavesText && !Ignored(AfterModes(c, AfterJumpTable(c, f, s), s), s) && s.tab && s.branch && lucky
  }

  lemma BranchLocations(c: Config, f: Flags, s: Shape, lucky: bool)
    ensures Updated(c, f, s, lucky).insLines == f.insLines + Trampolines(BranchNote(c, f, s, lucky))
  {
    hide *;
    UpdatedLocations(c, f, s, lucky);
    NotedLocations(c, f, s, lucky);
  }

  lemma NotedLocations(c: Config, f: Flags, s: Shape, lucky: bool)
    ensures Trampolines(BranchNote(c, f, s, lucky)) == if Branches(c, f, s, lucky) then 1 else 0
  {
    hide Trampolines, AfterModes, AfterJumpTable, Ignored;
    NoChunk();
    OneChunk(Note("trampoline"));
  }

  lemma UpdatedLocations(c: Config, f: Flags, s: Shape, lucky: bool)
    ensures Updated(c, f, s, lucky).insLines == f.insLines + if Branches(c, f, s, lucky) then 1 else 0
  {
    hide AfterModes, AfterLabel, AfterJumpTable, Ignored, Updated;
    var f1 := AfterJumpTable(c, f, s);
    if s.entersText || s.leavesText {
      SectionLocations(c, f, s, lucky);
    } else {
      UpdatedIs(c, f, s, lucky);
      JumpTableLocations(c, f, s);
      ModesLocations(c, f1, s);
      LabelLocations(c, AfterModes(c, f1, s), s, lucky);
    }
  }

  lemma SectionLocations(c: Config, f: Flags, s: Shape, lucky: bool)
    requires s.entersText || s.leavesText
    ensures Updated(c, f, s, lucky).insLines == f.insLines
  {
    hide AfterModes, AfterLabel, AfterJumpTable;
    JumpTableLocations(c, f, s);
  }

  lemma JumpTableLocations(c: Config, f: Flags, s: Shape)
    ensures AfterJumpTable(c, f, s).insLines == f.insLines
  {
  }

  lemma LabelLocations(c: Config, f: Flags, s: Shape, lucky: bool)
    ensures AfterLabel(c, f, s, lucky).insLines
         == f.insLines + if !Ignored(f, s) && s.tab && s.branch && lucky then 1 else 0
  {
    hide AfterLabel, Ignored, AfterDotLabel, AfterFunctionLabel;
    LabelCases(c, f, s, lucky);
    DotLabelLocations(c, f, s, lucky);
    FunctionLabelLocations(f, s);
  }

  lemma DotLabelLocations(c: Config, f: Flags, s: Shape, lucky: bool)
    ensures AfterDotLabel(c, f, s, lucky).insLines == f.insLines
  {
    hide AfterDotLabel;
    DotLabelIs(c, f, s, lucky);
  }

  lemma ModesLocations(c: Config, f: Flags, s: Shape)
    ensures AfterModes(c, f, s).insLines == f.insLines
  {
    hide CsectAfter;
  }

  lemma FunctionLabelLocations(f: Flags, s: Shape)
    ensures AfterFunctionLabel(f, s).insLines == f.insLines
  {
  }

  lemma LineLocations(c: Config, f: Flags, l: Line, lucky: bool)
    ensures Next(c, f, l.shape, lucky).insLines == f.insLines + Trampolines(Output(c, f, l, lucky))
  {
    hide Trampolines, Deferred, AfterDeferred, BodyOutput, NextInBody, Entry, Started, Ended, Opens;
    var s := l.shape;
    var f0 := AfterDeferred(c, f, s);
    var f1 := Started(f0, s);
    DeferredLocations(c, f, s);
    MarkedLocations(f0, s);
    MarkedLocations(f1, s);
    TrampolinesSum(Deferred(c, f, s), Rest(c, f1, l, lucky));
    RestLocations(c, f1, l, lucky);
  }

  /** What a line adds after what was put off, and the flags it leaves. */
  function Rest(c: Config, f: Flags, l: Line, lucky: bool): seq<Chunk> {
    if Opens(c, l.shape) then [Text(l.text)] + Entry(c, f)
    else if l.shape.end && !c.passThru then [Text(l.text)]
    else BodyOutput(c, Ended(f, l.shape), l, lucky)
  }

  lemma RestLocations(c: Config, f: Flags, l: Line, lucky: bool)
    ensures f.insLines + Trampolines(Rest(c, f, l, lucky))
         == if Opens(c, l.shape) then f.insLines
            else if l.shape.end && !c.passThru then Ended(f, l.shape).insLines
            else NextInBody(c, Ended(f, l.shape), l.shape, lucky).insLines
  {
    hide Trampolines, BodyOutput, NextInBody, Entry, Ended, Opens;
    MarkedLocations(f, l.shape);
    OneChunk(Text(l.text));
    EntryLocations(c, f);
    TrampolinesSum([Text(l.text)], Entry(c, f));
    BodyLocations(c, Ended(f, l.shape), l, lucky);
  }

  lemma MarkedLocations(f: Flags, s: Shape)
    ensures Started(f, s).insLines == f.insLines && Ended(f, s).insLines == f.insLines
  {
  }

  lemma EntryLocations(c: Config, f: Flags)
    ensures Trampolines(Entry(c, f)) == 0
  {
    hide Trampolines, Exempt;
    NoChunk();
    OneChunk(Prologue);
    OneChunk(InitCall);
    OneChunk(HandlerCall);
  }

  lemma BodyLocations(c: Config, f: Flags, l: Line, lucky: bool)
    ensures NextInBody(c, f, l.shape, lucky).insLines == f.insLines + Trampolines(BodyOutput(c, f, l, lucky))
  {
    hide Trampolines, Updated, BranchNote, CallsWatched, ReturnsWatched;
    OneChunk(Text(l.text));
    OneChunk(CallOutput(c, l));
    OneChunk(ReturnOutput(c, f, l));
    BranchLocations(c, f, l.shape, lucky);
    TrampolinesSum([Text(l.text)], BranchNote(c, f, l.shape, lucky));
    assert [Text(l.text)] + [] == [Text(l.text)];
  }

  /** The number of locations that is reported is that of the trampolines noted in the output. */
  lemma {:induction false} LocationsCounted(file: File, m: nat)
    requires file.Valid() && m <= |file.lines|
    ensures file.At(m).insLines == Trampolines(OutputTo(file.c, CLEAR, file.lines, file.luck, m))
  {
    hide Next, Output, Trampolines;
    if m > 0 {
      LocationsCounted(file, m - 1);
      LineLocations(file.c, file.At(m - 1), file.lines[m - 1], file.luck[m - 1]);
      TrampolinesSum(OutputTo(file.c, CLEAR, file.lines, file.luck, m - 1),
                     OutputAt(file.c, CLEAR, file.lines, file.luck, m - 1));
    } else {
      NoChunk();
    }
  }
}
