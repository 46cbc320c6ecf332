/** The loop of add_instrumentation, statement by statement, against its specification. */
module InstrumenterLoop {
  import opened Instrumenter

  class Loop {
    const c: Config
    /** The variables carried from line to line, and what has been written. */
    var f: Flags
    var out: seq<Chunk>

    constructor (c: Config)
      ensures this.c == c && f == CLEAR && out == []
    {
      this.c, f, out := c, CLEAR, [];
    }

    /** The trampoline that was put off until the first instruction. */
    method DumpTrampoline(s: Shape)
      modifies this
      ensures f == AfterDeferred(c, old(f), s)
      ensures out == old(out) + Deferred(c, old(f), s)
    {
      if !c.passThru && !f.skipIntel && !f.skipApp && !f.skipCsect && f.instrOk && f.instrumentNext && s.instruction {
        out := out + [Note("trampoline")];
        if f.inMain && c.use64 {
          out := out + [Note("main")];
        }
        f := f.(instrumentNext := false);
        f := f.(insLines := f.insLines + 1);
      }
    }

    /** The code at a function's entry. */
    method PrintEntry()
      modifies this`out
      ensures out == old(out) + Entry(c, f)
    {
      if !c.scheme.Buddy? {
        if f.inNoInstr {
          return;
        }
        if f.onStackHandler {
          out := out + [HandlerCall];
          return;
        }
        if f.inCustomized {
          out := out + [InitCall];
          return;
        }
      }
      out := out + [Prologue];
    }

    method PrintReturn(l: Line)
      modifies this`out
      ensures out == old(out) + [ReturnOutput(c, f, l)]
    {
      if !c.scheme.Buddy? && (f.inCustomized || f.inNoInstr || f.onStackHandler) {
        out := out + [Text(l.text)];
      } else {
        out := out + [Epilogue];
      }
    }

    method PrintCall(l: Line)
      modifies this`out
      ensures out == old(out) + [CallOutput(c, l)]
    {
      match l.shape.call
      case Through(operand) =>
        out := out + [IndirectCall(operand)];
      case Named(target, bare, external) =>
        if external {
          out := out + [Text(l.text)];
        } else if IsTarget(target, c.libraryFuncs) {
          out := out + [Text(l.text)];
        } else if Names.TargetName(target) in c.protectedFuncs {
          out := out + [DirectCall(bare)];
        } else {
          out := out + [Text(l.text)];
        }
      case NoCall =>
        out := out + [Text(l.text)];
    }

    method WriteTrailer()
      modifies this`out
      ensures out == old(out) + Trailer(f)
    {
      if f.isMainExe {
        out := out + [Note("module")];
      }
      if f.insLines > 0 {
        out := out + [Note("payload")];
      }
      out := out + [Note("counts")];
    }

    /** The body of the loop, for one line. */
    method ProcessLine(l: Line, lucky: bool)
      modifies this
      ensures f == Next(c, old(f), l.shape, lucky)
      ensures out == old(out) + Output(c, old(f), l, lucky)
    {
      DumpTrampoline(l.shape);
      CountStart(l.shape);
      if l.shape.start && !c.passThru && c.use64 {
        out := out + [Text(l.text)];
        PrintEntry();
        return;
      }
      PrintRest(l, lucky);
    }

    method PrintRest(l: Line, lucky: bool)
      modifies this
      ensures f == (if l.shape.end && !c.passThru then Ended(old(f), l.shape)
                    else NextInBody(c, Ended(old(f), l.shape), l.shape, lucky))
      ensures out == old(out) + if l.shape.end && !c.passThru then [Text(l.text)]
                                else BodyOutput(c, Ended(old(f), l.shape), l, lucky)
    {
      if l.shape.end {
        f := f.(start2end := false, nEnd := f.nEnd + 1);
      }
      if l.shape.end && !c.passThru {
        out := out + [Text(l.text)];
        return;
      }
      PrintBody(l, lucky);
    }

    method CountStart(s: Shape)
      modifies this`f
      ensures f == Started(old(f), s)
    {
      if s.start {
        f := f.(start2end := true, nStart := f.nStart + 1);
      }
    }

    /** Calls, returns and every other line. */
    method PrintBody(l: Line, lucky: bool)
      modifies this
      ensures f == NextInBody(c, old(f), l.shape, lucky)
      ensures out == old(out) + BodyOutput(c, old(f), l, lucky)
    {
      if CallsWatched(c, f) && !l.shape.call.NoCall? {
        PrintCall(l);
      } else if ReturnsWatched(c, f) && l.shape.ret {
        PrintReturn(l);
      } else {
        PrintPlain(l, lucky);
      }
    }

    /** A line written as it is. */
    method PrintPlain(l: Line, lucky: bool)
      modifies this
      ensures f == if c.passThru then old(f) else Updated(c, old(f), l.shape, lucky)
      ensures out == old(out) + ([Text(l.text)] + if c.passThru then [] else BranchNote(c, old(f), l.shape, lucky))
    {
      out := out + [Text(l.text)];
      if !c.passThru {
        Update(l.shape, lucky);
      }
    }

    /** The flag updates for a line that was written as it is. */
    method Update(s: Shape, lucky: bool)
      modifies this
      ensures f == Updated(c, old(f), s, lucky)
      ensures out == old(out) + BranchNote(c, old(f), s, lucky)
    {
      if s.jumpTable && !c.clang && f.instrOk {
        f := f.(skipNextLabel := true);
      }
      if s.entersText {
        f := f.(instrOk := true);
        return;
      }
      if s.leavesText {
        f := f.(instrOk := false);
        return;
      }
      UpdateModes(s);
      UpdateLabel(s, lucky);
    }

    method UpdateLabel(s: Shape, lucky: bool)
      modifies this
      ensures f == AfterLabel(c, old(f), s, lucky)
      ensures out == old(out) + if !Ignored(old(f), s) && s.tab && s.branch && lucky then [Note("trampoline")] else []
    {
      LabelCases(c, f, s, lucky);
      hide AfterLabel, AfterFunctionLabel, AfterDotLabel;
      if f.skipIntel || f.skipApp || f.skipCsect || !f.instrOk || s.skipped {
        return;
      }
      if s.tab {
        if s.branch && lucky {
          out := out + [Note("trampoline")];
          f := f.(insLines := f.insLines + 1);
        }
        return;
      }
      if s.hasColon {
        if s.dot {
          UpdateDotLabel(s, lucky);
        } else {
          UpdateFunctionLabel(s);
        }
      }
    }

    /** Code width, syntax and inline assembly: the closing directive prevails. */
    method ReadModes(s: Shape) returns (skipCsect: bool, skipIntel: bool, skipApp: bool)
      ensures skipCsect == CsectAfter(c, f.skipCsect, s)
      ensures skipIntel == (!s.att && (s.intel || f.skipIntel))
      ensures skipApp == (!s.noApp && (s.app || f.skipApp))
    {
      skipCsect, skipIntel, skipApp := f.skipCsect, f.skipIntel, f.skipApp;
      if s.code32 {
        skipCsect := c.use64;
      }
      if s.code64 {
        skipCsect := !c.use64;
      }
      if s.intel {
        skipIntel := true;
      }
      if s.att {
        skipIntel := false;
      }
      if s.app {
        skipApp := true;
      }
      if s.noApp {
        skipApp := false;
      }
    }

    method UpdateModes(s: Shape)
      modifies this`f
      ensures f == AfterModes(c, old(f), s)
    {
      var skipCsect, skipIntel, skipApp := ReadModes(s);
      f := f.(skipCsect := skipCsect, skipIntel := skipIntel, skipApp := skipApp);
    }

    method UpdateDotLabel(s: Shape, lucky: bool)
      modifies this
      ensures f == AfterDotLabel(c, old(f), s, lucky) && out == old(out)
    {
      if (s.numbered || (c.clang && s.lbb)) && lucky {
        if !f.skipNextLabel {
          f := f.(instrumentNext := true);
        } else {
          f := f.(skipNextLabel := false);
        }
      }
    }

    method UpdateFunctionLabel(s: Shape)
      modifies this`f
      ensures f == AfterFunctionLabel(old(f), s)
    {
      var outside := !f.start2end;
      f := f.(instrumentNext := true, inMain := s.main && outside, isMainExe := f.isMainExe || (s.main && outside),
              inCustomized := s.customized && outside, inNoInstr := s.noInstr && outside,
              onStackHandler := s.handler && outside);
    }
  }

  /** add_instrumentation, on the lines that fgets reads. */
  method AddInstrumentation(c: Config, raws: seq<string>, luck: seq<bool>)
      returns (out: seq<Chunk>, nStart: nat, nEnd: nat)
    requires |luck| == |raws|
    ensures var lines := ParsedAll(raws);
            out == OutputTo(c, CLEAR, lines, luck, |raws|) + Trailer(FlagsAt(c, CLEAR, lines, luck, |raws|))
    ensures nStart == FlagsAt(c, CLEAR, ParsedAll(raws), luck, |raws|).nStart
    ensures nEnd == FlagsAt(c, CLEAR, ParsedAll(raws), luck, |raws|).nEnd
  {
    var lines := ParsedAll(raws);
    var loop := new Loop(c);
    ReadAll(loop, lines, luck);
    loop.WriteTrailer();
    out, nStart, nEnd := loop.out, loop.f.nStart, loop.f.nEnd;
  }

  method ReadAll(loop: Loop, lines: seq<Line>, luck: seq<bool>)
    requires |luck| == |lines| && loop.out == []
    modifies loop
    ensures loop.f == FlagsAt(loop.c, old(loop.f), lines, luck, |lines|)
    ensures loop.out == OutputTo(loop.c, old(loop.f), lines, luck, |lines|)
  {
    hide Output;
    var i := 0;
    while i < |lines|
      invariant 0 <= i <= |lines|
      invariant loop.f == FlagsAt(loop.c, old(loop.f), lines, luck, i)
      invariant loop.out == OutputTo(loop.c, old(loop.f), lines, luck, i)
    {
      OneMoreLine(loop.c, old(loop.f), lines, luck, i);
      loop.ProcessLine(lines[i], luck[i]);
      i := i + 1;
    }
  }

  lemma OneMoreLine(c: Config, f: Flags, lines: seq<Line>, luck: seq<bool>, i: nat)
    requires i < |lines| == |luck|
    ensures FlagsAt(c, f, lines, luck, i + 1) == Next(c, FlagsAt(c, f, lines, luck, i), lines[i].shape, luck[i])
    ensures OutputTo(c, f, lines, luck, i + 1)
         == OutputTo(c, f, lines, luck, i) + Output(c, FlagsAt(c, f, lines, luck, i), lines[i], luck[i])
  {
  }
}
