/** What the parts of add_instrumentation do to the flags of the automaton. */
module FlagEffects {
  import opened Instrumenter

  predicate Active(c: Config) {
    !c.passThru && c.use64
  }

  /** Section, code width, syntax and inline assembly are the same. */
  predicate SameModes(f: Flags, f': Flags) {
    && f'.instrOk == f.instrOk && f'.skipCsect == f.skipCsect
    && f'.skipIntel == f.skipIntel && f'.skipApp == f.skipApp
  }

  /** So are the kind of the function and whether the line is inside one. */
  predicate SameKind(c: Config, f: Flags, f': Flags) {
    f'.start2end == f.start2end && Exempt(c, f') == Exempt(c, f) && SameFunction(f, f')
  }

  /** The function is one of the same list, if of any. */
  predicate SameFunction(f: Flags, f': Flags) {
    f'.inNoInstr == f.inNoInstr && f'.onStackHandler == f.onStackHandler && f'.inCustomized == f.inCustomized
  }

  lemma DeferredKeeps(c: Config, f: Flags, s: Shape)
    ensures SameModes(f, AfterDeferred(c, f, s)) && SameKind(c, f, AfterDeferred(c, f, s))
  {
    hide TrampolineDue;
    if TrampolineDue(c, f, s) {
    }
  }

  lemma StartedKeeps(c: Config, f: Flags, s: Shape)
    ensures SameModes(f, Started(f, s)) && Exempt(c, Started(f, s)) == Exempt(c, f)
    ensures Started(f, s).start2end == (s.start || f.start2end)
  {
    if s.start {
    }
  }

  lemma EndedKeeps(c: Config, f: Flags, s: Shape)
    ensures SameModes(f, Ended(f, s)) && Exempt(c, Ended(f, s)) == Exempt(c, f)
    ensures Ended(f, s).start2end == (!s.end && f.start2end)
  {
    if s.end {
    }
  }

  lemma JumpTableKeeps(c: Config, f: Flags, s: Shape)
    ensures SameModes(f, AfterJumpTable(c, f, s)) && SameKind(c, f, AfterJumpTable(c, f, s))
  {
    if s.jumpTable && !c.clang && f.instrOk {
    }
  }

  lemma SectionDoes(c: Config, f: Flags, s: Shape, lucky: bool)
    requires s.entersText || s.leavesText
    ensures var f1, f' := AfterJumpTable(c, f, s), Updated(c, f, s, lucky);
            SameModes(f1.(instrOk := s.entersText), f') && SameKind(c, f1, f')
  {
    hide AfterModes, AfterLabel, AfterJumpTable, Exempt;
    UpdatedSection(c, f, s, lucky);
    SectionKeepsKind(c, AfterJumpTable(c, f, s), s.entersText);
  }

  lemma UpdatedSection(c: Config, f: Flags, s: Shape, lucky: bool)
    requires s.entersText || s.leavesText
    ensures Updated(c, f, s, lucky) == AfterJumpTable(c, f, s).(instrOk := s.entersText)
  {
    hide AfterModes, AfterLabel, AfterJumpTable;
  }

  lemma SectionKeepsKind(c: Config, f: Flags, instrOk: bool)
    ensures SameKind(c, f, f.(instrOk := instrOk))
  {
  }

  lemma UpdatedIs(c: Config, f: Flags, s: Shape, lucky: bool)
    requires !s.entersText && !s.leavesText
    ensures Updated(c, f, s, lucky) == AfterLabel(c, AfterModes(c, AfterJumpTable(c, f, s), s), s, lucky)
  {
    hide AfterModes, AfterLabel, AfterJumpTable;
  }

  lemma ModesDo(c: Config, f: Flags, s: Shape)
    ensures var f' := AfterModes(c, f, s);
            && f'.instrOk == f.instrOk && f'.skipCsect == CsectAfter(c, f.skipCsect, s)
            && f'.skipIntel == (!s.att && (s.intel || f.skipIntel))
            && f'.skipApp == (!s.noApp && (s.app || f.skipApp))
    ensures SameKind(c, f, AfterModes(c, f, s))
  {
    hide CsectAfter;
  }

  lemma CountedKeeps(c: Config, f: Flags)
    ensures SameModes(f, Counted(f)) && SameKind(c, f, Counted(f))
  {
  }

  lemma DotLabelKeeps(c: Config, f: Flags, s: Shape, lucky: bool)
    ensures SameModes(f, AfterDotLabel(c, f, s, lucky)) && SameKind(c, f, AfterDotLabel(c, f, s, lucky))
  {
    DotLabelIs(c, f, s, lucky);
    NextLabelKeeps(c, f, f.instrumentNext || !f.skipNextLabel, false);
    hide AfterDotLabel;
  }

  lemma DotLabelIs(c: Config, f: Flags, s: Shape, lucky: bool)
    ensures var f' := AfterDotLabel(c, f, s, lucky);
            || f' == f
            || f' == f.(instrumentNext := f.instrumentNext || !f.skipNextLabel, skipNextLabel := false)
  {
  }

  lemma NextLabelKeeps(c: Config, f: Flags, next: bool, skip: bool)
    ensures var f' := f.(instrumentNext := next, skipNextLabel := skip);
            SameModes(f, f') && SameKind(c, f, f')
  {
  }

  /** The flags are those of a function with this label. */
  predicate Marked(f: Flags, s: Shape) {
    f.inNoInstr == s.noInstr && f.onStackHandler == s.handler && f.inCustomized == s.customized
  }

  lemma FunctionLabelDoes(c: Config, f: Flags, s: Shape)
    ensures SameModes(f, AfterFunctionLabel(f, s)) && AfterFunctionLabel(f, s).start2end == f.start2end
    ensures Exempt(c, AfterFunctionLabel(f, s))
       <==> !f.start2end && !c.scheme.Buddy? && (s.customized || s.noInstr || s.handler)
    ensures !f.start2end ==> Marked(AfterFunctionLabel(f, s), s)
  {
  }

  lemma LabelKeepsModes(c: Config, f: Flags, s: Shape, lucky: bool)
    ensures SameModes(f, AfterLabel(c, f, s, lucky)) && AfterLabel(c, f, s, lucky).start2end == f.start2end
  {
    hide AfterLabel, Ignored, AfterDotLabel, AfterFunctionLabel, Counted, Exempt;
    LabelCases(c, f, s, lucky);
    DotLabelKeeps(c, f, s, lucky);
    FunctionLabelDoes(c, f, s);
    CountedKeeps(c, f);
  }

  /** What the bottom of the loop does with the directives on a line. */
  predicate ModesAfter(c: Config, f: Flags, s: Shape, f': Flags) {
    && f'.instrOk == (s.entersText || (!s.leavesText && f.instrOk))
    && if s.entersText || s.leavesText then
         f'.skipCsect == f.skipCsect && f'.skipIntel == f.skipIntel && f'.skipApp == f.skipApp
       else
         && f'.skipCsect == CsectAfter(c, f.skipCsect, s)
         && f'.skipIntel == (!s.att && (s.intel || f.skipIntel))
         && f'.skipApp == (!s.noApp && (s.app || f.skipApp))
  }

  lemma UpdatedDoes(c: Config, f: Flags, s: Shape, lucky: bool)
    ensures ModesAfter(c, f, s, Updated(c, f, s, lucky)) && Updated(c, f, s, lucky).start2end == f.start2end
  {
    hide AfterModes, AfterLabel, AfterJumpTable, Exempt, Updated, CsectAfter;
    var f1 := AfterJumpTable(c, f, s);
    JumpTableKeeps(c, f, s);
    if s.entersText || s.leavesText {
      SectionDoes(c, f, s, lucky);
    } else {
      UpdatedIs(c, f, s, lucky);
      ModesDo(c, f1, s);
      LabelKeepsModes(c, AfterModes(c, f1, s), s, lucky);
    }
  }

  /** Lines after which the bottom of the loop is not reached when `f` holds. */
  predicate Taken(c: Config, f: Flags, s: Shape) {
    s.start || s.end || (CallsWatched(c, f) && !s.call.NoCall?) || (ReturnsWatched(c, f) && s.ret)
  }

  lemma NextIs(c: Config, f: Flags, s: Shape, lucky: bool)
    requires Active(c)
    ensures var f1 := Ended(Started(AfterDeferred(c, f, s), s), s);
            Next(c, f, s, lucky) == (if s.start then Started(AfterDeferred(c, f, s), s)
                                     else if Taken(c, f1, s) then f1 else Updated(c, f1, s, lucky))
  {
    hide AfterDeferred, Started, Ended, Updated, CallsWatched, ReturnsWatched;
    if s.start {
    } else if s.end {
    }
  }

  /** The effect of a whole line. */
  lemma NextDoes(c: Config, f: Flags, s: Shape, lucky: bool)
    requires Active(c)
    ensures var f' := Next(c, f, s, lucky);
            && f'.start2end == (s.start || (!s.end && f.start2end))
            && (s.start || s.end ==> SameModes(f, f'))
            && (SameModes(f, f') || ModesAfter(c, f, s, f'))
            && (!s.start && !s.end && ((!s.ret && s.call.NoCall?) || f.skipIntel || f.skipApp) ==>
                  ModesAfter(c, f, s, f'))
  {
    hide Next, AfterDeferred, Started, Ended, Updated, Exempt, CsectAfter;
    var f0 := AfterDeferred(c, f, s);
    NextIs(c, f, s, lucky);
    DeferredKeeps(c, f, s);
    StartedKeeps(c, f0, s);
    EndedKeeps(c, Started(f0, s), s);
    UpdatedDoes(c, Ended(Started(f0, s), s), s, lucky);
  }
}
