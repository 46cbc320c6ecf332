/** The instrumenter treats each procedure as a whole: prologue and all returns, or neither. */
module Consistency {
  import opened Instrumenter
  import opened FlagEffects
  import opened LineText

  /** A file, how it is processed, and the throws of the dice. */
  datatype File = File(c: Config, lines: seq<Line>, luck: seq<bool>) {
    predicate Valid() {
      |luck| == |lines|
    }

    /** The flags before line `i`, starting from the cleared ones. */
    function At(i: nat): Flags
      requires Valid() && i <= |lines|
    {
      FlagsAt(c, CLEAR, lines, luck, i)
    }

    function Out(i: nat): seq<Chunk>
      requires Valid() && i < |lines|
    {
      OutputAt(c, CLEAR, lines, luck, i)
    }
  }

  /** The lines from .cfi_startproc at `i` to the next .cfi_endproc, at `j`. */
  predicate Procedure(lines: seq<Line>, i: nat, j: nat) {
    && i < j < |lines| && lines[i].shape.start && lines[j].shape.end
    && forall m :: i < m < j ==> !lines[m].shape.start && !lines[m].shape.end
  }

  /** Compilers put only dot-labels inside a procedure. */
  predicate DotLabelsOnly(lines: seq<Line>, i: nat, j: nat)
    requires j < |lines|
  {
    forall m :: i < m < j && lines[m].shape.hasColon && !lines[m].shape.tab && !lines[m].shape.skipped ==>
      lines[m].shape.dot
  }

  /** The procedure at `i` gets a prologue. */
  predicate Protected(file: File, i: nat)
    requires file.Valid() && i < |file.lines|
  {
    !Exempt(file.c, file.At(i))
  }

  // ------------------------------------------------------------- Inside a procedure

  /** Inside an Intel block or inline assembly, where returns are not looked at. */
  predicate Skips(f: Flags) {
    f.skipIntel || f.skipApp
  }

  /** The line is treated as the label of a function. */
  predicate Relabels(c: Config, f: Flags, s: Shape) {
    var f1 := AfterDeferred(c, f, s);
    && !(CallsWatched(c, f1) && !s.call.NoCall?) && !(ReturnsWatched(c, f1) && s.ret)
    && LabelSeen(c, f1, s)
  }

  /** A line written as it is has the form of a function's label. */
  predicate LabelSeen(c: Config, f: Flags, s: Shape) {
    && !s.entersText && !s.leavesText
    && !Ignored(AfterModes(c, AfterJumpTable(c, f, s), s), s) && !s.tab && s.hasColon && !s.dot
  }

  /** One line inside a procedure: only a label of a function changes the procedure's
      kind, to a protected one. */
  lemma BodyLine(c: Config, f: Flags, s: Shape, lucky: bool)
    requires Active(c) && f.start2end && !s.start && !s.end
    ensures Next(c, f, s, lucky).start2end
    ensures Exempt(c, Next(c, f, s, lucky)) <==> Exempt(c, f) && !Relabels(c, f, s)
  {
    hide Updated, LabelSeen;
    var f1 := AfterDeferred(c, f, s);
    assert Started(f1, s) == f1 && Ended(f1, s) == f1;
    if !((CallsWatched(c, f1) && !s.call.NoCall?) || (ReturnsWatched(c, f1) && s.ret)) {
      UpdateKeeps(c, f1, s, lucky);
    }
  }

  lemma UpdateKeeps(c: Config, f: Flags, s: Shape, lucky: bool)
    requires f.start2end
    ensures Updated(c, f, s, lucky).start2end
    ensures Exempt(c, Updated(c, f, s, lucky)) <==> Exempt(c, f) && !LabelSeen(c, f, s)
  {
    hide AfterModes, AfterLabel, AfterJumpTable, Ignored, Updated, Exempt;
    var f1 := AfterJumpTable(c, f, s);
    JumpTableKeeps(c, f, s);
    if s.entersText || s.leavesText {
      SectionDoes(c, f, s, lucky);
    } else {
      UpdatedIs(c, f, s, lucky);
      ModesDo(c, f1, s);
      LabelKeeps(c, AfterModes(c, f1, s), s, lucky);
    }
  }

  lemma LabelKeeps(c: Config, f: Flags, s: Shape, lucky: bool)
    requires f.start2end
    ensures AfterLabel(c, f, s, lucky).start2end
    ensures Exempt(c, AfterLabel(c, f, s, lucky))
       <==> Exempt(c, f) && !(!Ignored(f, s) && !s.tab && s.hasColon && !s.dot)
  {
    hide AfterLabel, AfterDotLabel, AfterFunctionLabel, Ignored, Counted, Exempt;
    LabelCases(c, f, s, lucky);
    DotLabelKeeps(c, f, s, lucky);
    FunctionLabelDoes(c, f, s);
    CountedKeeps(c, f);
  }

  lemma FirstLine(c: Config, f: Flags, s: Shape, lucky: bool)
    requires Active(c) && s.start
    ensures Next(c, f, s, lucky).start2end && Exempt(c, Next(c, f, s, lucky)) == Exempt(c, f)
  {
  }

  /** Line `a` of the file is treated as the label of a function. */
  predicate RelabelAt(file: File, a: nat)
    requires file.Valid() && a < |file.lines|
  {
    Relabels(file.c, file.At(a), file.lines[a].shape)
  }

  predicate NoRelabel(file: File, i: nat, m: nat)
    requires file.Valid() && m <= |file.lines|
  {
    forall a :: i < a < m ==> !RelabelAt(file, a)
  }

  /** Throughout a procedure: exempt as at its start unless a label of a function came by. */
  lemma {:induction false} InProcedure(file: File, i: nat, j: nat, m: nat)
    requires file.Valid() && Active(file.c) && Procedure(file.lines, i, j) && i < m <= j
    ensures file.At(m).start2end
    ensures Exempt(file.c, file.At(m)) <==> Exempt(file.c, file.At(i)) && NoRelabel(file, i, m)
  {
    hide Next, Exempt, Relabels;
    var s, lucky := file.lines[m - 1].shape, file.luck[m - 1];
    assert file.At(m) == Next(file.c, file.At(m - 1), s, lucky);
    if m == i + 1 {
      FirstLine(file.c, file.At(i), s, lucky);
    } else {
      InProcedure(file, i, j, m - 1);
      BodyLine(file.c, file.At(m - 1), s, lucky);
      assert NoRelabel(file, i, m) <==> NoRelabel(file, i, m - 1) && !RelabelAt(file, m - 1);
    }
  }

  // ------------------------------------------------------------------- The outputs

  predicate Has(out: seq<Chunk>, k: Chunk) {
    k in out
  }

  lemma EntryOutput(c: Config, f: Flags, l: Line, lucky: bool)
    requires Active(c) && l.shape.start
    ensures Has(Output(c, f, l, lucky), Prologue) <==> !Exempt(c, f)
    ensures !Has(Output(c, f, l, lucky), Epilogue)
  {
  }

  /** A return inside a procedure. */
  lemma ReturnLine(c: Config, f: Flags, l: Line, lucky: bool)
    requires Active(c) && f.start2end && !l.shape.start && !l.shape.end && l.shape.ret && l.shape.call.NoCall?
    ensures var out := Output(c, f, l, lucky);
            && !Has(out, Prologue) && (Has(out, Epilogue) <==> !Skips(f) && !Exempt(c, f))
            && (Has(out, Text(l.text)) <==> !Has(out, Epilogue))
  {
  }

  lemma OtherLine(c: Config, f: Flags, l: Line, lucky: bool)
    requires Active(c) && !l.shape.start && !l.shape.ret
    ensures !Has(Output(c, f, l, lucky), Prologue) && !Has(Output(c, f, l, lucky), Epilogue)
  {
  }

  /** A return that the instrumenter does not recognise. */
  lemma OtherReturnLine(c: Config, f: Flags, l: Line, lucky: bool)
    requires Active(c) && !l.shape.start && !l.shape.end && !l.shape.ret && l.shape.call.NoCall?
    ensures Has(Output(c, f, l, lucky), Text(l.text)) && !Has(Output(c, f, l, lucky), Epilogue)
  {
  }

  /** Some return of the procedure was replaced; some return was left. */
  predicate Replaced(file: File, m: nat)
    requires file.Valid() && m < |file.lines|
  {
    IsReturn(file.lines[m].text) && Has(file.Out(m), Epilogue)
  }

  predicate Left(file: File, m: nat)
    requires file.Valid() && m < |file.lines|
  {
    IsReturn(file.lines[m].text) && Has(file.Out(m), Text(file.lines[m].text))
  }

  /** The prologue is there and every return is replaced. */
  predicate FullyProtected(file: File, i: nat, j: nat)
    requires file.Valid() && j < |file.lines|
  {
    && i < j && Has(file.Out(i), Prologue)
    && forall m :: i < m < j && IsReturn(file.lines[m].text) ==> Replaced(file, m) && !Left(file, m)
  }

  /** No prologue, and every return is left as it was. */
  predicate Untouched(file: File, i: nat, j: nat)
    requires file.Valid() && j < |file.lines|
  {
    && i < j && !Has(file.Out(i), Prologue)
    && forall m :: i < m < j && IsReturn(file.lines[m].text) ==> Left(file, m) && !Replaced(file, m)
  }

  lemma RecognisedIsReturn(lines: seq<Line>, m: nat)
    requires AsRead(lines) && m < |lines| && lines[m].shape.ret
    ensures PlainReturn(lines[m].text) && IsReturn(lines[m].text)
  {
    RecognisedExactly(lines[m].text);
    PlainIsReturn(lines[m].text);
  }

  lemma ReturnAt(file: File, i: nat, j: nat, m: nat)
    requires file.Valid() && Active(file.c) && Procedure(file.lines, i, j) && i < m < j
    requires AsRead(file.lines) && IsReturn(file.lines[m].text)
    ensures Replaced(file, m) <==> Seen(file, m) && (Protected(file, i) || !NoRelabel(file, i, m))
    ensures Left(file, m) <==> !Replaced(file, m)
  {
    hide IsReturn, ShapeOf, Output, Exempt, Skips, NoRelabel, PlainReturn;
    var l := file.lines[m];
    InProcedure(file, i, j, m);
    ReturnIsNoCall(l.text);
    RecognisedExactly(l.text);
    if l.shape.ret {
      ReturnLine(file.c, file.At(m), l, file.luck[m]);
    } else {
      OtherReturnLine(file.c, file.At(m), l, file.luck[m]);
    }
  }

  /** The return at `m` is looked at: plainly written, and outside blocks. */
  predicate Seen(file: File, m: nat)
    requires file.Valid() && m < |file.lines|
  {
    PlainReturn(file.lines[m].text) && !Skips(file.At(m))
  }

  /** A procedure gets a prologue unless it is exempt, and then all its returns are replaced if
      and only if they are plainly written and none stands in an Intel block or in inline assembly. */
  lemma ProtectedMeansAll(file: File, i: nat, j: nat)
    requires file.Valid() && Active(file.c) && Procedure(file.lines, i, j) && AsRead(file.lines)
    ensures Has(file.Out(i), Prologue) <==> Protected(file, i)
    ensures FullyProtected(file, i, j)
       <==> Protected(file, i) && forall m :: i < m < j && IsReturn(file.lines[m].text) ==> Seen(file, m)
  {
    hide Output, Exempt, Seen, IsReturn, AsRead;
    EntryOutput(file.c, file.At(i), file.lines[i], file.luck[i]);
    forall m | i < m < j && IsReturn(file.lines[m].text)
      ensures Protected(file, i) ==> (Replaced(file, m) && !Left(file, m) <==> Seen(file, m))
    {
      ReturnAt(file, i, j, m);
    }
  }

  /** An exempt procedure is left alone altogether if and only if none of its returns that
      are looked at comes after a label of a function inside it. */
  lemma UnprotectedMeansNone(file: File, i: nat, j: nat)
    requires file.Valid() && Active(file.c) && Procedure(file.lines, i, j) && AsRead(file.lines)
    requires !Protected(file, i)
    ensures Untouched(file, i, j)
       <==> forall m :: i < m < j && IsReturn(file.lines[m].text) && Seen(file, m) ==> NoRelabel(file, i, m)
  {
    hide Output, Exempt, Seen, IsReturn, AsRead;
    EntryOutput(file.c, file.At(i), file.lines[i], file.luck[i]);
    forall m | i < m < j && IsReturn(file.lines[m].text)
      ensures Left(file, m) && !Replaced(file, m) <==> !Seen(file, m) || NoRelabel(file, i, m)
    {
      ReturnAt(file, i, j, m);
    }
  }

  /** With dot-labels only, no line inside the procedure is taken for a function's label. */
  lemma DotLabelsNeverRelabel(file: File, i: nat, j: nat, a: nat)
    requires file.Valid() && j < |file.lines| && DotLabelsOnly(file.lines, i, j) && i < a < j
    ensures !RelabelAt(file, a)
  {
  }

  /** Whatever flags earlier functions left behind: a procedure with dot-labels only is treated
      as a whole if and only if it is exempt, or all its returns are looked at. */
  lemma ConsistentExactly(file: File, i: nat, j: nat)
    requires file.Valid() && Active(file.c) && AsRead(file.lines)
    requires Procedure(file.lines, i, j) && DotLabelsOnly(file.lines, i, j)
    ensures !Protected(file, i) ==> Untouched(file, i, j)
    ensures FullyProtected(file, i, j) || Untouched(file, i, j)
       <==> !Protected(file, i) || forall m :: i < m < j && IsReturn(file.lines[m].text) ==> Seen(file, m)
  {
    hide Output, Exempt, Seen, IsReturn, AsRead, RelabelAt, Replaced, Left;
    ProtectedMeansAll(file, i, j);
    if !Protected(file, i) {
      forall a | i < a < j
        ensures !RelabelAt(file, a)
      {
        DotLabelsNeverRelabel(file, i, j, a);
      }
      UnprotectedMeansNone(file, i, j);
    }
  }

  // ------------------------------------------------------------ Blocks, in the text

  /** Lines after which the bottom of the loop is not reached. */
  predicate Passed(s: Shape) {
    s.start || s.end || s.entersText || s.leavesText
  }

  /** An Intel block begun before line `m` has not been closed. */
  predicate IntelOpen(lines: seq<Line>, m: nat)
    requires m <= |lines|
  {
    && m > 0
    && var s := lines[m - 1].shape;
       !(s.att && !Passed(s)) && (s.intel || IntelOpen(lines, m - 1))
  }

  /** Inline assembly begun before line `m` has not ended. */
  predicate AppOpen(lines: seq<Line>, m: nat)
    requires m <= |lines|
  {
    && m > 0
    && var s := lines[m - 1].shape;
       !(s.noApp && !Passed(s)) && (s.app || AppOpen(lines, m - 1))
  }

  /** Every return of the procedure is plainly written, and every block closed before it. */
  predicate ReturnsPlain(lines: seq<Line>, i: nat, j: nat)
    requires j <= |lines|
  {
    forall m :: i < m < j && IsReturn(lines[m].text) ==>
      PlainReturn(lines[m].text) && !IntelOpen(lines, m) && !AppOpen(lines, m)
  }

  /** A line that is looked at as a call or a return opens nothing; any other line opens
      and closes what it says. */
  lemma SkipsAfter(c: Config, f: Flags, s: Shape, lucky: bool)
    requires Active(c)
    ensures var f' := Next(c, f, s, lucky);
            && (f'.skipIntel ==> !(s.att && !Passed(s)) && (s.intel || f.skipIntel))
            && (f'.skipApp ==> !(s.noApp && !Passed(s)) && (s.app || f.skipApp))
            && (!Passed(s) && !s.ret && s.call.NoCall? ==>
                  && f'.skipIntel == (!s.att && (s.intel || f.skipIntel))
                  && f'.skipApp == (!s.noApp && (s.app || f.skipApp)))
            && (Passed(s) || Unmarked(s) ==> f'.skipIntel == f.skipIntel && f'.skipApp == f.skipApp)
  {
    hide Next, CsectAfter;
    NextDoes(c, f, s, lucky);
  }

  /** Neither opens nor closes a block. */
  predicate Unmarked(s: Shape) {
    !s.intel && !s.att && !s.app && !s.noApp
  }

  /** Directives that open or close blocks stand on lines of their own. */
  predicate MarkersApart(lines: seq<Line>) {
    forall m :: 0 <= m < |lines| && !Unmarked(lines[m].shape) ==>
      !Passed(lines[m].shape) && !lines[m].shape.ret && lines[m].shape.call.NoCall?
  }

  /** Outside the blocks of the text nothing is skipped; if the directives stand on lines of
      their own, inside them everything is. */
  lemma {:induction false} SkippedBlocks(file: File, m: nat)
    requires file.Valid() && Active(file.c) && m <= |file.lines|
    ensures file.At(m).skipIntel ==> IntelOpen(file.lines, m)
    ensures file.At(m).skipApp ==> AppOpen(file.lines, m)
    ensures MarkersApart(file.lines) ==> file.At(m).skipIntel == IntelOpen(file.lines, m)
    ensures MarkersApart(file.lines) ==> file.At(m).skipApp == AppOpen(file.lines, m)
  {
    hide Next;
    if m > 0 {
      SkippedBlocks(file, m - 1);
      SkipsAfter(file.c, file.At(m - 1), file.lines[m - 1].shape, file.luck[m - 1]);
    }
  }

  /** Consistency: in code shaped as compilers shape it, every procedure is either fully
      protected or untouched, whatever flags the earlier functions left behind. */
  lemma ProceduresAreConsistent(file: File, i: nat, j: nat)
    requires file.Valid() && Active(file.c) && AsRead(file.lines)
    requires Procedure(file.lines, i, j) && DotLabelsOnly(file.lines, i, j) && ReturnsPlain(file.lines, i, j)
    ensures FullyProtected(file, i, j) || Untouched(file, i, j)
    ensures FullyProtected(file, i, j) <==> Protected(file, i)
  {
    hide AsRead, Seen, IsReturn;
    ReturnsSeen(file, i, j);
    hide FullyProtected, Untouched, Protected;
    ConsistentExactly(file, i, j);
    ProtectedMeansAll(file, i, j);
  }

  lemma ReturnsSeen(file: File, i: nat, j: nat)
    requires file.Valid() && Active(file.c) && j < |file.lines| && ReturnsPlain(file.lines, i, j)
    ensures forall m :: i < m < j && IsReturn(file.lines[m].text) ==> Seen(file, m)
  {
    hide IntelOpen, AppOpen, IsReturn, PlainReturn;
    forall m | i < m < j && IsReturn(file.lines[m].text)
      ensures Seen(file, m)
    {
      SkippedBlocks(file, m);
    }
  }

  /** Exactly so, when the directives stand on lines of their own. */
  lemma ConsistentByText(file: File, i: nat, j: nat)
    requires file.Valid() && Active(file.c) && AsRead(file.lines) && MarkersApart(file.lines)
    requires Procedure(file.lines, i, j) && DotLabelsOnly(file.lines, i, j)
    ensures FullyProtected(file, i, j) || Untouched(file, i, j)
       <==> !Protected(file, i) || ReturnsPlain(file.lines, i, j)
  {
    hide FullyProtected, Untouched, Protected, MarkersApart, IntelOpen, AppOpen, DotLabelsOnly;
    hide AsRead, IsReturn, PlainReturn;
    ConsistentExactly(file, i, j);
    forall m | i < m < j
      ensures Skips(file.At(m)) <==> IntelOpen(file.lines, m) || AppOpen(file.lines, m)
    {
      SkippedBlocks(file, m);
    }
  }

  // ---------------------------------------------------------------- Nothing is lost

  predicate Carries(k: Chunk) {
    k.Text? || k.Epilogue? || k.DirectCall? || k.IndirectCall?
  }

  /** The chunks that stand for a line of the input; the others are additions. */
  function Carriers(out: seq<Chunk>): seq<Chunk> {
    if out == [] then [] else (if Carries(out[0]) then [out[0]] else []) + Carriers(out[1..])
  }

  lemma {:induction false} CarriersSplit(a: seq<Chunk>, b: seq<Chunk>)
    ensures Carriers(a + b) == Carriers(a) + Carriers(b)
  {
    hide Carries;
    if a == [] {
      assert a + b == b;
    } else {
      assert (a + b)[1..] == a[1..] + b;
      CarriersSplit(a[1..], b);
    }
  }

  /** What stands for a line: itself, unless it is a return or a call. */
  predicate Stands(l: Line, k: Chunk) {
    || k == Text(l.text)
    || (l.shape.ret && k == Epilogue)
    || (l.shape.call.Named? && k == DirectCall(l.shape.call.bare))
    || (l.shape.call.Through? && k == IndirectCall(l.shape.call.operand))
  }

  lemma AdditionsCarryNothing(c: Config, f: Flags, s: Shape, lucky: bool)
    ensures Carriers(Deferred(c, f, s)) == [] && Carriers(Entry(c, f)) == []
    ensures Carriers(BranchNote(c, f, s, lucky)) == []
  {
    var d := Deferred(c, f, s);
    assert d == [] || d == [Note("trampoline")] || d == [Note("trampoline")] + [Note("main")];
    CarriersSplit([Note("trampoline")], [Note("main")]);
  }

  /** Every line of the input is written once: as it was, or, if a return or a call, as
      its instrumented form. */
  lemma EachLineOnce(c: Config, f: Flags, l: Line, lucky: bool)
    ensures |Carriers(Output(c, f, l, lucky))| == 1 && Stands(l, Carriers(Output(c, f, l, lucky))[0])
  {
    var f1 := Started(AfterDeferred(c, f, l.shape), l.shape);
    AdditionsCarryNothing(c, f, l.shape, lucky);
    if Opens(c, l.shape) {
      AdditionsCarryNothing(c, f1, l.shape, lucky);
      CarriersSplit([Text(l.text)], Entry(c, f1));
      CarriersSplit(Deferred(c, f, l.shape), [Text(l.text)] + Entry(c, f1));
    } else if l.shape.end && !c.passThru {
      CarriersSplit(Deferred(c, f, l.shape), [Text(l.text)]);
    } else {
      BodyOnce(c, Ended(f1, l.shape), l, lucky);
      CarriersSplit(Deferred(c, f, l.shape), BodyOutput(c, Ended(f1, l.shape), l, lucky));
    }
  }

  lemma BodyOnce(c: Config, f: Flags, l: Line, lucky: bool)
    ensures |Carriers(BodyOutput(c, f, l, lucky))| == 1 && Stands(l, Carriers(BodyOutput(c, f, l, lucky))[0])
  {
    AdditionsCarryNothing(c, f, l.shape, lucky);
    CarriersSplit([Text(l.text)], if c.passThru then [] else BranchNote(c, f, l.shape, lucky));
  }

  /** So the carriers of a whole file are its lines, in order. */
  lemma {:induction false} LinesInOrder(c: Config, f: Flags, lines: seq<Line>, luck: seq<bool>, n: nat)
    requires n <= |lines| == |luck|
    ensures StandInOrder(lines, OutputTo(c, f, lines, luck, n), n)
    decreases n
  {
    hide Output;
    if n > 0 {
      LinesInOrder(c, f, lines, luck, n - 1);
      EachLineOnce(c, FlagsAt(c, f, lines, luck, n - 1), lines[n - 1], luck[n - 1]);
      OneMoreStands(lines, OutputTo(c, f, lines, luck, n - 1), OutputAt(c, f, lines, luck, n - 1), n - 1);
    }
  }

  /** The carriers of `out` stand for the first `n` lines. */
  predicate StandInOrder(lines: seq<Line>, out: seq<Chunk>, n: nat)
    requires n <= |lines|
  {
    |Carriers(out)| == n && forall i :: 0 <= i < n ==> Stands(lines[i], Carriers(out)[i])
  }

  lemma OneMoreStands(lines: seq<Line>, out: seq<Chunk>, more: seq<Chunk>, n: nat)
    requires n < |lines| && StandInOrder(lines, out, n)
    requires |Carriers(more)| == 1 && Stands(lines[n], Carriers(more)[0])
    ensures StandInOrder(lines, out + more, n + 1)
  {
    CarriersSplit(out, more);
  }

  /** In pass-through mode a line is written as it is, and nothing else. */
  lemma PassedThrough(c: Config, f: Flags, l: Line, lucky: bool)
    requires c.passThru
    ensures Output(c, f, l, lucky) == [Text(l.text)]
  {
  }

  // ------------------------------------------------------------- Shapes of lines

  lemma StepAt(file: File, i: nat)
    requires file.Valid() && i < |file.lines|
    ensures file.At(i + 1) == Next(file.c, file.At(i), file.lines[i].shape, file.luck[i]) && file.At(0) == CLEAR
  {
  }

  /** The shapes of: a text directive, a label of the C library's, .cfi_startproc, another
      label, a return and .cfi_endproc. */
  predicate TextLike(s: Shape) {
    s.entersText && !s.start && !s.end && !s.ret && s.call.NoCall?
  }

  predicate LabelLike(s: Shape) {
    && !s.start && !s.end && !s.ret && s.call.NoCall? && !s.instruction && !s.entersText && !s.leavesText
    && !s.jumpTable && !s.code32 && !s.code64 && !s.intel && !s.att && !s.app && !s.noApp
    && !s.tab && !s.skipped && s.hasColon && !s.dot
  }

  predicate ReturnLike(s: Shape) {
    s.ret && !s.start && !s.end && !s.intel && !s.app
  }

  /** In the text section, nothing skipped. */
  predicate InText(f: Flags) {
    f.instrOk && !f.skipCsect && !f.skipIntel && !f.skipApp
  }
}
