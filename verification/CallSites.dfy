/** Calls as text: which are redirected, what is written for them, and where the automaton
    stands when it looks at them. */
module CallSites {
  import opened Instrumenter
  import opened FlagEffects
  import opened LineText
  import opened Consistency
  import opened Redirection
  import Names

  // ------------------------------------------------------------------ Calls as text

  /** Nothing, or a comment as compilers write it: a mark and text without another. */
  predicate CommentText(tail: string) {
    || tail == ""
    || (&& (StartsWith(tail, " # ") || StartsWith(tail, "\t#\t") || StartsWith(tail, " #\t") || StartsWith(tail, "\t# "))
        && '#' !in tail[2..])
  }

  /** A call of `name`, with a comment at most. */
  predicate CallText(text: string, name: string, tail: string) {
    && text == "\tcallq\t" + name + tail + "\n"
    && Names.Plain(name) && name != "" && name[0] != '*' && '#' !in name && CommentText(tail)
  }

  /** A call through the operand `op`, with a comment at most. */
  predicate IndirectText(text: string, op: string, tail: string) {
    text == "\tcallq\t*" + op + tail + "\n" && '#' !in op && CommentText(tail)
  }

  /** A mark is found where the comment begins, or not at all. */
  lemma CutAtComment(head: string, tail: string, mark: string)
    requires '#' !in head && CommentText(tail) && |mark| == 3 && mark[1] == '#'
    ensures Cut(head + tail, mark) == if StartsWith(tail, mark) then head else head + tail
  {
    FoundWithMark(head + tail, mark);
    FindsExactly(head + tail, mark);
    AtTail(head, tail, mark);
    if Contains(head + tail, mark) {
      OneHash(head, tail, Find(head + tail, mark) + 1);
    }
  }

  lemma AtTail(head: string, tail: string, mark: string)
    ensures PartAt(head + tail, |head|, mark) <==> StartsWith(tail, mark)
  {
    if |mark| <= |tail| {
      assert (head + tail)[|head|..|head| + |mark|] == tail[..|mark|];
    }
  }

  /** The only comment mark is the second character of the comment. */
  lemma OneHash(head: string, tail: string, q: nat)
    requires '#' !in head && CommentText(tail) && q < |head + tail| && (head + tail)[q] == '#'
    ensures q == |head| + 1
  {
    assert tail == "" || tail == tail[..2] + tail[2..];
  }

  /** The comment is cut off, whichever way it is marked. */
  lemma CommentIsCut(line: string, head: string, tail: string)
    requires line == head + tail + "\n" && '#' !in head && CommentText(tail)
    ensures WithoutComment(line) == head
  {
    hide Cut, CommentText;
    assert line[..|line| - 1] == head + tail;
    CutAtComment(head, tail, " # ");
    CutAtComment(head, tail, "\t#\t");
    CutAtComment(head, tail, " #\t");
    CutAtComment(head, tail, "\t# ");
    NothingToCut(head, " # ");
    NothingToCut(head, "\t#\t");
    NothingToCut(head, " #\t");
    NothingToCut(head, "\t# ");
    CommentCases(head, tail);
  }

  lemma NothingToCut(head: string, mark: string)
    requires '#' !in head && |mark| == 3 && mark[1] == '#'
    ensures Cut(head, mark) == head
  {
    FindsNoChar(head, mark, 1);
  }

  lemma CommentCases(head: string, tail: string)
    requires CommentText(tail)
    ensures || head + tail == head || StartsWith(tail, " # ") || StartsWith(tail, "\t#\t")
            || StartsWith(tail, " #\t") || StartsWith(tail, "\t# ")
  {
  }

  /** What the instrumenter reads off a direct call: the target with what follows it, and the
      call without its comment and its newline. Calls through the PLT and of __tls_get_addr are
      external. */
  lemma DirectCallRead(text: string, name: string, tail: string)
    requires CallText(text, name, tail)
    ensures ShapeOf(text).call
         == Named(name + tail + "\n", "\tcallq\t" + name, ShapeOf(text).call.Named? && ShapeOf(text).call.external)
    ensures ShapeOf(text).call.Named?
    ensures ShapeOf(text).call.external
       <==> HasPart(text, "@PLT") || HasPart(text, "@plt") || HasPart(text, "__tls_get_addr")
  {
    hide Contains, WithoutComment, HasPart, CommentText;
    assert text[..6] == "\tcallq" && text[6] == '\t' && text[7] == name[0] && text[7..] == name + tail + "\n";
    DiffersAt(text, "\tcallq\t*", 7);
    CommentIsCut(text, "\tcallq\t" + name, tail);
    FindsExactly(text, "@PLT");
    FindsExactly(text, "@plt");
    FindsExactly(text, "__tls_get_addr");
  }

  /** And off an indirect one: the operand. */
  lemma IndirectCallRead(text: string, op: string, tail: string)
    requires IndirectText(text, op, tail)
    ensures ShapeOf(text).call == Through(op)
  {
    hide Contains, WithoutComment, CommentText;
    var head := "\tcallq\t*" + op;
    assert text[..8] == "\tcallq\t*" && head[8..] == op;
    CommentIsCut(text, head, tail);
  }

  /** The target that is looked up is the name. */
  lemma TargetRead(name: string, tail: string)
    requires Names.Plain(name) && CommentText(tail)
    ensures Names.TargetName(name + tail + "\n") == name
  {
    var line := name + tail + "\n";
    assert line[..|name|] == name;
    if tail == "" {
      assert line[|name|] == '\n';
    } else {
      assert line[|name|] == tail[0];
    }
    Names.TargetIs(line, name);
  }

  // ------------------------------------------------------- Which calls are looked at

  /** Calls are redirected at all. */
  predicate Redirecting(c: Config) {
    c.redirect && !c.scheme.Buddy? && c.cmd64
  }

  /** Line `m` is 64-bit code of a procedure, in a text section and outside blocks. */
  ghost predicate InCode(lines: seq<Line>, m: nat)
    requires m <= |lines|
  {
    && ProcOpen(lines, m) && TextOpen(lines, m) && !IntelOpen(lines, m) && !AppOpen(lines, m)
    && !Code32Open(lines, m)
  }

  lemma WatchedByText(file: File, m: nat)
    requires file.Valid() && Active(file.c) && AsRead(file.lines) && MarkersApart(file.lines) && m < |file.lines|
    requires WidthsApart(file.lines, m)
    ensures CallsWatched(file.c, AfterDeferred(file.c, file.At(m), file.lines[m].shape))
       <==> Redirecting(file.c) && InCode(file.lines, m)
  {
    hide AsRead, MarkersApart, FlagsAt, ProcOpen, TextOpen, IntelOpen, AppOpen, Code32Open, TrampolineDue;
    StartsByText(file, m);
    SectionByText(file, m);
    SkippedBlocks(file, m);
    WidthByText(file, m);
    DeferredWatched(file.c, file.At(m), file.lines[m].shape);
  }

  lemma DeferredWatched(c: Config, f: Flags, s: Shape)
    ensures CallsWatched(c, AfterDeferred(c, f, s)) == CallsWatched(c, f)
  {
    hide TrampolineDue;
    if TrampolineDue(c, f, s) {
    }
  }

  lemma CallStartsNothing(text: string, rest: string)
    requires text == "\tcallq\t" + rest
    ensures !ShapeOf(text).start && !ShapeOf(text).end && !ShapeOf(text).ret
  {
    DiffersAt(text, "\t.cfi_startproc\n", 1);
    DiffersAt(text, "\t.cfi_endproc\n", 1);
    DiffersAt(text, "\tret\n", 1);
    DiffersAt(text, "\tretq\n", 1);
    hide StartsWith, CallOf, HasHash, Contains, IsTarget, EntersText, LeavesText, IsJumpTable;
  }

  /** A direct call, as text, is redirected if and only if it is code of a procedure, goes
      neither through the PLT nor to __tls_get_addr, is not taken for a library's, and the name
      that is called is in the list; what is redirected is the call without its comment. */
  lemma RedirectedByText(file: File, m: nat, name: string, tail: string, bare: string)
    requires file.Valid() && Active(file.c) && AsRead(file.lines) && MarkersApart(file.lines) && m < |file.lines|
    requires WidthsApart(file.lines, m) && CallText(file.lines[m].text, name, tail)
    ensures Has(file.Out(m), DirectCall(bare))
       <==> && Redirecting(file.c) && InCode(file.lines, m) && bare == "\tcallq\t" + name
            && !HasPart(file.lines[m].text, "@PLT") && !HasPart(file.lines[m].text, "@plt")
            && !HasPart(file.lines[m].text, "__tls_get_addr")
            && !IsTarget(name + tail + "\n", file.c.libraryFuncs) && name in file.c.protectedFuncs
  {
    hide Output, ShapeOf, HasPart, IsTarget, CommentText, CallsWatched, InCode, Redirecting, AfterDeferred;
    var text := file.lines[m].text;
    DirectCallRead(text, name, tail);
    TargetRead(name, tail);
    assert text == "\tcallq\t" + (name + tail + "\n");
    CallStartsNothing(text, name + tail + "\n");
    WatchedByText(file, m);
    RedirectedExactly(file.c, file.At(m), file.lines[m], file.luck[m], bare);
  }

  /** An indirect call, as text, is redirected if and only if it is code of a procedure. */
  lemma IndirectByText(file: File, m: nat, op: string, tail: string, operand: string)
    requires file.Valid() && Active(file.c) && AsRead(file.lines) && MarkersApart(file.lines) && m < |file.lines|
    requires WidthsApart(file.lines, m) && IndirectText(file.lines[m].text, op, tail)
    ensures Has(file.Out(m), IndirectCall(operand))
       <==> Redirecting(file.c) && InCode(file.lines, m) && operand == op
  {
    hide ShapeOf, CommentText, CallsWatched, InCode, Redirecting, AfterDeferred;
    var text := file.lines[m].text;
    IndirectCallRead(text, op, tail);
    assert text == "\tcallq\t" + ("*" + op + tail + "\n");
    CallStartsNothing(text, "*" + op + tail + "\n");
    WatchedByText(file, m);
    IndirectOutput(file.c, file.At(m), file.lines[m], file.luck[m], operand);
  }

  lemma IndirectOutput(c: Config, f: Flags, l: Line, lucky: bool, operand: string)
    requires Active(c) && !l.shape.start && !l.shape.end && l.shape.call.Through?
    ensures Has(Output(c, f, l, lucky), IndirectCall(operand))
       <==> CallsWatched(c, AfterDeferred(c, f, l.shape)) && l.shape.call.operand == operand
  {
    hide CallsWatched, ReturnsWatched;
    var f1 := AfterDeferred(c, f, l.shape);
    assert !Has(Deferred(c, f, l.shape), IndirectCall(operand));
    assert Ended(Started(f1, l.shape), l.shape) == f1;
    assert !Has(BranchNote(c, f1, l.shape, lucky), IndirectCall(operand));
  }
}
