/** add_instrumentation (afl-as.c): a line-driven automaton that inserts prologues, replaces
    returns and can redirect calls past the prologue. */
module Instrumenter {
  import Names

  // ---------------------------------------------------------------- Text matching

  predicate StartsWith(line: string, prefix: string) {
    |prefix| <= |line| && line[..|prefix|] == prefix
  }

  /** strstr: the first position of `part`, or |line| when there is none. */
  function Find(line: string, part: string): (p: nat)
    ensures p <= |line|
  {
    if StartsWith(line, part) || line == "" then 0 else 1 + Find(line[1..], part)
  }

  predicate Contains(line: string, part: string) {
    Find(line, part) < |line|
  }

  /** The character at a position; NUL past the end. */
  function CharAt(line: string, i: nat): char {
    if i < |line| then line[i] else '\0'
  }

  predicate IsDigit(c: char) {
    '0' <= c <= '9'
  }

  predicate IsAlpha(c: char) {
    'a' <= c <= 'z' || 'A' <= c <= 'Z'
  }

  /** is_target_func. */
  predicate IsTarget(line: string, funcs: seq<string>) {
    exists i :: 0 <= i < |funcs| && StartsWith(line, funcs[i])
  }

  function Cut(line: string, part: string): string {
    line[..Find(line, part)]
  }

  /** The write-mask notation that only clang accepts. */
  function Squeezed(line: string): string {
    if Contains(line, "} {z}\n") then line[..Find(line, "} {z}\n")] + "}{z}\n" else line
  }

  /** A call without its newline and its comment. */
  function WithoutComment(line: string): string {
    var bare := if line == "" then "" else line[..|line| - 1];
    Cut(Cut(Cut(Cut(bare, " # "), "\t#\t"), " #\t"), "\t# ")
  }

  // --------------------------------------------------------- What a line looks like

  datatype Call =
    | NoCall
    /** Through a register or memory operand. */
    | Through(operand: string)
    /** By name: what follows the mnemonic, the call without its comment, and whether the
        name goes through the PLT or is __tls_get_addr. */
    | Named(target: string, bare: string, external: bool)

  /** The tests that add_instrumentation makes on a line's text. */
  datatype Shape = Shape(
    start: bool, end: bool, ret: bool, call: Call, instruction: bool,
    entersText: bool, leavesText: bool, jumpTable: bool,
    code32: bool, code64: bool, intel: bool, att: bool, app: bool, noApp: bool,
    tab: bool, skipped: bool, branch: bool, hasColon: bool, dot: bool, numbered: bool, lbb: bool,
    main: bool, customized: bool, noInstr: bool, handler: bool)

  datatype Line = Line(text: string, shape: Shape)

  const CUSTOMIZED: seq<string> :=
    ["malloc:", "free:", "malloc_usable_size:", "pvalloc:", "valloc:",
     "calloc:", "realloc:", "aligned_alloc:", "memalign:", "posix_memalign:"]
  const NO_INSTR: seq<string> := ["flash.stack.no_instr_funcs.place.holder:"]
  const HANDLERS: seq<string> :=
    ["_ZL15WasmTrapHandleriP9siginfo_tPv:", "_Z15WasmTrapHandleriP9siginfo_tPv:", "spa_demo_blackbox_handler:"]

  function After(line: string, n: nat): string {
    if n <= |line| then line[n..] else ""
  }

  function CallOf(line: string): Call {
    if StartsWith(line, "\tcallq\t*") then Through(After(WithoutComment(line), 8))
    else if StartsWith(line, "\tcallq") && CharAt(line, 6) != '*' then
      Named(After(line, 7), WithoutComment(line),
            Contains(line, "@PLT") || Contains(line, "@plt") || Contains(line, "__tls_get_addr"))
    else NoCall
  }

  predicate IsDirective(line: string) {
    CharAt(line, 0) == '\t' && CharAt(line, 1) == '.'
  }

  predicate EntersText(line: string) {
    var d := After(line, 2);
    && IsDirective(line)
    && (StartsWith(d, "text\n") || StartsWith(d, "section\t.text")
        || StartsWith(d, "section\t__TEXT,__text") || StartsWith(d, "section __TEXT,__text"))
  }

  predicate LeavesText(line: string) {
    var d := After(line, 2);
    && IsDirective(line)
    && (StartsWith(d, "section\t") || StartsWith(d, "section ") || StartsWith(d, "bss\n") || StartsWith(d, "data\n"))
  }

  /** The alignment that precedes an inline jump table. */
  predicate IsJumpTable(line: string) {
    IsDirective(line) && StartsWith(After(line, 2), "p2align ") && IsDigit(CharAt(line, 10)) && CharAt(line, 11) == '\n'
  }

  predicate HasHash(line: string) {
    CharAt(line, 0) == '#' || CharAt(line, 1) == '#'
  }

  function ShapeOf(line: string): Shape {
    Shape(
      StartsWith(line, "\t.cfi_startproc\n"), StartsWith(line, "\t.cfi_endproc\n"),
      StartsWith(line, "\tret\n") || StartsWith(line, "\tretq\n"), CallOf(line),
      CharAt(line, 0) == '\t' && IsAlpha(CharAt(line, 1)),
      EntersText(line), LeavesText(line), IsJumpTable(line),
      Contains(line, ".code") && Contains(line, ".code32"), Contains(line, ".code") && Contains(line, ".code64"),
      Contains(line, ".intel_syntax"), Contains(line, ".att_syntax"),
      HasHash(line) && Contains(line, "#APP"), HasHash(line) && Contains(line, "#NO_APP"),
      CharAt(line, 0) == '\t', CharAt(line, 0) == '#' || CharAt(line, 0) == ' ',
      CharAt(line, 0) == '\t' && CharAt(line, 1) == 'j' && CharAt(line, 2) != 'm',
      Contains(line, ":"), CharAt(line, 0) == '.', IsDigit(CharAt(line, 2)), StartsWith(After(line, 1), "LBB"),
      StartsWith(line, "main:"), IsTarget(line, CUSTOMIZED), IsTarget(line, NO_INSTR), IsTarget(line, HANDLERS))
  }

  /** A line as read: the write mask is rewritten first. */
  function Parsed(raw: string): Line {
    Line(Squeezed(raw), ShapeOf(Squeezed(raw)))
  }

  function ParsedAll(raws: seq<string>): (lines: seq<Line>)
    ensures |lines| == |raws|
  {
    seq(|raws|, i requires 0 <= i < |raws| => Parsed(raws[i]))
  }

  // -------------------------------------------------------------- Configuration

  datatype Scheme = GsRsp | FsGs | Buddy

  /** How the assembler was invoked and compiled: `redirect` is ENABLE_GS_RSP_CALL_INSTRUMENTED. */
  datatype Config = Config(
    passThru: bool, use64: bool, clang: bool, cmd64: bool, redirect: bool, scheme: Scheme,
    libraryFuncs: seq<string>, protectedFuncs: seq<string>)

  /** The variables that add_instrumentation carries from line to line. */
  datatype Flags = Flags(
    instrOk: bool, skipCsect: bool, skipNextLabel: bool, inMain: bool, isMainExe: bool,
    skipIntel: bool, skipApp: bool, instrumentNext: bool, start2end: bool,
    onStackHandler: bool, inCustomized: bool, inNoInstr: bool,
    insLines: nat, nStart: nat, nEnd: nat)

  const CLEAR: Flags :=
    Flags(false, false, false, false, false, false, false, false, false, false, false, false, 0, 0, 0)

  /** What is written for a line. */
  datatype Chunk =
    | Text(line: string)
    | Note(text: string)
    | Prologue
    | Epilogue
    /** The calls of init_main_shadow_stack and of unsw_inc_asm_js_crash_cnt. */
    | InitCall
    | HandlerCall
    /** A call that enters past the prologue. */
    | DirectCall(bare: string)
    | IndirectCall(operand: string)

  // ------------------------------------------------------------ One line, in parts

  /** The trampoline that was put off is only a comment in the output. */
  predicate TrampolineDue(c: Config, f: Flags, s: Shape) {
    && !c.passThru && !f.skipIntel && !f.skipApp && !f.skipCsect && f.instrOk && f.instrumentNext && s.instruction
  }

  function Deferred(c: Config, f: Flags, s: Shape): seq<Chunk> {
    if TrampolineDue(c, f, s) then
      [Note("trampoline")] + (if f.inMain && c.use64 then [Note("main")] else [])
    else []
  }

  function AfterDeferred(c: Config, f: Flags, s: Shape): Flags {
    if TrampolineDue(c, f, s) then f.(instrumentNext := false, insLines := f.insLines + 1) else f
  }

  /** In the schemes that need initialisation first, functions of these kinds are not protected. */
  predicate Exempt(c: Config, f: Flags) {
    !c.scheme.Buddy? && (f.inNoInstr || f.onStackHandler || f.inCustomized)
  }

  /** What follows .cfi_startproc. */
  function Entry(c: Config, f: Flags): seq<Chunk> {
    if !Exempt(c, f) then [Prologue]
    else if f.inNoInstr then []
    else if f.onStackHandler then [HandlerCall]
    else [InitCall]
  }

  /** Whether calls are looked at. */
  predicate CallsWatched(c: Config, f: Flags) {
    && c.redirect && !c.scheme.Buddy? && !c.passThru && !f.skipIntel && !f.skipApp && !f.skipCsect && f.instrOk
    && c.use64 && f.start2end && c.cmd64
  }

  function CallOutput(c: Config, l: Line): Chunk {
    match l.shape.call
    case Through(operand) => IndirectCall(operand)
    case Named(target, bare, external) =>
      if external || IsTarget(target, c.libraryFuncs) || Names.TargetName(target) !in c.protectedFuncs
      then Text(l.text)
      else DirectCall(bare)
    case NoCall => Text(l.text)
  }

  /** Whether returns are looked at. */
  predicate ReturnsWatched(c: Config, f: Flags) {
    !c.passThru && !f.skipIntel && !f.skipApp && c.use64 && f.start2end
  }

  function ReturnOutput(c: Config, f: Flags, l: Line): Chunk {
    if Exempt(c, f) then Text(l.text) else Epilogue
  }

  // ----------------------------------------------------------- The flag updates

  predicate CsectAfter(c: Config, skipCsect: bool, s: Shape) {
    if s.code64 then !c.use64 else if s.code32 then c.use64 else skipCsect
  }

  /** Code width, syntax and inline assembly. */
  function AfterModes(c: Config, f: Flags, s: Shape): Flags {
    f.(skipCsect := CsectAfter(c, f.skipCsect, s),
       skipIntel := !s.att && (s.intel || f.skipIntel),
       skipApp := !s.noApp && (s.app || f.skipApp))
  }

  /** Lines that cannot be labels or branches worth looking at. */
  predicate Ignored(f: Flags, s: Shape) {
    f.skipIntel || f.skipApp || f.skipCsect || !f.instrOk || s.skipped
  }

  /** A dot-label that may be a branch target: the trampoline is due unless a jump table follows. */
  function AfterDotLabel(c: Config, f: Flags, s: Shape, lucky: bool): Flags {
    if (s.numbered || (c.clang && s.lbb)) && lucky then
      f.(instrumentNext := f.instrumentNext || !f.skipNextLabel, skipNextLabel := false)
    else f
  }

  /** A label of a function, or a non-dot label inside one. */
  function AfterFunctionLabel(f: Flags, s: Shape): Flags {
    var outside := !f.start2end;
    f.(instrumentNext := true, inMain := s.main && outside, isMainExe := f.isMainExe || (s.main && outside),
       inCustomized := s.customized && outside, inNoInstr := s.noInstr && outside,
       onStackHandler := s.handler && outside)
  }

  /** One more trampoline. */
  function Counted(f: Flags): Flags {
    f.(insLines := f.insLines + 1)
  }

  function AfterLabel(c: Config, f: Flags, s: Shape, lucky: bool): Flags {
    if Ignored(f, s) then f
    else if s.tab then (if s.branch && lucky then Counted(f) else f)
    else if !s.hasColon then f
    else if s.dot then AfterDotLabel(c, f, s, lucky)
    else AfterFunctionLabel(f, s)
  }

  lemma LabelCases(c: Config, f: Flags, s: Shape, lucky: bool)
    ensures AfterLabel(c, f, s, lucky)
         == if Ignored(f, s) || (!s.tab && !s.hasColon) || (s.tab && !(s.branch && lucky)) then f
            else if s.tab then Counted(f)
            else if s.dot then AfterDotLabel(c, f, s, lucky)
            else AfterFunctionLabel(f, s)
  {
    hide Ignored, AfterDotLabel, AfterFunctionLabel, Counted;
    if Ignored(f, s) {
    } else if s.tab {
    } else if s.hasColon {
    }
  }

  function AfterJumpTable(c: Config, f: Flags, s: Shape): Flags {
    if s.jumpTable && !c.clang && f.instrOk then f.(skipNextLabel := true) else f
  }

  /** What the bottom of the loop does with a line that was written as it is. */
  function Updated(c: Config, f: Flags, s: Shape, lucky: bool): Flags {
    var f1 := AfterJumpTable(c, f, s);
    if s.entersText then f1.(instrOk := true)
    else if s.leavesText then f1.(instrOk := false)
    else AfterLabel(c, AfterModes(c, f1, s), s, lucky)
  }

  /** The trampoline after a branch is only a comment, too. */
  function BranchNote(c: Config, f: Flags, s: Shape, lucky: bool): seq<Chunk> {
    if !s.entersText && !s.leavesText && !Ignored(AfterModes(c, AfterJumpTable(c, f, s), s), s)
       && s.tab && s.branch && lucky
    then [Note("trampoline")]
    else []
  }

  // ------------------------------------------------------------------ One line

  predicate Opens(c: Config, s: Shape) {
    s.start && !c.passThru && c.use64
  }

  function Started(f: Flags, s: Shape): Flags {
    if s.start then f.(start2end := true, nStart := f.nStart + 1) else f
  }

  function Ended(f: Flags, s: Shape): Flags {
    if s.end then f.(start2end := false, nEnd := f.nEnd + 1) else f
  }

  /** The flags after a line that is neither an opening nor, unless passed through, an end. */
  function NextInBody(c: Config, f: Flags, s: Shape, lucky: bool): Flags {
    if (CallsWatched(c, f) && !s.call.NoCall?) || (ReturnsWatched(c, f) && s.ret) || c.passThru then f
    else Updated(c, f, s, lucky)
  }

  /** The flags after a line; `lucky` is the throw of R(100) against the ratio. */
  function Next(c: Config, f: Flags, s: Shape, lucky: bool): Flags {
    var f1 := Started(AfterDeferred(c, f, s), s);
    if Opens(c, s) then f1
    else if s.end && !c.passThru then Ended(f1, s)
    else NextInBody(c, Ended(f1, s), s, lucky)
  }

  function BodyOutput(c: Config, f: Flags, l: Line, lucky: bool): seq<Chunk> {
    if CallsWatched(c, f) && !l.shape.call.NoCall? then [CallOutput(c, l)]
    else if ReturnsWatched(c, f) && l.shape.ret then [ReturnOutput(c, f, l)]
    else [Text(l.text)] + (if c.passThru then [] else BranchNote(c, f, l.shape, lucky))
  }

  /** The output for a line. */
  function Output(c: Config, f: Flags, l: Line, lucky: bool): seq<Chunk> {
    var f1 := Started(AfterDeferred(c, f, l.shape), l.shape);
    Deferred(c, f, l.shape) +
    (if Opens(c, l.shape) then [Text(l.text)] + Entry(c, f1)
     else if l.shape.end && !c.passThru then [Text(l.text)]
     else BodyOutput(c, Ended(f1, l.shape), l, lucky))
  }

  // --------------------------------------------------------------------- A file

  /** The flags before line `i`. */
  function FlagsAt(c: Config, f: Flags, lines: seq<Line>, luck: seq<bool>, i: nat): Flags
    requires i <= |lines| == |luck|
  {
    if i == 0 then f else Next(c, FlagsAt(c, f, lines, luck, i - 1), lines[i - 1].shape, luck[i - 1])
  }

  function OutputAt(c: Config, f: Flags, lines: seq<Line>, luck: seq<bool>, i: nat): seq<Chunk>
    requires i < |lines| == |luck|
  {
    Output(c, FlagsAt(c, f, lines, luck, i), lines[i], luck[i])
  }

  /** The output for the first `n` lines. */
  function OutputTo(c: Config, f: Flags, lines: seq<Line>, luck: seq<bool>, n: nat): seq<Chunk>
    requires n <= |lines| == |luck|
  {
    if n == 0 then [] else OutputTo(c, f, lines, luck, n - 1) + OutputAt(c, f, lines, luck, n - 1)
  }

  /** What is written once the input is exhausted. */
  function Trailer(f: Flags): seq<Chunk> {
    (if f.isMainExe then [Note("module")] else [])
    + (if f.insLines > 0 then [Note("payload")] else [])
    + [Note("counts")]
  }
}
