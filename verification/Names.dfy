/** The list of protected functions (afl-as.c): loading a sorted file of names into one
    shared buffer, and looking a call's target up by binary search. */
module Names {
  /** The characters that one fgets reads, MAX_LINE less one. Below, `room` stands for it. */
  const LINE_ROOM: nat := 8191
  const MAX_FUNCS: nat := 0x40_0000

  // ------------------------------------------------------------- What fgets reads

  /** The length of the piece that one fgets reads: up to and including a newline, at
      most `room` characters. */
  function PieceLength(text: string, room: nat): (n: nat)
    ensures n <= |text| && n <= room
    ensures n > 0 <==> text != "" && room > 0
    ensures '\n' !in text[..if n > 0 then n - 1 else 0]
    ensures 0 < n && text[n - 1] != '\n' ==> n == room || n == |text|
    decreases room
  {
    if text == "" || room == 0 then 0
    else if text[0] == '\n' then 1
    else 1 + PieceLength(text[1..], room - 1)
  }

  /** The names that the loader keeps: every piece of more than one character, without
      its last character, which becomes the terminating NUL. */
  function Kept(text: string, room: nat): seq<string>
    requires room > 0
    decreases |text|
  {
    if text == "" then []
    else
      var n := PieceLength(text, room);
      (if n > 1 then [text[..n - 1]] else []) + Kept(text[n..], room)
  }

  /** A NUL-terminated string at position `p`. */
  predicate StoredAt(buf: seq<char>, p: nat, name: string) {
    && p + |name| < |buf| && buf[p..p + |name|] == name && buf[p + |name|] == '\0' && '\0' !in name
  }

  /** The string that a pointer to position `p` denotes. */
  function CString(buf: seq<char>, p: nat): string
    decreases |buf| - p
  {
    if p >= |buf| || buf[p] == '\0' then "" else [buf[p]] + CString(buf, p + 1)
  }

  lemma {:induction false} StoredIsRead(buf: seq<char>, p: nat, name: string)
    requires StoredAt(buf, p, name)
    ensures CString(buf, p) == name
    decreases |name|
  {
    if name != "" {
      assert buf[p] == buf[p..p + |name|][0] == name[0];
      assert buf[p + 1..p + 1 + |name[1..]|] == buf[p..p + |name|][1..];
      StoredIsRead(buf, p + 1, name[1..]);
    }
  }

  // -------------------------------------------------------------------- The loader

  class NameList {
    var buf: array<char>
    const funcs: array<nat>
    var count: nat

    constructor ()
      ensures count == 0 && funcs.Length == MAX_FUNCS && fresh(funcs) && fresh(buf)
    {
      buf := new char[0](_ => '\0');
      funcs := new nat[MAX_FUNCS](_ => 0);
      count := 0;
    }

    /** The list holds these names, in this order. */
    predicate Holds(names: seq<string>)
      reads this, buf, funcs
    {
      && count == |names| <= funcs.Length
      && forall i :: 0 <= i < count ==> StoredAt(buf[..], funcs[i], names[i])
    }

    /** spa_open_protected_funcs_list on the text of the file, `room` being LINE_ROOM. */
    method Load(text: string, room: nat)
      requires '\0' !in text && room > 0 && |Kept(text, room)| <= funcs.Length
      modifies this, funcs
      ensures fresh(buf) && buf.Length == |text| + 8
      ensures Holds(Kept(text, room))
    {
      hide Kept, PieceLength, Packed;
      buf := new char[|text| + 8](_ => '\0');
      count := 0;
      NoNamesYet(buf[..], funcs[..], text, room);
      var cur, at := 0, 0;
      ghost var names: seq<string> := [];
      while at < |text|
        invariant fresh(buf) && buf.Length == |text| + 8 && 0 <= cur <= at <= |text|
        invariant Read(names, text, at, room)
        invariant count == |names| && Packed(buf[..], funcs[..], names, cur)
        decreases |text| - at
      {
        var n := PieceLength(text[at..], room);
        ReadMore(names, text, at, room);
        if n > 1 {
          var line := text[at..at + n];
          KeepLine(cur, line, names);
          names := names + [line[..n - 1]];
          cur := cur + n;
        }
        at := at + n;
      }
      AllRead(buf[..], funcs[..], names, cur, text, room);
    }

    /** is_protected_function: binary search among the loaded names. */
    method IsProtectedFunction(line: string, ghost target: string, ghost names: seq<string>) returns (found: bool)
      requires Holds(names) && Sorted(names) && Targets(line, target)
      ensures found <==> target in names
    {
      TargetIs(line, target);
      var name := ReadTarget(line);
      var low, high := 0, count - 1;
      while low <= high
        invariant 0 <= low <= count && -1 <= high < count
        invariant forall i :: 0 <= i < count && !(low <= i <= high) ==> names[i] != name
        decreases high - low
      {
        var mid := (low + high) / 2;
        StoredIsRead(buf[..], funcs[mid], names[mid]);
        var r := Compare(name, CString(buf[..], funcs[mid]));
        if r == 0 {
          return true;
        }
        OutsideHalf(names, mid, name);
        if r > 0 {
          low := mid + 1;
        } else {
          high := mid - 1;
        }
      }
      found := false;
    }

    /** The version that the source disables: a linear scan. */
    method IsProtectedLinear(line: string, ghost target: string, ghost names: seq<string>) returns (found: bool)
      requires Holds(names) && Targets(line, target)
      ensures found <==> target in names
    {
      TargetIs(line, target);
      var name := ReadTarget(line);
      var i := 0;
      while i < count
        invariant 0 <= i <= count && name !in names[..i]
      {
        StoredIsRead(buf[..], funcs[i], names[i]);
        if CString(buf[..], funcs[i]) == name {
          return true;
        }
        i := i + 1;
      }
      found := false;
    }

    /** One line copied to the buffer, and its pointer to the list. */
    method KeepLine(cur: nat, line: string, ghost names: seq<string>)
      requires line != "" && cur + |line| <= buf.Length && '\0' !in line
      requires count == |names| < funcs.Length && Packed(buf[..], funcs[..], names, cur)
      modifies this`count, buf, funcs
      ensures count == old(count) + 1
      ensures Packed(buf[..], funcs[..], names + [line[..|line| - 1]], cur + |line|)
    {
      ghost var was, ptrs := buf[..], funcs[..];
      Store(buf, cur, line);
      OneMoreName(was, buf[..], ptrs, names, cur, line);
      funcs[count] := cur;
      assert funcs[..] == ptrs[count := cur];
      count := count + 1;
    }
  }

  /** `names` are those of the pieces read up to `at`. */
  ghost predicate Read(names: seq<string>, text: string, at: nat, room: nat)
    requires room > 0
  {
    at <= |text| && names + Kept(text[at..], room) == Kept(text, room)
  }

  lemma NoNamesYet(buf: seq<char>, funcs: seq<nat>, text: string, room: nat)
    requires room > 0
    ensures Read([], text, 0, room) && Packed(buf, funcs, [], 0)
  {
    assert text[0..] == text;
  }

  lemma AllRead(buf: seq<char>, funcs: seq<nat>, names: seq<string>, cur: nat, text: string, room: nat)
    requires room > 0 && Read(names, text, |text|, room) && Packed(buf, funcs, names, cur)
    ensures names == Kept(text, room) && |names| <= |funcs|
    ensures forall i :: 0 <= i < |names| ==> StoredAt(buf, funcs[i], names[i])
  {
    assert text[|text|..] == "";
  }

  lemma ReadMore(names: seq<string>, text: string, at: nat, room: nat)
    requires room > 0 && at < |text| && Read(names, text, at, room)
    ensures var n := PieceLength(text[at..], room);
            && 0 < n && at + n <= |text|
            && (n > 1 ==> |names| < |Kept(text, room)|)
            && Read(if n > 1 then names + [text[at..at + n][..n - 1]] else names, text, at + n, room)
  {
    hide Kept, PieceLength;
    var n := PieceLength(text[at..], room);
    KeptUnfolds(text, at, room);
    Regroup(names, Kept(text[at..], room), if n > 1 then [text[at..at + n][..n - 1]] else [],
            Kept(text[at + n..], room));
  }

  lemma Regroup(a: seq<string>, bc: seq<string>, b: seq<string>, c: seq<string>)
    requires bc == b + c
    ensures (a + b) + c == a + bc && a + [] == a
  {
  }

  lemma KeptUnfolds(text: string, at: nat, room: nat)
    requires room > 0 && at < |text|
    ensures var n := PieceLength(text[at..], room);
            && 0 < n && at + n <= |text|
            && Kept(text[at..], room)
               == (if n > 1 then [text[at..at + n][..n - 1]] else []) + Kept(text[at + n..], room)
  {
    var n := PieceLength(text[at..], room);
    assert text[at..][..n - 1] == text[at..at + n][..n - 1] && text[at..][n..] == text[at + n..];
  }

  /** `strncpy(cur, line, n); cur += n; *(cur - 1) = 0`. */
  method Store(buf: array<char>, cur: nat, line: string)
    requires line != "" && cur + |line| <= buf.Length
    modifies buf
    ensures buf[..] == old(buf[..])[..cur] + line[..|line| - 1] + ['\0'] + old(buf[..])[cur + |line|..]
  {
    var k := 0;
    while k < |line|
      invariant 0 <= k <= |line|
      invariant forall j :: 0 <= j < k ==> buf[cur + j] == line[j]
      invariant forall j :: 0 <= j < buf.Length && !(cur <= j < cur + k) ==> buf[j] == old(buf[j])
    {
      buf[cur + k] := line[k];
      k := k + 1;
    }
    buf[cur + |line| - 1] := '\0';
    ghost var want := old(buf[..])[..cur] + line[..|line| - 1] + ['\0'] + old(buf[..])[cur + |line|..];
    forall j | 0 <= j < buf.Length
      ensures buf[j] == want[j]
    {
      if cur <= j < cur + |line| - 1 {
        assert buf[cur + (j - cur)] == line[j - cur];
      }
    }
  }

  /** The first names are stored below `cur`. */
  predicate Packed(buf: seq<char>, funcs: seq<nat>, names: seq<string>, cur: nat) {
    && |names| <= |funcs|
    && forall i :: 0 <= i < |names| ==> StoredAt(buf, funcs[i], names[i]) && funcs[i] + |names[i]| < cur
  }

  lemma OneMoreName(was: seq<char>, now: seq<char>, funcs: seq<nat>, names: seq<string>, cur: nat, line: string)
    requires Packed(was, funcs, names, cur) && |names| < |funcs| && '\0' !in line && line != ""
    requires cur + |line| <= |was|
    requires now == was[..cur] + line[..|line| - 1] + ['\0'] + was[cur + |line|..]
    ensures Packed(now, funcs[|names| := cur], names + [line[..|line| - 1]], cur + |line|)
  {
    var name := line[..|line| - 1];
    assert now[cur..cur + |name|] == name;
    forall i | 0 <= i < |names|
      ensures StoredAt(now, funcs[i], names[i])
    {
      assert now[funcs[i]..funcs[i] + |names[i]|] == was[funcs[i]..funcs[i] + |names[i]|];
    }
  }

  // --------------------------------------------------------------------- The order

  /** strcmp: less, equal or greater, by character codes. */
  function Compare(a: string, b: string): (r: int)
    ensures r == 0 <==> a == b
  {
    if a == "" then (if b == "" then 0 else -1)
    else if b == "" then 1
    else if a[0] != b[0] then (if a[0] < b[0] then -1 else 1)
    else
      assert a == [a[0]] + a[1..] && b == [b[0]] + b[1..];
      Compare(a[1..], b[1..])
  }

  lemma {:induction false} CompareTransitive(a: string, b: string, c: string)
    requires Compare(a, b) <= 0 && Compare(b, c) <= 0
    ensures Compare(a, c) <= 0
    ensures Compare(a, b) < 0 || Compare(b, c) < 0 ==> Compare(a, c) < 0
  {
    if a != "" && b != "" && c != "" && a[0] == b[0] == c[0] {
      CompareTransitive(a[1..], b[1..], c[1..]);
    }
  }

  lemma {:induction false} CompareReverses(a: string, b: string)
    ensures Compare(a, b) < 0 <==> Compare(b, a) > 0
  {
    if a != "" && b != "" && a[0] == b[0] {
      CompareReverses(a[1..], b[1..]);
    }
  }

  /** The first place where two strings differ decides, and a proper prefix comes first. */
  lemma {:induction false} CompareDecides(p: string, x: char, s: string, y: char, t: string)
    ensures Compare(p + [x] + s, p + [y] + t) < 0 <== x < y
    ensures Compare(p + [x] + s, p + [y] + t) > 0 <== x > y
    ensures Compare(p, p + [y] + t) < 0
  {
    var a, b := p + [x] + s, p + [y] + t;
    if p != "" {
      CompareDecides(p[1..], x, s, y, t);
      assert a[1..] == p[1..] + [x] + s && b[1..] == p[1..] + [y] + t;
    }
  }

  predicate Sorted(names: seq<string>) {
    forall i, j :: 0 <= i < j < |names| ==> Compare(names[i], names[j]) <= 0
  }

  /** In a sorted list, a name that comes after an entry is not among those up to it, and
      one that comes before it is not among those from it on. */
  lemma OutsideHalf(names: seq<string>, mid: nat, name: string)
    requires Sorted(names) && mid < |names|
    ensures Compare(name, names[mid]) > 0 ==> forall i :: 0 <= i <= mid ==> names[i] != name
    ensures Compare(name, names[mid]) < 0 ==> forall i :: mid <= i < |names| ==> names[i] != name
  {
    CompareReverses(names[mid], name);
    CompareReverses(name, names[mid]);
    forall i | 0 <= i < |names| && names[i] == name
      ensures Compare(name, names[mid]) > 0 ==> i > mid
      ensures Compare(name, names[mid]) < 0 ==> i < mid
    {
    }
  }

  // -------------------------------------------------------------------- The lookup

  predicate Ends(c: char) {
    c == '\n' || c == ' ' || c == '\t'
  }

  /** The call's target: the line up to the first blank or newline. */
  function TargetName(line: string): string {
    if line == "" || Ends(line[0]) then "" else [line[0]] + TargetName(line[1..])
  }

  /** The characters that cannot be part of a target's name, and only these, end it. */
  predicate Plain(name: string) {
    forall k :: 0 <= k < |name| ==> name[k] != '\n' && name[k] != ' ' && name[k] != '\t'
  }

  /** The line starts with a name and one of the characters that end it. */
  predicate Targets(line: string, name: string) {
    && |name| < |line| && line[..|name|] == name && Plain(name)
    && (line[|name|] == '\n' || line[|name|] == ' ' || line[|name|] == '\t')
  }

  lemma {:induction false} TargetIs(line: string, name: string)
    requires Targets(line, name)
    ensures TargetName(line) == name
  {
    if name != "" {
      assert line[0] == line[..|name|][0] == name[0];
      assert line[1..][..|name| - 1] == line[..|name|][1..] == name[1..];
      TargetIs(line[1..], name[1..]);
    }
  }

  lemma NextCharacter(line: string, p: nat)
    requires p < |line| && !Ends(line[p])
    ensures TargetName(line[p..]) == [line[p]] + TargetName(line[p + 1..])
  {
    assert line[p..][1..] == line[p + 1..];
  }

  /** The loop that cuts the line off at the end of the name. */
  method ReadTarget(line: string) returns (name: string)
    requires exists i :: 0 <= i < |line| && Ends(line[i])
    ensures name == TargetName(line)
  {
    var p := 0;
    while !Ends(line[p])
      invariant 0 <= p < |line| && (exists i :: p <= i < |line| && Ends(line[i]))
      invariant TargetName(line) == line[..p] + TargetName(line[p..])
      decreases |line| - p
    {
      NextCharacter(line, p);
      p := p + 1;
    }
    name := line[..p];
  }

  // ------------------------------------------------------- Names and lines of the file

  /** The lines of a text, without their newlines; what follows the last newline is not one. */
  function Lines(text: string): seq<string>
    decreases |text|
  {
    var n := LineLength(text);
    if n == |text| then [] else [text[..n]] + Lines(text[n + 1..])
  }

  function LineLength(text: string): (n: nat)
    ensures n <= |text| && '\n' !in text[..n] && (n < |text| ==> text[n] == '\n')
  {
    if text == "" || text[0] == '\n' then 0 else 1 + LineLength(text[1..])
  }

  function NonEmpty(lines: seq<string>): seq<string> {
    if lines == [] then [] else (if lines[0] != "" then [lines[0]] else []) + NonEmpty(lines[1..])
  }

  /** Lines that fit the line buffer. */
  predicate Short(text: string, room: nat) {
    forall l :: l in Lines(text) ==> |l| < room
  }

  /** What follows the last newline. */
  function Tail(text: string): (t: string)
    ensures '\n' !in t && |t| <= |text|
    decreases |text|
  {
    var n := LineLength(text);
    if n == |text| then text else Tail(text[n + 1..])
  }

  lemma {:induction false} PieceIsLine(text: string, room: nat)
    requires LineLength(text) < room
    ensures PieceLength(text, room) == if LineLength(text) < |text| then LineLength(text) + 1 else |text|
    decreases room
  {
    if text != "" && text[0] != '\n' {
      PieceIsLine(text[1..], room - 1);
    }
  }

  /** The loader keeps exactly the non-empty lines; a final line without a newline is kept
      too, but loses its last character. */
  lemma {:induction false} KeptAreLines(text: string, room: nat)
    requires Short(text, room) && |Tail(text)| < room
    ensures Kept(text, room) == NonEmpty(Lines(text)) + KeptTail(Tail(text))
    decreases |text|
  {
    hide Kept, LineLength;
    var n := LineLength(text);
    PieceIsLine(text, room);
    if n == |text| {
      KeptOnePiece(text, room);
    } else {
      KeptOneLine(text, room);
      KeptAreLines(text[n + 1..], room);
      NonEmptyFirst(text[..n], Lines(text[n + 1..]));
      Regroup(if text[..n] != "" then [text[..n]] else [], Kept(text[n + 1..], room),
              NonEmpty(Lines(text[n + 1..])), KeptTail(Tail(text)));
    }
  }

  function KeptTail(tail: string): seq<string> {
    if |tail| > 1 then [tail[..|tail| - 1]] else []
  }

  lemma KeptOnePiece(text: string, room: nat)
    requires room > 0 && PieceLength(text, room) == |text|
    ensures Kept(text, room) == KeptTail(text)
  {
    assert text[|text|..] == "";
  }

  lemma KeptOneLine(text: string, room: nat)
    requires LineLength(text) < |text| && Short(text, room)
    requires PieceLength(text, room) == LineLength(text) + 1
    ensures var n := LineLength(text);
            && n < room && Short(text[n + 1..], room)
            && Kept(text, room) == (if text[..n] != "" then [text[..n]] else []) + Kept(text[n + 1..], room)
  {
    var n := LineLength(text);
    assert text[..n] in Lines(text);
    assert forall l :: l in Lines(text[n + 1..]) ==> l in Lines(text);
    assert text[..n + 1][..n] == text[..n];
  }

  lemma NonEmptyFirst(line: string, rest: seq<string>)
    ensures NonEmpty([line] + rest) == (if line != "" then [line] else []) + NonEmpty(rest)
  {
    assert ([line] + rest)[1..] == rest;
  }

  lemma {:induction false} NonEmptyMembers(lines: seq<string>, name: string)
    requires name != ""
    ensures name in NonEmpty(lines) <==> name in lines
  {
    if lines != [] {
      NonEmptyMembers(lines[1..], name);
      assert lines == [lines[0]] + lines[1..];
    }
  }

  /** For a file whose last line ends too, a name is found exactly when it is a line. */
  lemma FoundIsLine(text: string, room: nat, name: string)
    requires room > 0 && Short(text, room) && Tail(text) == "" && name != ""
    ensures name in Kept(text, room) <==> name in Lines(text)
  {
    KeptAreLines(text, room);
    NonEmptyMembers(Lines(text), name);
  }

  lemma {:induction false} NonEmptyOf(lines: seq<string>, i: nat)
    requires i < |NonEmpty(lines)|
    ensures NonEmpty(lines)[i] in lines && NonEmpty(lines)[i] != ""
  {
    assert lines == [lines[0]] + lines[1..];
    if !(lines[0] != "" && i == 0) {
      NonEmptyOf(lines[1..], if lines[0] != "" then i - 1 else i);
    }
  }

  /** Dropping the empty lines of a sorted file leaves it sorted. */
  lemma {:induction false} NonEmptySorted(lines: seq<string>)
    requires Sorted(lines)
    ensures Sorted(NonEmpty(lines)) && |NonEmpty(lines)| <= |lines|
  {
    hide Compare;
    if lines != [] {
      var rest := NonEmpty(lines[1..]);
      NonEmptySorted(lines[1..]);
      forall j | 0 <= j < |rest|
        ensures Compare(lines[0], rest[j]) <= 0
      {
        NonEmptyOf(lines[1..], j);
      }
    }
  }

  /** A sorted file whose last line ends too is loaded as a sorted list of its lines. */
  lemma LoadedSorted(text: string, room: nat)
    requires room > 0 && Short(text, room) && Tail(text) == "" && Sorted(Lines(text))
    ensures Sorted(Kept(text, room)) && |Kept(text, room)| <= |Lines(text)|
  {
    hide Sorted;
    KeptAreLines(text, room);
    assert Kept(text, room) == NonEmpty(Lines(text));
    NonEmptySorted(Lines(text));
  }

  /** Loading a sorted file of newline-terminated names and searching it for the target of a
      call answers yes exactly when the target is a line of the file, and so does the linear
      scan. `name`, `end` and `rest` make up the call's line after the mnemonic. */
  method LookUp(text: string, name: string, end: char, rest: string) returns (found: bool, scanned: bool)
    requires '\0' !in text && Tail(text) == "" && Sorted(Lines(text))
    requires |Lines(text)| <= 4_194_304 && forall l :: l in Lines(text) ==> |l| < 8191
    requires Plain(name) && (end == '\n' || end == ' ' || end == '\t')
    ensures found <==> name != "" && name in Lines(text)
    ensures scanned == found
  {
    hide Sorted, Kept, Lines, Tail;
    var line := name + [end] + rest;
    assert line[..|name|] == name && line[|name|] == end;
    LoadedSorted(text, LINE_ROOM);
    TargetKept(text, LINE_ROOM, name);
    var list := new NameList();
    list.Load(text, LINE_ROOM);
    found := list.IsProtectedFunction(line, name, Kept(text, LINE_ROOM));
    scanned := list.IsProtectedLinear(line, name, Kept(text, LINE_ROOM));
  }

  lemma TargetKept(text: string, room: nat, name: string)
    requires room > 0 && Short(text, room) && Tail(text) == ""
    ensures name in Kept(text, room) <==> name != "" && name in Lines(text)
  {
    KeptAreLines(text, room);
    if name != "" {
      NonEmptyMembers(Lines(text), name);
    } else if i :| 0 <= i < |NonEmpty(Lines(text))| && NonEmpty(Lines(text))[i] == "" {
      NonEmptyOf(Lines(text), i);
    }
  }
}
