/**
  The same parsing as the shell does it: NULs written into the command buffer, and pointers into it. A pointer
  is a position in the buffer; every access the code makes is checked to be inside it.
*/
module ShellInPlace {
  import opened Workers
  import opened ShellGrammar

  // ---------------------------------------------------------------- C strings in a buffer

  /** Where the C string at p ends; the length of the buffer if it is not terminated. */
  function EndOf(s: seq<char>, p: nat): (e: nat)
    requires p <= |s|
    ensures p <= e <= |s|
  {
    FirstOf(s, Terminator, p)
  }

  predicate IsTerminated(s: seq<char>, p: nat)
    ensures IsTerminated(s, p) ==> p <= |s|
  {
    p <= |s| && EndOf(s, p) < |s|
  }

  function CString(s: seq<char>, p: nat): string
    requires p <= |s|
  {
    s[p..EndOf(s, p)]
  }

  lemma CStringMeans(s: seq<char>, p: nat)
    requires p <= |s|
    ensures Lacks(CString(s, p), Terminator) && (IsTerminated(s, p) ==> s[EndOf(s, p)] == NUL)
    ensures forall j :: p <= j < EndOf(s, p) ==> s[j] != NUL
  {
    FirstOfMeans(s, Terminator, p);
  }

  lemma CStringIs(s: seq<char>, p: nat, e: nat)
    requires p <= e < |s| && s[e] == NUL && forall j :: p <= j < e ==> s[j] != NUL
    ensures EndOf(s, p) == e && CString(s, p) == s[p..e]
  {
    FirstOfIs(s, Terminator, p, e);
  }

  /** A C string does not change when no cell of it, terminator included, changes. */
  lemma CStringKept(before: seq<char>, after: seq<char>, p: nat)
    requires |before| == |after| && IsTerminated(before, p)
    requires forall j :: p <= j <= EndOf(before, p) ==> after[j] == before[j]
    ensures IsTerminated(after, p) && EndOf(after, p) == EndOf(before, p) && CString(after, p) == CString(before, p)
  {
    var e := EndOf(before, p);
    CStringMeans(before, p);
    CStringIs(after, p, e);
    assert after[p..e] == before[p..e];
  }

  // ---------------------------------------------------------------- Pipe_Check

  /** TrimSpace: the first place at or after p that is not blank. */
  function SkipBlanks(line: string, p: nat): (q: nat)
    requires p <= |line|
    ensures p <= q <= |line|
    decreases |line| - p
  {
    if p < |line| && IsBlank(line[p]) then SkipBlanks(line, p + 1) else p
  }

  lemma {:induction false} SkipBlanksMeans(line: string, p: nat)
    requires p <= |line|
    ensures var q := SkipBlanks(line, p);
      (q < |line| ==> !IsBlank(line[q])) && forall j :: p <= j < q ==> IsBlank(line[j])
    decreases |line| - p
  {
    if p < |line| && IsBlank(line[p]) {
      SkipBlanksMeans(line, p + 1);
    }
  }

  /** Where the commands behind the bars at or after i begin. */
  function Starts(line: string, i: nat): seq<nat>
    requires i <= |line|
    decreases |line| - i
  {
    var e := FirstOf(line, Bar, i);
    if e == |line| then [] else [SkipBlanks(line, e + 1)] + Starts(line, e + 1)
  }

  /** The buffer holds the line with a NUL for every bar, and its terminator. */
  predicate IsCut(s: seq<char>, line: string) {
    |line| < |s| && s[|line|] == NUL && Lacks(line, Terminator) &&
    forall j :: 0 <= j < |line| ==> s[j] == if line[j] == '|' then NUL else line[j]
  }

  lemma FirstOfSuffix(line: string, stop: Stop, i: nat)
    requires i <= |line|
    ensures FirstOf(line[i..], stop, 0) == FirstOf(line, stop, i) - i
  {
    FirstOfMeans(line, stop, i);
    FirstOfIs(line[i..], stop, 0, FirstOf(line, stop, i) - i);
  }

  lemma SliceDrop(s: string, i: nat, e: nat, j: nat)
    requires i <= j <= e <= |s|
    ensures s[i..e][j - i..] == s[j..e]
  {
  }

  lemma SuffixCut(s: string, i: nat, e: nat)
    requires i <= e <= |s|
    ensures s[i..][..e - i] == s[i..e] && s[i..][e - i..] == s[e..]
  {
  }

  /** SplitBars, by positions in the whole line. */
  function SplitFrom(line: string, i: nat): (r: seq<string>)
    requires i <= |line|
    ensures |r| > 0
    decreases |line| - i
  {
    var e := FirstOf(line, Bar, i);
    if e == |line| then [line[i..e]] else [line[i..e]] + SplitFrom(line, e + 1)
  }

  lemma SplitBarsStep(s: string)
    ensures var e := FirstOf(s, Bar, 0);
      SplitBars(s) == if e == |s| then [s] else [s[..e]] + SplitBars(s[e + 1..])
  {
    hide FirstOf;
  }

  lemma {:induction false} SplitFromIs(line: string, i: nat)
    requires i <= |line|
    ensures SplitFrom(line, i) == SplitBars(line[i..])
    decreases |line| - i
  {
    hide FirstOf, SplitBars;
    var e, t := FirstOf(line, Bar, i), line[i..];
    FirstOfSuffix(line, Bar, i);
    SuffixCut(line, i, e);
    SplitBarsStep(t);
    if e < |line| {
      SuffixCut(line, i, e + 1);
      SplitFromIs(line, e + 1);
    } else {
      assert line[i..e] == t;
    }
  }

  lemma BlanksHideNoBar(line: string, i: nat)
    requires i <= |line|
    ensures SkipBlanks(line, i) <= FirstOf(line, Bar, i)
    ensures FirstOf(line, Bar, SkipBlanks(line, i)) == FirstOf(line, Bar, i)
    ensures Starts(line, SkipBlanks(line, i)) == Starts(line, i)
  {
    var q := SkipBlanks(line, i);
    SkipBlanksMeans(line, i);
    FirstOfMeans(line, Bar, q);
    FirstOfIs(line, Bar, i, FirstOf(line, Bar, q));
  }

  lemma TrimSlice(line: string, i: nat, e: nat)
    requires i <= |line| && SkipBlanks(line, i) <= e <= |line|
    ensures TrimLeft(line[i..e]) == line[SkipBlanks(line, i)..e]
    decreases e - i
  {
    var q := SkipBlanks(line, i);
    SkipBlanksMeans(line, i);
    TrimLeftUnique(line[i..e], q - i);
    SliceDrop(line, i, e, q);
  }

  /** The C string at the start of a trimmed piece is that piece trimmed. */
  lemma PieceAt(s: seq<char>, line: string, i: nat)
    requires IsCut(s, line) && i <= |line|
    ensures var q, e := SkipBlanks(line, i), FirstOf(line, Bar, i);
      IsTerminated(s, q) && CString(s, q) == TrimLeft(line[i..e])
  {
    var q, e := SkipBlanks(line, i), FirstOf(line, Bar, i);
    BlanksHideNoBar(line, i);
    FirstOfMeans(line, Bar, i);
    CStringIs(s, q, e);
    TrimSlice(line, i, e);
    assert s[q..e] == line[q..e];
  }

  lemma {:induction false} StartsCount(line: string, i: nat)
    requires i <= |line|
    ensures |Starts(line, i)| == |SplitFrom(line, i)| - 1
    decreases |line| - i
  {
    var e := FirstOf(line, Bar, i);
    if e < |line| {
      StartsCount(line, e + 1);
    }
  }

  /** The pointers stored by Pipe_Check lead to the trimmed pieces behind the bars, in order. */
  lemma {:induction false} StartIsSegment(s: seq<char>, line: string, i: nat, k: nat)
    requires IsCut(s, line) && i <= |line| && k < |Starts(line, i)|
    requires |Starts(line, i)| == |SplitFrom(line, i)| - 1
    ensures var start := Starts(line, i)[k];
      IsTerminated(s, start) && CString(s, start) == TrimLeft(SplitFrom(line, i)[k + 1])
    decreases k
  {
    hide FirstOf, SkipBlanks, TrimLeft, CString, IsTerminated;
    var e := FirstOf(line, Bar, i);
    assert SplitFrom(line, i)[k + 1] == SplitFrom(line, e + 1)[k];
    if k == 0 {
      PieceAt(s, line, e + 1);
    } else {
      assert Starts(line, i)[k] == Starts(line, e + 1)[k - 1];
      StartIsSegment(s, line, e + 1, k - 1);
    }
  }

  lemma FirstSegment(s: seq<char>, line: string)
    requires IsCut(s, line)
    ensures IsTerminated(s, 0) && CString(s, 0) == SplitFrom(line, 0)[0]
  {
    var e := FirstOf(line, Bar, 0);
    FirstOfMeans(line, Bar, 0);
    CStringIs(s, 0, e);
    assert s[0..e] == line[0..e];
  }

  /** The C strings at these places lie one behind the other. */
  predicate Apart(s: seq<char>, starts: seq<nat>) {
    && (forall k :: 0 <= k < |starts| ==> IsTerminated(s, starts[k]))
    && forall j, k :: 0 <= j < k < |starts| ==> EndOf(s, starts[j]) < starts[k]
  }

  /** The string at the start of piece i ends at the next bar, before all later starts. */
  lemma {:induction false} StartsAreApart(s: seq<char>, line: string, i: nat, p: nat)
    requires IsCut(s, line) && i <= |line| && (p == i || p == SkipBlanks(line, i))
    ensures Apart(s, [p] + Starts(line, i)) && p <= FirstOf(line, Bar, i)
    decreases |line| - i
  {
    hide IsCut;
    var e := FirstOf(line, Bar, i);
    EndsAtBar(s, line, i, p);
    if e < |line| {
      var q := SkipBlanks(line, e + 1);
      StartsAreApart(s, line, e + 1, q);
      OneBefore(s, p, [q] + Starts(line, e + 1));
    }
  }

  lemma EndsAtBar(s: seq<char>, line: string, i: nat, p: nat)
    requires IsCut(s, line) && i <= |line| && (p == i || p == SkipBlanks(line, i))
    ensures p <= FirstOf(line, Bar, i) && IsTerminated(s, p) && EndOf(s, p) == FirstOf(line, Bar, i)
  {
    BlanksHideNoBar(line, i);
    FirstOfMeans(line, Bar, i);
    CStringIs(s, p, FirstOf(line, Bar, i));
  }

  lemma OneBefore(s: seq<char>, p: nat, starts: seq<nat>)
    requires Apart(s, starts) && starts != [] && IsTerminated(s, p) && EndOf(s, p) < starts[0]
    ensures Apart(s, [p] + starts)
  {
    hide EndOf, IsTerminated;
    FirstStartIsLowest(s, starts);
    assert forall k :: 0 < k < |[p] + starts| ==> ([p] + starts)[k] == starts[k - 1];
  }

  lemma FirstStartIsLowest(s: seq<char>, starts: seq<nat>)
    requires Apart(s, starts) && starts != []
    ensures forall k :: 0 <= k < |starts| ==> starts[0] <= starts[k]
  {
    assert EndOf(s, starts[0]) >= starts[0];
  }

  /** What the cut buffer and the pointers to the starts amount to. */
  lemma CutMeans(s: seq<char>, line: string)
    requires IsCut(s, line)
    ensures var starts, segments := Starts(line, 0), Segments(line);
      |starts| == |segments| - 1 == CountBars(line)
      && IsTerminated(s, 0) && CString(s, 0) == segments[0]
      && Apart(s, [0] + starts)
      && forall k :: 0 <= k < |starts| ==> IsTerminated(s, starts[k]) && CString(s, starts[k]) == segments[k + 1]
  {
    StartsCount(line, 0);
    StartsAreApart(s, line, 0, 0);
    FirstSegment(s, line);
    SplitFromIs(line, 0);
    assert line[0..] == line;
    forall k | 0 <= k < |Starts(line, 0)|
      ensures IsTerminated(s, Starts(line, 0)[k]) && CString(s, Starts(line, 0)[k]) == Segments(line)[k + 1]
    {
      StartIsSegment(s, line, 0, k);
    }
  }

  /** There are as many pointers to store as bars. */
  lemma StartCount(s: seq<char>, line: string)
    requires IsTerminated(s, 0) && line == CString(s, 0)
    ensures |Starts(line, 0)| == CountBars(line)
  {
    var cut := seq(|s|, j requires 0 <= j < |s| => if j < |line| && line[j] == '|' then NUL else s[j]);
    CStringMeans(s, 0);
    CutMeans(cut, line);
  }

  /** How many commands Pipe_Check has stored when it stands at i, counted by those still to come. */
  lemma StartsFrom(line: string, i: nat)
    requires i < |line|
    ensures Starts(line, i) == if line[i] == '|' then [SkipBlanks(line, i + 1)] + Starts(line, i + 1)
                               else Starts(line, i + 1)
  {
    hide SkipBlanks;
  }

  lemma NoMoreStarts(line: string)
    ensures Starts(line, |line|) == []
  {
  }

  lemma OneOver(done: seq<nat>, q: nat, later: seq<nat>)
    ensures done + ([q] + later) == done + [q] + later
    ensures |done| < |done + [q] + later|
  {
  }

  lemma StartsStep(line: string, i: nat, done: seq<nat>, q: nat)
    requires i < |line| && line[i] == '|' && q == SkipBlanks(line, i + 1) && done + Starts(line, i) == Starts(line, 0)
    ensures |done| < |Starts(line, 0)| && done + [q] + Starts(line, q) == Starts(line, 0)
  {
    hide FirstOf, SkipBlanks, Starts;
    StartsFrom(line, i);
    BlanksHideNoBar(line, i + 1);
    OneOver(done, q, Starts(line, q));
  }

  /** The buffer while Pipe_Check stands at `begin`: bars before it are NULs, the rest is as it was. */
  predicate IsCutUpTo(s: seq<char>, was: seq<char>, line: string, begin: nat) {
    && |s| == |was| && begin <= |line| < |was|
    && (forall j :: 0 <= j < begin ==> s[j] == if line[j] == '|' then NUL else line[j])
    && (forall j :: begin <= j < |s| ==> s[j] == was[j])
  }

  /** The line is the C string at the start of the buffer. */
  predicate IsLine(was: seq<char>, line: string) {
    && |line| < |was| && was[|line|] == NUL && Lacks(line, Terminator)
    && forall j :: 0 <= j < |line| ==> was[j] == line[j]
  }

  lemma LineOf(s: seq<char>)
    requires IsTerminated(s, 0)
    ensures IsLine(s, CString(s, 0)) && |CString(s, 0)| == EndOf(s, 0)
    ensures IsCutUpTo(s, s, CString(s, 0), 0)
  {
    CStringMeans(s, 0);
  }

  lemma CutPast(s: seq<char>, t: seq<char>, was: seq<char>, line: string, begin: nat, q: nat)
    requires IsLine(was, line) && IsCutUpTo(s, was, line, begin) && begin < |line|
    requires if line[begin] == '|' then t == s[begin := NUL] && q == SkipBlanks(line, begin + 1)
             else t == s && q == begin + 1
    ensures begin < q <= |line| && IsCutUpTo(t, was, line, q)
  {
    if line[begin] == '|' {
      SkipBlanksMeans(line, begin + 1);
    }
  }

  lemma CutAll(s: seq<char>, was: seq<char>, line: string)
    requires IsLine(was, line) && IsCutUpTo(s, was, line, |line|)
    ensures IsCut(s, line) && forall j :: |line| <= j < |s| ==> s[j] == was[j]
  {
  }

  /** TrimSpace inside the buffer: the terminator stops it. */
  method TrimSpace(a: array<char>, p: nat, ghost was: seq<char>, ghost line: string) returns (q: nat)
    requires IsLine(was, line) && p <= |line| && a.Length == |was|
    requires forall j :: p <= j < a.Length ==> a[j] == was[j]
    ensures q == SkipBlanks(line, p)
  {
    q := p;
    while IsBlank(a[q])
      invariant p <= q <= |line| && SkipBlanks(line, p) == SkipBlanks(line, q)
      decreases |line| - q
    {
      q := q + 1;
    }
  }

  /** Pipe_Check: cut the line at its bars; command k + 1 starts where pointer k says. */
  method PipeCheck(a: array<char>, commands: array<nat>) returns (pipes: nat)
    requires IsTerminated(a[..], 0) && commands.Length == PC_NUM
    requires CountBars(CString(a[..], 0)) <= PC_NUM
    modifies a, commands
    ensures var segments := Segments(CString(old(a[..]), 0));
      pipes == |segments| - 1 <= PC_NUM
      && Apart(a[..], [0] + commands[..pipes])
      && IsTerminated(a[..], 0) && CString(a[..], 0) == segments[0]
      && forall k :: 0 <= k < pipes ==>
           IsTerminated(a[..], commands[k]) && CString(a[..], commands[k]) == segments[k + 1]
    ensures forall j :: EndOf(old(a[..]), 0) <= j < a.Length ==> a[j] == old(a[j])
  {
    hide FirstOf, SkipBlanks, TrimLeft, Starts, SplitBars, Segments, CString, IsTerminated, EndOf;
    ghost var was, line := a[..], CString(a[..], 0);
    var end := EndOf(a[..], 0);
    LineOf(was);
    StartCount(was, line);
    var begin := 0;
    pipes := 0;
    while begin < end
      invariant begin <= end == |line| < a.Length && IsCutUpTo(a[..], was, line, begin)
      invariant pipes <= PC_NUM && commands[..pipes] + Starts(line, begin) == Starts(line, 0)
    {
      ghost var here, before := begin, a[..];
      if a[begin] == '|' {
        ghost var done := commands[..pipes];
        a[begin] := NUL;
        begin := TrimSpace(a, begin + 1, was, line);
        StartsStep(line, here, done, begin);
        commands[pipes] := begin;
        pipes := pipes + 1;
        assert commands[..pipes] == done + [begin];
      } else {
        StartsFrom(line, begin);
        begin := begin + 1;
      }
      CutPast(before, a[..], was, line, here, begin);
    }
    NoMoreStarts(line);
    assert commands[..pipes] == Starts(line, 0);
    CutAll(a[..], was, line);
    CutMeans(a[..], line);
  }

  // ---------------------------------------------------------------- Redir_Check

  /** From position `from` of the line on, the buffer holds the line at p, and its terminator. */
  predicate Holds(s: seq<char>, p: nat, line: string, from: nat)
    ensures Holds(s, p, line, from) ==> from <= |line|
  {
    && p + |line| < |s| && s[p + |line|] == NUL && from <= |line| && Lacks(line, Terminator)
    && s[p + from..p + |line|] == line[from..]
  }

  lemma HoldsAt(s: seq<char>, p: nat, line: string, from: nat, k: nat)
    requires Holds(s, p, line, from) && from <= k <= |line|
    ensures p + |line| < |s| && s[p + k] == if k == |line| then NUL else line[k]
    ensures Holds(s, p, line, k)
  {
    var tail := s[p + from..p + |line|];
    if k < |line| {
      assert tail[k - from] == line[from..][k - from];
    }
    assert s[p + k..p + |line|] == tail[k - from..];
    assert line[k..] == line[from..][k - from..];
  }

  lemma HoldsString(s: seq<char>, p: nat, line: string, from: nat)
    requires Holds(s, p, line, from)
    ensures IsTerminated(s, p + from) && CString(s, p + from) == line[from..]
    ensures EndOf(s, p + from) == p + |line|
  {
    forall j | p + from <= j < p + |line|
      ensures s[j] != NUL
    {
      HoldsAt(s, p, line, from, j - p);
    }
    CStringIs(s, p + from, p + |line|);
  }

  lemma StringHolds(s: seq<char>, p: nat)
    requires IsTerminated(s, p)
    ensures Holds(s, p, CString(s, p), 0) && p + |CString(s, p)| == EndOf(s, p)
  {
    CStringMeans(s, p);
    assert CString(s, p)[0..] == CString(s, p);
  }

  lemma TrimSuffix(line: string, from: nat)
    requires from <= |line|
    ensures TrimLeft(line[from..]) == line[SkipBlanks(line, from)..]
  {
    TrimSlice(line, from, |line|);
    assert line[from..|line|] == line[from..];
    assert line[SkipBlanks(line, from)..|line|] == line[SkipBlanks(line, from)..];
  }

  /** TrimSpace relative to a command that starts at p. */
  method TrimSpaceAt(a: array<char>, p: nat, from: nat, ghost line: string) returns (q: nat)
    requires Holds(a[..], p, line, from)
    ensures q == SkipBlanks(line, from) && q <= |line|
  {
    q := from;
    HoldsAt(a[..], p, line, from, q);
    while IsBlank(a[p + q])
      invariant from <= q <= |line| && SkipBlanks(line, from) == SkipBlanks(line, q)
      invariant a[..][p + q] == if q == |line| then NUL else line[q]
      decreases |line| - q
    {
      q := q + 1;
      HoldsAt(a[..], p, line, from, q);
    }
  }

  lemma HoldsAfterCut(s: seq<char>, p: nat, line: string, e: nat, from: nat)
    requires Holds(s, p, line, 0) && e < from <= |line|
    ensures Holds(s[p + e := NUL], p, line, from)
  {
    HoldsAt(s, p, line, 0, from);
    assert s[p + e := NUL][p + from..p + |line|] == s[p + from..p + |line|];
  }

  /** The file name is the C string behind the sign and the blanks after it. */
  lemma FileAt(s: seq<char>, p: nat, line: string, from: nat)
    requires Holds(s, p, line, from)
    ensures var file := p + SkipBlanks(line, from);
      IsTerminated(s, file) && CString(s, file) == TrimLeft(line[from..])
  {
    hide FirstOf, SkipBlanks, TrimLeft, Holds, CString, IsTerminated;
    HoldsAt(s, p, line, from, SkipBlanks(line, from));
    HoldsString(s, p, line, SkipBlanks(line, from));
    TrimSuffix(line, from);
  }

  /** The branches of Redir_Check, at the first sign of the line. */
  method CutFile(a: array<char>, p: nat, e: nat, ghost line: string) returns (kind: Redir, file: nat)
    requires Holds(a[..], p, line, 0) && e < |line| && Stops(Sign, line[e])
    modifies a
    ensures var r := CutAtSign(line, e);
      kind == r.kind && p + e < file && IsTerminated(a[..], file) && CString(a[..], file) == r.file
    ensures a[..] == old(a[..])[p + e := NUL]
  {
    hide FirstOf, SkipBlanks, TrimLeft, CString, IsTerminated, Holds;
    HoldsAt(a[..], p, line, 0, e);
    HoldsAt(a[..], p, line, 0, e + 1);
    var c, next := a[p + e], a[p + e + 1];
    a[p + e] := NUL;
    var begin := e + 1;
    if c == '<' {
      kind := INIPUT_REDIR;
    } else if next == '>' {
      kind := APPEND_REDIR;
      begin := begin + 1;
    } else {
      kind := OUTPUT_REDIR;
    }
    HoldsAfterCut(old(a[..]), p, line, e, begin);
    FileAt(a[..], p, line, begin);
    begin := TrimSpaceAt(a, p, begin, line);
    file := p + begin;
  }

  /** Redir_Check on the command at p: cut it at the redirection sign, report the kind and where the file name is. */
  method RedirCheck(a: array<char>, p: nat) returns (kind: Redir, file: nat)
    requires IsTerminated(a[..], p)
    modifies a
    ensures var r := ParseRedir(CString(old(a[..]), p));
      kind == r.kind
      && IsTerminated(a[..], p) && CString(a[..], p) == r.command
      && (!kind.NONE_REDIR? ==> EndOf(a[..], p) < file && IsTerminated(a[..], file) && CString(a[..], file) == r.file)
    ensures forall j :: 0 <= j < a.Length && !(p <= j < EndOf(old(a[..]), p)) ==> a[j] == old(a[j])
    ensures EndOf(a[..], p) <= EndOf(old(a[..]), p)
  {
    hide FirstOf, CutAtSign, CString, IsTerminated, TrimLeft, Holds;
    ghost var line := CString(a[..], p);
    StringHolds(a[..], p);
    var end := EndOf(a[..], p) - p;
    var begin := 0;
    while begin < end
      invariant begin <= end && a[..] == old(a[..])
      invariant forall j :: 0 <= j < begin ==> !Stops(Sign, line[j])
    {
      HoldsAt(a[..], p, line, 0, begin);
      if a[p + begin] == '<' || a[p + begin] == '>' {
        FirstOfIs(line, Sign, 0, begin);
        kind, file := CutFile(a, p, begin, line);
        CutString(old(a[..]), p, begin);
        return;
      }
      begin := begin + 1;
    }
    FirstOfIs(line, Sign, 0, end);
    NoSign(line);
    return NONE_REDIR, 0;
  }

  lemma NoSign(line: string)
    ensures CutAtSign(line, |line|) == Redirected(line, NONE_REDIR, "")
  {
  }

  /** A NUL written into a C string shortens it to what comes before. */
  lemma CutString(s: seq<char>, p: nat, k: nat)
    requires IsTerminated(s, p) && p + k < EndOf(s, p)
    ensures var t := s[p + k := NUL];
      IsTerminated(t, p) && EndOf(t, p) == p + k && CString(t, p) == CString(s, p)[..k]
  {
    var t := s[p + k := NUL];
    CStringMeans(s, p);
    CStringIs(t, p, p + k);
    assert t[p..p + k] == s[p..p + k];
    SuffixCut(s, p, p + k);
    assert s[p..EndOf(s, p)][..k] == s[p..p + k];
  }

  // ---------------------------------------------------------------- strtok

  lemma WordsFirst(s: string, e: nat)
    requires s != "" && s[0] != ' ' && e == FirstOf(s, Blank, 0)
    ensures Words(s) == [s[..e]] + Words(s[e..]) && Lacks(s[..e], Blank)
  {
    FirstOfMeans(s, Blank, 0);
  }

  lemma WordsNone(s: string)
    requires forall j :: 0 <= j < |s| ==> s[j] == ' '
    ensures Words(s) == []
  {
    WordsSkip(s, |s|);
  }

  lemma WordEnds(line: string, k: nat, e: nat)
    requires k < e <= |line| && (forall j :: k <= j < e ==> line[j] != ' ') && (e < |line| ==> line[e] == ' ')
    ensures FirstOf(line[k..], Blank, 0) == e - k
  {
    FirstOfIs(line, Blank, k, e);
    FirstOfSuffix(line, Blank, k);
  }

  lemma FirstWord(line: string, s: string, n: nat, word: string, rest: string)
    requires Words(line) == Words(s) && n <= |s| && Words(s) == [s[..n]] + Words(s[n..])
    requires s[..n] == word && s[n..] == rest
    ensures Words(line) == [word] + Words(rest)
  {
    hide Words;
  }

  lemma WordsUpTo(line: string, k: nat, e: nat)
    requires k < e <= |line| && (forall j :: 0 <= j < k ==> line[j] == ' ')
    requires (forall j :: k <= j < e ==> line[j] != ' ') && (e < |line| ==> line[e] == ' ')
    ensures Words(line) == [line[k..e]] + Words(line[e..]) && Lacks(line[k..e], Blank)
  {
    hide Words, FirstOf, Lacks;
    var s, n := line[k..], e - k;
    WordsSkip(line, k);
    WordEnds(line, k, e);
    WordsFirst(s, n);
    SuffixCut(line, k, e);
    FirstWord(line, s, n, line[k..e], line[e..]);
  }

  /** The first word of the line starts at k and ends at e; the search for the next one goes on at `next`. */
  lemma WordsStep(line: string, k: nat, e: nat, next: nat)
    requires k < e <= |line| && (forall j :: 0 <= j < k ==> line[j] == ' ') && forall j :: k <= j < e ==> line[j] != ' '
    requires if e < |line| then line[e] == ' ' && next == e + 1 else next == e
    ensures Words(line) == [line[k..e]] + Words(line[next..]) && Lacks(line[k..e], Blank)
  {
    hide Words, FirstOf, Lacks;
    WordsUpTo(line, k, e);
    if e < |line| {
      WordsSkip(line[e..], 1);
      SuffixCut(line, e, next);
    }
  }

  /** strtok's only writes: a blank inside the string becomes a NUL. */
  predicate OnlyBlanksCut(before: seq<char>, after: seq<char>, from: nat, end: nat) {
    |before| == |after| &&
    forall j :: 0 <= j < |before| && after[j] != before[j] ==> from <= j < end && before[j] == ' '
  }

  /** strtok's first scan: past the blanks. */
  method SkipSpaces(a: array<char>, from: nat, ghost line: string) returns (k: nat)
    requires Holds(a[..], from, line, 0)
    ensures k <= |line| && (forall j :: 0 <= j < k ==> line[j] == ' ') && (k < |line| ==> line[k] != ' ')
  {
    hide Holds;
    k := 0;
    HoldsAt(a[..], from, line, 0, 0);
    while a[from + k] == ' '
      invariant k <= |line| && from + |line| < a.Length
      invariant a[from + k] == if k == |line| then NUL else line[k]
      invariant forall j :: 0 <= j < k ==> line[j] == ' '
      decreases |line| - k
    {
      k := k + 1;
      HoldsAt(a[..], from, line, 0, k);
    }
  }

  /** strtok's second scan: to the end of the word. */
  method SkipWord(a: array<char>, from: nat, k: nat, ghost line: string) returns (e: nat)
    requires Holds(a[..], from, line, 0) && k <= |line|
    ensures k <= e <= |line| && (forall j :: k <= j < e ==> line[j] != ' ') && (e < |line| ==> line[e] == ' ')
  {
    hide Holds;
    e := k;
    HoldsAt(a[..], from, line, 0, e);
    while a[from + e] != NUL && a[from + e] != ' '
      invariant k <= e <= |line| && from + |line| < a.Length
      invariant a[from + e] == if e == |line| then NUL else line[e]
      invariant forall j :: k <= j < e ==> line[j] != ' '
      decreases |line| - e
    {
      e := e + 1;
      HoldsAt(a[..], from, line, 0, e);
    }
    if e < |line| {
      LineHasNoNul(a[..], from, line, e);
    }
  }

  lemma LineHasNoNul(s: seq<char>, p: nat, line: string, k: nat)
    requires Holds(s, p, line, 0) && k < |line|
    ensures line[k] != NUL
  {
  }

  /** The word from k to e, cut out of the string if a blank follows it. */
  lemma WordAt(was: seq<char>, from: nat, line: string, k: nat, e: nat)
    requires Holds(was, from, line, 0) && k < e <= |line|
    ensures var s := if e < |line| then was[from + e := NUL] else was;
      var next := if e < |line| then e + 1 else e;
      && IsTerminated(s, from + k) && CString(s, from + k) == line[k..e]
      && IsTerminated(s, from + next) && CString(s, from + next) == line[next..]
      && EndOf(s, from + next) == from + |line|
  {
    hide FirstOf, CString, IsTerminated, Holds;
    HoldsAt(was, from, line, 0, k);
    HoldsString(was, from, line, k);
    SuffixCut(line, k, e);
    if e < |line| {
      CutString(was, from + k, e - k);
      HoldsAfterCut(was, from, line, e, e + 1);
      HoldsString(was[from + e := NUL], from, line, e + 1);
    } else {
      assert line[k..e] == line[k..];
      HoldsAt(was, from, line, 0, e);
      HoldsString(was, from, line, e);
    }
  }

  lemma NothingCut(s: seq<char>, from: nat, end: nat)
    ensures OnlyBlanksCut(s, s, from, end)
  {
  }

  lemma OneBlankCut(s: seq<char>, from: nat, end: nat, p: nat)
    requires from <= p <= end && p < |s|
    ensures OnlyBlanksCut(s, s, from, end)
    ensures s[p] == ' ' && p < end ==> OnlyBlanksCut(s, s[p := NUL], from, end)
  {
  }

  /** strtok from position `from`: the next word, cut out of the string, and where to go on. */
  method StrTok(a: array<char>, from: nat) returns (token: Option<nat>, next: nat)
    requires IsTerminated(a[..], from)
    modifies a
    ensures OnlyBlanksCut(old(a[..]), a[..], from, EndOf(old(a[..]), from))
    ensures IsTerminated(a[..], next) && from <= next && EndOf(a[..], next) == EndOf(old(a[..]), from)
    ensures var words := Words(CString(old(a[..]), from));
      if words == [] then token.None?
      else token.Some? && IsTerminated(a[..], token.value) && CString(a[..], token.value) == words[0]
           && Lacks(words[0], Blank) && Words(CString(a[..], next)) == words[1..]
  {
    hide FirstOf, CString, IsTerminated, Holds, Words, EndOf, OnlyBlanksCut, Lacks;
    ghost var was, line := a[..], CString(a[..], from);
    StringHolds(was, from);
    var k := SkipSpaces(a, from, line);
    HoldsAt(was, from, line, 0, k);
    if a[from + k] == NUL {
      if k < |line| {
        LineHasNoNul(was, from, line, k);
      }
      WordsNone(line);
      NothingCut(was, from, EndOf(was, from));
      HoldsString(was, from, line, k);
      return None, from + k;
    }
    var e := SkipWord(a, from, k, line);
    HoldsAt(was, from, line, 0, e);
    WordAt(was, from, line, k, e);
    next := from + e;
    OneBlankCut(was, from, EndOf(was, from), next);
    if a[next] == ' ' {
      a[next] := NUL;
      next := next + 1;
    }
    WordsStep(line, k, e, next - from);
    return Some(from + k), next;
  }

  // ---------------------------------------------------------------- Command_Analysis

  /** An entry of myargv: a null pointer, a pointer into the buffer, or a pointer to a string literal. */
  datatype Arg = Null | At(pos: nat) | Literal(text: string)

  predicate Denotes(s: seq<char>, arg: Arg, text: string) {
    match arg
    case Null => false
    case At(p) => IsTerminated(s, p) && CString(s, p) == text
    case Literal(t) => t == text
  }

  /** A later strtok leaves the words found so far alone: it only overwrites blanks, and they have none. */
  lemma DenotesKept(before: seq<char>, after: seq<char>, from: nat, end: nat, arg: Arg, text: string)
    requires Denotes(before, arg, text) && OnlyBlanksCut(before, after, from, end)
    requires arg.At? ==> Lacks(text, Blank)
    ensures Denotes(after, arg, text)
  {
    if arg.At? {
      var p, e := arg.pos, EndOf(before, arg.pos);
      CStringMeans(before, p);
      forall j | p <= j <= e
        ensures after[j] == before[j]
      {
        if j < e {
          assert text[j - p] == before[j];
        }
      }
      CStringKept(before, after, p);
    }
  }

  /** The first i entries of myargv are the first i arguments. */
  predicate Filled(s: seq<char>, argv: seq<Arg>, args: seq<string>, i: nat) {
    i <= |args| && i <= |argv| &&
    forall k :: 0 <= k < i ==> Denotes(s, argv[k], args[k]) && (argv[k].At? ==> Lacks(args[k], Blank))
  }

  lemma FilledKept(before: seq<char>, after: seq<char>, from: nat, end: nat, argv: seq<Arg>, args: seq<string>, i: nat)
    requires Filled(before, argv, args, i) && OnlyBlanksCut(before, after, from, end)
    ensures Filled(after, argv, args, i)
  {
    forall k | 0 <= k < i
      ensures Denotes(after, argv[k], args[k])
    {
      DenotesKept(before, after, from, end, argv[k], args[k]);
    }
  }

  lemma FilledNext(s: seq<char>, before: seq<Arg>, after: seq<Arg>, args: seq<string>, i: nat)
    requires Filled(s, before, args, i) && i < |args| && i < |after| == |before|
    requires after == before[i := after[i]] && Denotes(s, after[i], args[i])
    requires after[i].At? ==> Lacks(args[i], Blank)
    ensures Filled(s, after, args, i + 1)
  {
  }

  /** A C string behind the cut part keeps its text. */
  lemma BehindKept(before: seq<char>, after: seq<char>, from: nat, end: nat, p: nat)
    requires OnlyBlanksCut(before, after, from, end) && end <= p && IsTerminated(before, p)
    ensures IsTerminated(after, p) && CString(after, p) == CString(before, p)
  {
    CStringKept(before, after, p);
  }

  lemma BlanksCutTwice(a: seq<char>, b: seq<char>, c: seq<char>, from: nat, mid: nat, end: nat)
    requires OnlyBlanksCut(a, b, from, end) && OnlyBlanksCut(b, c, mid, end) && from <= mid
    ensures OnlyBlanksCut(a, c, from, end)
  {
  }

  /** The loop that asks strtok for the remaining words and ends the vector with its null pointer. */
  method TokenizeRest(a: array<char>, argv: array<Arg>, from: nat, first: nat, ghost args: seq<string>)
    requires IsTerminated(a[..], from) && |args| < argv.Length
    requires Filled(a[..], argv[..], args, first) && Words(CString(a[..], from)) == args[first..]
    modifies a, argv
    ensures Filled(a[..], argv[..], args, |args|) && argv[|args|] == Null
    ensures OnlyBlanksCut(old(a[..]), a[..], from, EndOf(old(a[..]), from))
  {
    hide FirstOf, CString, IsTerminated, Words, EndOf, Filled, OnlyBlanksCut, Denotes;
    ghost var was, end := a[..], EndOf(a[..], from);
    NothingCut(was, from, end);
    FilledBounds(a[..], argv[..], args, first);
    var i, next := first, from;
    while true
      invariant from <= next && i <= |args| && IsTerminated(a[..], next) && EndOf(a[..], next) == end
      invariant Filled(a[..], argv[..], args, i) && Words(CString(a[..], next)) == args[i..]
      invariant OnlyBlanksCut(was, a[..], from, end)
      decreases |args| - i
    {
      ghost var before, vector, mid := a[..], argv[..], next;
      var token;
      token, next := StrTok(a, next);
      FilledKept(before, a[..], mid, end, argv[..], args, i);
      BlanksCutTwice(was, before, a[..], from, mid, end);
      if token.None? {
        argv[i] := Null;
        FilledSame(a[..], vector, argv[..], args, i);
        return;
      }
      argv[i] := At(token.value);
      DenotesAt(a[..], token.value, args[i]);
      FilledNext(a[..], vector, argv[..], args, i);
      i := i + 1;
    }
  }

  lemma FilledBounds(s: seq<char>, argv: seq<Arg>, args: seq<string>, i: nat)
    requires Filled(s, argv, args, i)
    ensures i <= |args| && i <= |argv|
  {
  }

  lemma FilledSame(s: seq<char>, before: seq<Arg>, after: seq<Arg>, args: seq<string>, i: nat)
    requires Filled(s, before, args, i) && |after| == |before| && forall k :: 0 <= k < i ==> after[k] == before[k]
    ensures Filled(s, after, args, i)
  {
  }

  lemma DenotesAt(s: seq<char>, p: nat, text: string)
    requires IsTerminated(s, p) && CString(s, p) == text
    ensures Denotes(s, At(p), text)
  {
  }

  /**
    Command_Analysis on the command at p. The vector holds the arguments and a null pointer; `run` is false for cd,
    which the shell carries out itself. The command must have a word: strcmp gets the first entry.
  */
  method CommandAnalysis(a: array<char>, p: nat, argv: array<Arg>) returns (run: bool, kind: Redir, file: nat)
    requires IsTerminated(a[..], p) && argv.Length == AG_NUM
    requires ParseCommand(CString(a[..], p)).Some?
    requires |ParseCommand(CString(a[..], p)).value.args| < AG_NUM
    modifies a, argv
    ensures var c := ParseCommand(CString(old(a[..]), p)).value;
      && Filled(a[..], argv[..], c.args, |c.args|) && argv[|c.args|] == Null
      && run == (c.args[0] != "cd") && kind == c.kind
      && (!kind.NONE_REDIR? ==> IsTerminated(a[..], file) && CString(a[..], file) == c.file)
    ensures var words := Words(ParseRedir(CString(old(a[..]), p)).command);
      var args := ParseCommand(CString(old(a[..]), p)).value.args;
      && words != []
      && (words[0] == "ll" ==> args == ["ls", "-l", "--color=auto"] + words[1..])
      && (words[0] == "ls" ==> args == ["ls", "--color=auto"] + words[1..])
      && (words[0] != "ll" && words[0] != "ls" ==> args == words)
    ensures forall j :: 0 <= j < a.Length && !(p <= j < EndOf(old(a[..]), p)) ==> a[j] == old(a[j])
  {
    hide FirstOf, CString, IsTerminated, Words, EndOf, ParseRedir, Filled, OnlyBlanksCut;
    ghost var c := ParseCommand(CString(a[..], p)).value;
    kind, file := RedirCheck(a, p);
    ghost var cut, end := a[..], EndOf(a[..], p);
    ghost var words := Words(CString(cut, p));
    assert c.args == Arguments(words) && words != [];
    var token, next := StrTok(a, p);
    ghost var mid := a[..];
    DenotesAt(mid, token.value, words[0]);
    argv[0] := At(token.value);
    var name, i := CString(a[..], token.value), 1;
    if name == "ll" {
      argv[0] := Literal("ls");
      argv[i] := Literal("-l");
      name, i := "ls", 2;
    }
    if name == "ls" {
      argv[i] := Literal("--color=auto");
      i := i + 1;
    }
    FirstArguments(mid, argv[..], words, token.value, i);
    TokenizeRest(a, argv, next, i, c.args);
    BlanksCutTwice(cut, mid, a[..], p, next, end);
    if !kind.NONE_REDIR? {
      BehindKept(cut, a[..], p, end, file);
    }
    OutsideKept(cut, a[..], p, end);
    run := name != "cd";
  }

  lemma OutsideKept(before: seq<char>, after: seq<char>, from: nat, end: nat)
    requires OnlyBlanksCut(before, after, from, end)
    ensures |after| == |before| && forall j :: 0 <= j < |before| && !(from <= j < end) ==> after[j] == before[j]
  {
  }

  /** The entries stored before the remaining words are read: the command, and the extra arguments of ll and ls. */
  lemma FirstArguments(s: seq<char>, argv: seq<Arg>, words: seq<string>, p: nat, i: nat)
    requires words != [] && Denotes(s, At(p), words[0]) && Lacks(words[0], Blank) && |argv| == AG_NUM
    requires if words[0] == "ll" then i == 3 && argv[..3] == [Literal("ls"), Literal("-l"), Literal("--color=auto")]
             else if words[0] == "ls" then i == 2 && argv[..2] == [At(p), Literal("--color=auto")]
             else i == 1 && argv[..1] == [At(p)]
    ensures Filled(s, argv, Arguments(words), i) && Arguments(words)[i..] == words[1..]
  {
    forall k | 0 <= k < i
      ensures argv[k] == argv[..i][k]
    {
    }
  }

  // ---------------------------------------------------------------- all commands of a line

  /** The strings that execvp would find in the vector. */
  method ReadVector(a: array<char>, argv: array<Arg>, ghost args: seq<string>) returns (r: seq<string>)
    requires |args| < argv.Length && Filled(a[..], argv[..], args, |args|) && argv[|args|] == Null
    ensures r == args
  {
    r := [];
    while argv[|r|] != Null
      invariant |r| <= |args| && r == args[..|r|]
      decreases |args| - |r|
    {
      assert Denotes(a[..], argv[..][|r|], args[|r|]);
      r := r + [match argv[|r|] case At(p) => CString(a[..], p) case Literal(text) => text];
    }
  }

  /** The commands up to number k are still to be analysed, each a C string of its own; the others have been. */
  ghost predicate Remaining(s: seq<char>, starts: seq<nat>, segments: seq<string>, k: int, parsed: seq<Command>) {
    && |starts| == |segments| && -1 <= k < |segments| && |parsed| == |segments| - 1 - k
    && (forall j :: 0 <= j <= k ==> IsTerminated(s, starts[j]) && CString(s, starts[j]) == segments[j])
    && (forall i, j :: 0 <= i < j <= k ==> EndOf(s, starts[i]) < starts[j])
    && forall j :: k < j < |segments| ==> ParseCommand(segments[j]) == Some(parsed[j - k - 1])
  }

  /** Analysing command k writes into its own string only, so the earlier commands are as before. */
  lemma OneLess(before: seq<char>, after: seq<char>, starts: seq<nat>, segments: seq<string>, k: int,
                parsed: seq<Command>, c: Command)
    requires Remaining(before, starts, segments, k, parsed) && k >= 0 && ParseCommand(segments[k]) == Some(c)
    requires |after| == |before|
    requires forall j :: 0 <= j < |after| && !(starts[k] <= j < EndOf(before, starts[k])) ==> after[j] == before[j]
    ensures Remaining(after, starts, segments, k - 1, [c] + parsed)
  {
    hide CString, IsTerminated, EndOf, ParseCommand;
    forall j | 0 <= j < k
      ensures IsTerminated(after, starts[j]) && CString(after, starts[j]) == segments[j]
      ensures EndOf(after, starts[j]) == EndOf(before, starts[j])
    {
      CStringKept(before, after, starts[j]);
    }
  }

  /** Command_Analysis of one command, and what it has come to. */
  method Analyse(a: array<char>, p: nat, argv: array<Arg>) returns (c: Command)
    requires IsTerminated(a[..], p) && argv.Length == AG_NUM
    requires ParseCommand(CString(a[..], p)).Some?
    requires |ParseCommand(CString(a[..], p)).value.args| < AG_NUM
    modifies a, argv
    ensures ParseCommand(CString(old(a[..]), p)) == Some(c)
    ensures forall j :: 0 <= j < a.Length && !(p <= j < EndOf(old(a[..]), p)) ==> a[j] == old(a[j])
  {
    hide CString, IsTerminated, ParseCommand, Filled, EndOf;
    ghost var segment := CString(a[..], p);
    NoFile(segment);
    var _, kind, file := CommandAnalysis(a, p, argv);
    var args := ReadVector(a, argv, ParseCommand(segment).value.args);
    return Command(args, kind, if kind.NONE_REDIR? then "" else CString(a[..], file));
  }

  /** Every segment of the line has a command that fits the vector. */
  predicate AllParse(segments: seq<string>) {
    forall k :: 0 <= k < |segments| ==>
      var c := ParseCommand(segments[k]); c.Some? && |c.value.args| < AG_NUM
  }

  /** The commands stored at `commands`, from the last one on, and at last the one at the start of the buffer. */
  method AnalyseAll(a: array<char>, commands: array<nat>, pipes: nat, argv: array<Arg>, ghost starts: seq<nat>,
                    ghost segments: seq<string>)
    returns (parsed: seq<Command>)
    requires pipes < |starts| && pipes <= commands.Length && argv.Length == AG_NUM
    requires forall k :: 0 <= k <= pipes ==> starts[k] == if k == 0 then 0 else commands[k - 1]
    requires Remaining(a[..], starts, segments, pipes, []) && AllParse(segments)
    modifies a, argv
    ensures |parsed| == |segments| && forall k :: 0 <= k < |segments| ==> ParseCommand(segments[k]) == Some(parsed[k])
  {
    hide CString, IsTerminated, ParseCommand, EndOf, Remaining;
    parsed := [];
    for left := pipes + 1 downto 0
      invariant Remaining(a[..], starts, segments, left - 1, parsed)
    {
      ghost var before := a[..];
      var p := if left == 0 then 0 else commands[left - 1];
      LastRemaining(before, starts, segments, left, parsed);
      var c := Analyse(a, p, argv);
      OneLess(before, a[..], starts, segments, left, parsed, c);
      parsed := [c] + parsed;
    }
    NoneRemaining(a[..], starts, segments, parsed);
  }

  /**
    What the processes of a pipeline do with the line: the last command is analysed first, and the process of every
    earlier one goes on with the buffer that the later ones have cut up. Each comes to the command that the segment
    says, its vector, redirection and file name.
  */
  method ParsePipeline(a: array<char>, commands: array<nat>, argv: array<Arg>) returns (parsed: seq<Command>)
    requires IsTerminated(a[..], 0) && commands.Length == PC_NUM && argv.Length == AG_NUM
    requires CountBars(CString(a[..], 0)) <= PC_NUM && AllParse(Segments(CString(a[..], 0)))
    modifies a, commands, argv
    ensures var segments := Segments(CString(old(a[..]), 0));
      |parsed| == |segments| && forall k :: 0 <= k < |segments| ==> ParseCommand(segments[k]) == Some(parsed[k])
  {
    hide FirstOf, CString, IsTerminated, Segments, SplitBars, CountBars, ParseCommand, EndOf;
    hide Remaining, Apart, AllParse;
    ghost var segments := Segments(CString(a[..], 0));
    var pipes := PipeCheck(a, commands);
    AllRemain(a[..], commands[..pipes], segments);
    parsed := AnalyseAll(a, commands, pipes, argv, [0] + commands[..pipes], segments);
  }

  lemma AllRemain(s: seq<char>, starts: seq<nat>, segments: seq<string>)
    requires |starts| + 1 == |segments| && Apart(s, [0] + starts) && IsTerminated(s, 0) && CString(s, 0) == segments[0]
    requires forall k :: 0 <= k < |starts| ==> IsTerminated(s, starts[k]) && CString(s, starts[k]) == segments[k + 1]
    ensures Remaining(s, [0] + starts, segments, |starts|, [])
  {
    assert forall k :: 0 < k < |segments| ==> ([0] + starts)[k] == starts[k - 1];
  }

  lemma LastRemaining(s: seq<char>, starts: seq<nat>, segments: seq<string>, k: nat, parsed: seq<Command>)
    requires Remaining(s, starts, segments, k, parsed)
    ensures k < |segments| == |starts| && IsTerminated(s, starts[k]) && CString(s, starts[k]) == segments[k]
  {
  }

  lemma NoneRemaining(s: seq<char>, starts: seq<nat>, segments: seq<string>, parsed: seq<Command>)
    requires Remaining(s, starts, segments, -1, parsed)
    ensures |parsed| == |segments| && forall k :: 0 <= k < |segments| ==> ParseCommand(segments[k]) == Some(parsed[k])
  {
  }

  lemma NoFile(segment: string)
    ensures ParseCommand(segment).Some? && ParseCommand(segment).value.kind.NONE_REDIR? ==>
      ParseCommand(segment).value.file == ""
  {
  }

  /** The in-place parser undoes printing: with a printed pipeline in the buffer, it comes to the same pipeline. */
  method ParseInPlace(a: array<char>, commands: array<nat>, argv: array<Arg>, ghost cs: seq<Command>,
                      ghost ls: seq<Layout>)
    returns (parsed: seq<Command>)
    requires commands.Length == PC_NUM && argv.Length == AG_NUM
    requires 0 < |cs| <= PC_NUM + 1 && forall j :: 0 <= j < |cs| ==> IsPrintable(cs[j]) && |cs[j].args| < AG_NUM
    requires AreLayouts(cs, ls) && IsTerminated(a[..], 0) && CString(a[..], 0) == PrintLine(cs, ls)
    modifies a, commands, argv
    ensures parsed == cs
  {
    hide FirstOf, CString, IsTerminated, Segments, SplitBars, PrintLine, ParseCommand, EndOf;
    ParsePrint(cs, ls);
    parsed := ParsePipeline(a, commands, argv);
  }
}
