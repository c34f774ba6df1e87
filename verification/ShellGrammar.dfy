/** The command lines of pipe_t/MyShell and redirection/MyShell, as strings: bars, redirection, words, and printing. */
module ShellGrammar {
  import opened Workers

  const NUL := '\0'
  const PC_NUM := 64   // room for commands after the first one
  const AG_NUM := 64   // room for arguments, the closing null pointer included

  /** isspace */
  predicate IsBlank(c: char) {
    c == ' ' || '\t' <= c <= '\r'
  }

  lemma BlanksAre(c: char)
    ensures IsBlank(c) <==> c as int in {0x20, 0x09, 0x0a, 0x0b, 0x0c, 0x0d}
  {
  }

  function TrimLeft(s: string): (r: string)
    ensures |r| <= |s|
  {
    if s != "" && IsBlank(s[0]) then TrimLeft(s[1..]) else s
  }

  lemma {:induction false} TrimLeftMeans(s: string)
    ensures var r := TrimLeft(s);
      s[|s| - |r|..] == r && (r != "" ==> !IsBlank(r[0])) && forall i :: 0 <= i < |s| - |r| ==> IsBlank(s[i])
  {
    if s != "" && IsBlank(s[0]) {
      TrimLeftMeans(s[1..]);
    }
  }

  lemma TrimLeftUnique(s: string, k: nat)
    requires k <= |s| && (forall i :: 0 <= i < k ==> IsBlank(s[i])) && (k < |s| ==> !IsBlank(s[k]))
    ensures TrimLeft(s) == s[k..]
  {
    if k > 0 {
      TrimLeftUnique(s[1..], k - 1);
    }
  }

  // ---------------------------------------------------------------- bars

  /** What a scan looks for. */
  datatype Stop = Bar | Sign | Blank | Terminator

  predicate Stops(stop: Stop, c: char) {
    match stop
    case Bar => c == '|'
    case Sign => c == '<' || c == '>'
    case Blank => c == ' '
    case Terminator => c == NUL
  }

  /** The first place at or after i where the scan stops, or the length of the line. */
  function FirstOf(s: string, stop: Stop, i: nat): (r: nat)
    requires i <= |s|
    ensures i <= r <= |s|
    decreases |s| - i
  {
    if i == |s| || Stops(stop, s[i]) then i else FirstOf(s, stop, i + 1)
  }

  lemma {:induction false} FirstOfMeans(s: string, stop: Stop, i: nat)
    requires i <= |s|
    ensures var r := FirstOf(s, stop, i);
      (r < |s| ==> Stops(stop, s[r])) && forall j :: i <= j < r ==> !Stops(stop, s[j])
    decreases |s| - i
  {
    if i < |s| && !Stops(stop, s[i]) {
      FirstOfMeans(s, stop, i + 1);
    }
  }

  lemma FirstOfIs(s: string, stop: Stop, i: nat, r: nat)
    requires i <= r <= |s| && (r < |s| ==> Stops(stop, s[r])) && forall j :: i <= j < r ==> !Stops(stop, s[j])
    ensures FirstOf(s, stop, i) == r
    decreases r - i
  {
    if i < r {
      FirstOfIs(s, stop, i + 1, r);
    }
  }

  predicate Lacks(s: string, stop: Stop) {
    forall i :: 0 <= i < |s| ==> !Stops(stop, s[i])
  }

  lemma CutAfter(a: string, b: string, k: nat)
    requires k <= |b|
    ensures (a + b)[..|a|] == a && (a + b)[|a| + k..] == b[k..]
  {
  }

  /** The pieces between the bars of the line, as they are. */
  function SplitBars(s: string): (r: seq<string>)
    ensures |r| > 0
    decreases |s|
  {
    var e := FirstOf(s, Bar, 0);
    if e == |s| then [s] else [s[..e]] + SplitBars(s[e + 1..])
  }

  function JoinBars(pieces: seq<string>): string
    requires |pieces| > 0
  {
    if |pieces| == 1 then pieces[0] else pieces[0] + "|" + JoinBars(pieces[1..])
  }

  function CountBars(s: string): nat {
    |SplitBars(s)| - 1
  }

  /** Splitting is the one way to cut the line at its bars: no piece has a bar, and the pieces make up the line. */
  lemma {:induction false} SplitJoin(s: string)
    ensures JoinBars(SplitBars(s)) == s
    ensures forall k :: 0 <= k < |SplitBars(s)| ==> Lacks(SplitBars(s)[k], Bar)
    decreases |s|
  {
    var e := FirstOf(s, Bar, 0);
    FirstOfMeans(s, Bar, 0);
    if e < |s| {
      SplitJoin(s[e + 1..]);
      assert SplitBars(s)[1..] == SplitBars(s[e + 1..]);
      assert s == s[..e] + "|" + s[e + 1..];
      forall k | 0 <= k < |SplitBars(s)|
        ensures Lacks(SplitBars(s)[k], Bar)
      {
        if k > 0 {
          assert SplitBars(s)[k] == SplitBars(s[e + 1..])[k - 1];
        }
      }
    }
  }

  lemma {:induction false} JoinSplit(pieces: seq<string>)
    requires |pieces| > 0 && forall k :: 0 <= k < |pieces| ==> Lacks(pieces[k], Bar)
    ensures SplitBars(JoinBars(pieces)) == pieces
  {
    var first := pieces[0];
    assert Lacks(first, Bar);
    if |pieces| == 1 {
      FirstOfIs(first, Bar, 0, |first|);
    } else {
      var tail := JoinBars(pieces[1..]);
      var s := first + "|" + tail;
      FirstOfIs(s, Bar, 0, |first|);
      CutAfter(first + "|", tail, 0);
      CutAfter(first, "|", 0);
      assert s[..|first|] == (first + "|")[..|first|];
      JoinSplit(pieces[1..]);
      assert pieces == [first] + pieces[1..];
    }
  }

  /** Pipe_Check's view of the line: every piece but the first loses its leading blanks. */
  function Segments(s: string): (r: seq<string>)
    ensures |r| == |SplitBars(s)|
    ensures r[0] == SplitBars(s)[0]
    ensures forall k :: 0 < k < |r| ==> r[k] == TrimLeft(SplitBars(s)[k])
  {
    var pieces := SplitBars(s);
    seq(|pieces|, k requires 0 <= k < |pieces| => if k == 0 then pieces[0] else TrimLeft(pieces[k]))
  }

  // ---------------------------------------------------------------- redirection

  datatype Redir = NONE_REDIR | INIPUT_REDIR | OUTPUT_REDIR | APPEND_REDIR

  /** What Redir_Check makes of a command: the part before the sign, the kind, and the file name. */
  datatype Redirected = Redirected(command: string, kind: Redir, file: string)

  function ParseRedir(s: string): Redirected {
    CutAtSign(s, FirstOf(s, Sign, 0))
  }

  /** The parts of a command whose first sign is at e, or that has none. */
  function CutAtSign(s: string, e: nat): (r: Redirected)
    requires e <= |s|
    ensures r.command == s[..e]
  {
    if e == |s| then Redirected(s, NONE_REDIR, "")
    else if s[e] == '<' then Redirected(s[..e], INIPUT_REDIR, TrimLeft(s[e + 1..]))
    else if e + 1 < |s| && s[e + 1] == '>' then Redirected(s[..e], APPEND_REDIR, TrimLeft(s[e + 2..]))
    else Redirected(s[..e], OUTPUT_REDIR, TrimLeft(s[e + 1..]))
  }

  // ---------------------------------------------------------------- words

  /** What strtok(s, " ") and strtok(NULL, " ") return one after the other. */
  function Words(s: string): seq<string>
    decreases |s|
  {
    if s == "" then []
    else if s[0] == ' ' then Words(s[1..])
    else
      var e := FirstOf(s, Blank, 0);
      [s[..e]] + Words(s[e..])
  }

  lemma {:induction false} WordsSkip(s: string, k: nat)
    requires k <= |s| && forall j :: 0 <= j < k ==> s[j] == ' '
    ensures Words(s) == Words(s[k..])
    decreases k
  {
    if k == 0 {
      assert s[0..] == s;
    } else {
      WordsSkip(s[1..], k - 1);
      assert s[1..][k - 1..] == s[k..];
    }
  }

  /** The argument vector of Command_Analysis: ll and ls get extra arguments. */
  function Arguments(words: seq<string>): seq<string>
    requires |words| > 0
  {
    if words[0] == "ll" then ["ls", "-l", "--color=auto"] + words[1..]
    else if words[0] == "ls" then ["ls", "--color=auto"] + words[1..]
    else words
  }

  // ---------------------------------------------------------------- printing

  datatype Command = Command(args: seq<string>, kind: Redir, file: string)

  predicate IsPlainChar(c: char) {
    !IsBlank(c) && !Stops(Bar, c) && !Stops(Sign, c) && !Stops(Terminator, c)
  }

  /** No blank, no sign of the shell, no string terminator. */
  predicate IsPlain(word: string) {
    word != "" && forall i :: 0 <= i < |word| ==> IsPlainChar(word[i])
  }

  predicate IsPrintable(c: Command) {
    && |c.args| > 0 && (forall k :: 0 <= k < |c.args| ==> IsPlain(c.args[k]))
    && c.args[0] != "ll" && c.args[0] != "ls" && c.args[0] != "cd"
    && (if c.kind.NONE_REDIR? then c.file == "" else IsPlain(c.file))
  }

  // The blanks of a printed command are free, within the limits of IsLayout.

  /** Blanks before the command, after each of its words, and after the redirection sign. */
  datatype Layout = Layout(lead: string, gaps: seq<string>, after: string)

  predicate AllSpaces(s: string) {
    forall i :: 0 <= i < |s| ==> s[i] == ' '
  }

  predicate AllBlank(s: string) {
    forall i :: 0 <= i < |s| ==> IsBlank(s[i])
  }

  /** Words are parted by at least one space; behind the last one, before a sign or a bar, there need not be any. */
  predicate AreGaps(words: seq<string>, gaps: seq<string>) {
    && |gaps| == |words|
    && forall k :: 0 <= k < |gaps| ==> AllSpaces(gaps[k]) && (k < |gaps| - 1 ==> gaps[k] != "")
  }

  /** Any blank may stand after a bar or a sign, and only spaces between words and before the first command. */
  predicate IsLayout(c: Command, l: Layout, first: bool) {
    AreGaps(c.args, l.gaps) && AllBlank(l.after) && if first then AllSpaces(l.lead) else AllBlank(l.lead)
  }

  function PrintWords(words: seq<string>, gaps: seq<string>): string
    requires |gaps| == |words|
  {
    if words == [] then "" else words[0] + gaps[0] + PrintWords(words[1..], gaps[1..])
  }

  function PrintSign(kind: Redir): string {
    match kind
    case NONE_REDIR => ""
    case INIPUT_REDIR => "<"
    case OUTPUT_REDIR => ">"
    case APPEND_REDIR => ">>"
  }

  function PrintRedir(kind: Redir, after: string, file: string): string {
    if kind.NONE_REDIR? then "" else PrintSign(kind) + (after + file)
  }

  /** "word word >> file"; nothing follows the file name. */
  function PrintCommand(c: Command, l: Layout): string
    requires |l.gaps| == |c.args|
  {
    PrintWords(c.args, l.gaps) + PrintRedir(c.kind, l.after, c.file)
  }

  predicate AreLayouts(cs: seq<Command>, ls: seq<Layout>)
    ensures AreLayouts(cs, ls) ==> |ls| == |cs| && forall k :: 0 <= k < |cs| ==> |ls[k].gaps| == |cs[k].args|
  {
    |ls| == |cs| && forall k :: 0 <= k < |cs| ==> IsLayout(cs[k], ls[k], k == 0)
  }

  function Pieces(cs: seq<Command>, ls: seq<Layout>): (r: seq<string>)
    requires AreLayouts(cs, ls)
    ensures |r| == |cs|
  {
    seq(|cs|, k requires 0 <= k < |cs| => ls[k].lead + PrintCommand(cs[k], ls[k]))
  }

  function PrintLine(cs: seq<Command>, ls: seq<Layout>): string
    requires |cs| > 0 && AreLayouts(cs, ls)
  {
    JoinBars(Pieces(cs, ls))
  }

  /** What the shell understands of one segment. */
  function ParseCommand(segment: string): Option<Command> {
    var r := ParseRedir(segment);
    var words := Words(r.command);
    if words == [] then None else Some(Command(Arguments(words), r.kind, r.file))
  }

  lemma {:induction false} PrintedWordsArePlain(words: seq<string>, gaps: seq<string>)
    requires AreGaps(words, gaps) && forall k :: 0 <= k < |words| ==> IsPlain(words[k])
    ensures var text := PrintWords(words, gaps);
      && (forall i :: 0 <= i < |text| ==> text[i] == ' ' || IsPlainChar(text[i]))
      && (words != [] ==> text != "" && !IsBlank(text[0]))
  {
    if words != [] {
      PrintedWordsArePlain(words[1..], gaps[1..]);
      assert IsPlain(words[0]) && AllSpaces(gaps[0]);
    }
  }

  lemma WordThenRest(w: string, gap: string, rest: string)
    requires IsPlain(w) && AllSpaces(gap) && (gap != "" || rest == "")
    ensures Words(w + gap + rest) == [w] + Words(rest)
  {
    var s := w + gap + rest;
    FirstOfIs(s, Blank, 0, |w|);
    assert s[..|w|] == w && s[|w|..] == gap + rest;
    WordsSkip(gap + rest, |gap|);
    assert (gap + rest)[|gap|..] == rest;
  }

  lemma {:induction false} WordsOfPrinted(words: seq<string>, gaps: seq<string>)
    requires AreGaps(words, gaps) && forall k :: 0 <= k < |words| ==> IsPlain(words[k])
    ensures Words(PrintWords(words, gaps)) == words
  {
    hide Words;
    if words == [] {
      NoWords();
    } else {
      WordThenRest(words[0], gaps[0], PrintWords(words[1..], gaps[1..]));
      WordsOfPrinted(words[1..], gaps[1..]);
      assert words == [words[0]] + words[1..];
    }
  }

  lemma NoWords()
    ensures Words("") == []
  {
  }

  /** Any text is the print of its words: parted by spaces, and none of them empty or with a space in it. */
  lemma {:induction false} WordsCover(s: string) returns (lead: string, gaps: seq<string>)
    ensures AllSpaces(lead) && AreGaps(Words(s), gaps) && s == lead + PrintWords(Words(s), gaps)
    ensures forall k :: 0 <= k < |Words(s)| ==> Words(s)[k] != "" && Lacks(Words(s)[k], Blank)
    decreases |s|
  {
    if s == "" {
      lead, gaps := "", [];
    } else if s[0] == ' ' {
      lead, gaps := WordsCover(s[1..]);
      LeadGrows(s, lead, PrintWords(Words(s), gaps));
      lead := " " + lead;
    } else {
      var e := FirstOf(s, Blank, 0);
      FirstOfMeans(s, Blank, 0);
      var gap, rest := WordsCover(s[e..]);
      lead, gaps := WordBefore(s, e, gap, rest);
    }
  }

  lemma LeadGrows(s: string, lead: string, text: string)
    requires s != "" && s[0] == ' ' && s[1..] == lead + text && AllSpaces(lead)
    ensures s == (" " + lead) + text && AllSpaces(" " + lead)
  {
    assert s == [s[0]] + s[1..];
  }

  lemma WordBefore(s: string, e: nat, gap: string, rest: seq<string>) returns (lead: string, gaps: seq<string>)
    requires 0 < e <= |s| && Lacks(s[..e], Blank) && Words(s) == [s[..e]] + Words(s[e..]) && (e < |s| ==> s[e] == ' ')
    requires AllSpaces(gap) && AreGaps(Words(s[e..]), rest) && s[e..] == gap + PrintWords(Words(s[e..]), rest)
    requires forall k :: 0 <= k < |Words(s[e..])| ==> Words(s[e..])[k] != "" && Lacks(Words(s[e..])[k], Blank)
    ensures AllSpaces(lead) && AreGaps(Words(s), gaps) && s == lead + PrintWords(Words(s), gaps)
    ensures forall k :: 0 <= k < |Words(s)| ==> Words(s)[k] != "" && Lacks(Words(s)[k], Blank)
  {
    hide Words;
    var words := Words(s[e..]);
    lead, gaps := "", [gap] + rest;
    var text := PrintWords(words, rest);
    if words != [] {
      PrintBegins(words, rest);
      GapBetween(s[e..], gap, text);
    }
    assert Words(s)[1..] == words && gaps[1..] == rest;
    assert s == s[..e] + s[e..];
    assert s[..e] + gap + text == s[..e] + (gap + text);
    assert "" + s == s;
  }

  lemma GapBetween(s: string, gap: string, text: string)
    requires s == gap + text && s != "" && s[0] == ' ' && text != "" && text[0] != ' '
    ensures gap != ""
  {
  }

  lemma PrintBegins(words: seq<string>, gaps: seq<string>)
    requires words != [] && |gaps| == |words| && words[0] != "" && Lacks(words[0], Blank)
    ensures PrintWords(words, gaps) != "" && PrintWords(words, gaps)[0] != ' '
  {
    assert !Stops(Blank, words[0][0]);
  }

  lemma RedirAt(words: string, rest: string)
    requires forall i :: 0 <= i < |words| ==> !Stops(Sign, words[i])
    requires rest != "" && Stops(Sign, rest[0])
    ensures ParseRedir(words + rest) ==
      if rest[0] == '<' then Redirected(words, INIPUT_REDIR, TrimLeft(rest[1..]))
      else if |rest| > 1 && rest[1] == '>' then Redirected(words, APPEND_REDIR, TrimLeft(rest[2..]))
      else Redirected(words, OUTPUT_REDIR, TrimLeft(rest[1..]))
  {
    var s := words + rest;
    FirstOfIs(s, Sign, 0, |words|);
    CutAfter(words, rest, 1);
    if |rest| > 1 {
      CutAfter(words, rest, 2);
      assert s[|words| + 1] == rest[1];
    }
  }

  lemma TrimBlanks(blanks: string, text: string)
    requires AllBlank(blanks) && text != "" && !IsBlank(text[0])
    ensures TrimLeft(blanks + text) == text
  {
    TrimLeftUnique(blanks + text, |blanks|);
    CutAfter(blanks, text, 0);
  }

  /** The redirection sign, the blanks after it and the text behind them, which may end in blanks, are found. */
  lemma RedirOfPrinted(words: string, kind: Redir, after: string, file: string)
    requires forall i :: 0 <= i < |words| ==> !Stops(Sign, words[i])
    requires if kind.NONE_REDIR? then file == ""
             else file != "" && !IsBlank(file[0]) && !Stops(Sign, file[0]) && AllBlank(after)
    ensures ParseRedir(words + PrintRedir(kind, after, file)) == Redirected(words, kind, file)
  {
    if kind.NONE_REDIR? {
      assert words + "" == words;
      FirstOfIs(words, Sign, 0, |words|);
    } else {
      RedirAt(words, PrintRedir(kind, after, file));
      TrimBlanks(after, file);
      CutAfter(PrintSign(kind), after + file, 0);
      assert (after + file)[0..] == after + file;
      assert !Stops(Sign, (after + file)[0]);
    }
  }

  /** A printed command is understood, with spaces before it as well. */
  lemma ParsePrintedCommand(c: Command, l: Layout, lead: string)
    requires IsPrintable(c) && AreGaps(c.args, l.gaps) && AllBlank(l.after) && AllSpaces(lead)
    ensures ParseCommand(lead + PrintCommand(c, l)) == Some(c)
  {
    hide FirstOf, TrimLeft, Words, ParseRedir, PrintWords, PrintRedir;
    var words := PrintWords(c.args, l.gaps);
    PrintedWordsArePlain(c.args, l.gaps);
    assert c.kind.NONE_REDIR? || IsPlain(c.file);
    RedirOfPrinted(lead + words, c.kind, l.after, c.file);
    assert lead + PrintCommand(c, l) == (lead + words) + PrintRedir(c.kind, l.after, c.file);
    WordsSkip(lead + words, |lead|);
    assert (lead + words)[|lead|..] == words;
    WordsOfPrinted(c.args, l.gaps);
  }

  lemma PrintedCommandIsPlain(c: Command, l: Layout)
    requires IsPrintable(c) && AreGaps(c.args, l.gaps) && AllBlank(l.after)
    ensures Lacks(PrintCommand(c, l), Bar) && Lacks(PrintCommand(c, l), Terminator)
    ensures PrintCommand(c, l) != "" && !IsBlank(PrintCommand(c, l)[0])
  {
    PrintedWordsArePlain(c.args, l.gaps);
    assert c.kind.NONE_REDIR? || IsPlain(c.file);
  }

  lemma ParsePrintedPiece(c: Command, l: Layout, first: bool)
    requires IsPrintable(c) && IsLayout(c, l, first)
    ensures var piece := l.lead + PrintCommand(c, l);
      && Lacks(piece, Bar) && Lacks(piece, Terminator)
      && ParseCommand(if first then piece else TrimLeft(piece)) == Some(c)
  {
    hide ParseCommand, PrintCommand;
    PrintedCommandIsPlain(c, l);
    if first {
      ParsePrintedCommand(c, l, l.lead);
    } else {
      TrimBlanks(l.lead, PrintCommand(c, l));
      ParsePrintedCommand(c, l, "");
      assert "" + PrintCommand(c, l) == PrintCommand(c, l);
    }
  }

  /**
    Printing a pipeline with any blanks and parsing the line gives the pipeline back: commands, arguments, redirections
    and file names.
  */
  lemma ParsePrint(cs: seq<Command>, ls: seq<Layout>)
    requires |cs| > 0 && AreLayouts(cs, ls) && forall k :: 0 <= k < |cs| ==> IsPrintable(cs[k])
    ensures var segments := Segments(PrintLine(cs, ls));
      |segments| == |cs| && forall k :: 0 <= k < |cs| ==> ParseCommand(segments[k]) == Some(cs[k])
    ensures Lacks(PrintLine(cs, ls), Terminator)
  {
    hide ParseCommand, IsPrintable, IsLayout, SplitBars, PrintCommand;
    var pieces := Pieces(cs, ls);
    forall k | 0 <= k < |cs|
      ensures Lacks(pieces[k], Bar) && Lacks(pieces[k], Terminator)
      ensures ParseCommand(if k == 0 then pieces[k] else TrimLeft(pieces[k])) == Some(cs[k])
    {
      ParsePrintedPiece(cs[k], ls[k], k == 0);
    }
    JoinSplit(pieces);
    JoinHasNoNul(pieces);
  }

  lemma {:induction false} JoinHasNoNul(pieces: seq<string>)
    requires |pieces| > 0 && forall k :: 0 <= k < |pieces| ==> Lacks(pieces[k], Terminator)
    ensures Lacks(JoinBars(pieces), Terminator)
  {
    assert Lacks(pieces[0], Terminator);
    if |pieces| > 1 {
      JoinHasNoNul(pieces[1..]);
    }
  }

  /** Spaces behind the last word widen the last gap. */
  lemma {:induction false} WidenLast(words: seq<string>, gaps: seq<string>, spaces: string)
    requires words != [] && AreGaps(words, gaps) && AllSpaces(spaces)
    ensures var wider := gaps[|gaps| - 1 := gaps[|gaps| - 1] + spaces];
      AreGaps(words, wider) && PrintWords(words, wider) == PrintWords(words, gaps) + spaces
  {
    var wider := gaps[|gaps| - 1 := gaps[|gaps| - 1] + spaces];
    assert AllSpaces(gaps[|gaps| - 1] + spaces);
    if |words| > 1 {
      WidenLast(words[1..], gaps[1..], spaces);
      assert wider[1..] == gaps[1..][|gaps| - 2 := gaps[1..][|gaps| - 2] + spaces];
    }
  }

  /**
    Spaces behind a command, as before a bar, are harmless exactly when nothing is redirected: otherwise they become
    part of the file name.
  */
  lemma BlankAfterCommand(c: Command, l: Layout, spaces: string)
    requires IsPrintable(c) && AreGaps(c.args, l.gaps) && AllBlank(l.after) && AllSpaces(spaces) && spaces != ""
    ensures ParseCommand(PrintCommand(c, l) + spaces) == Some(c) <==> c.kind.NONE_REDIR?
    ensures !c.kind.NONE_REDIR? ==> ParseCommand(PrintCommand(c, l) + spaces) == Some(c.(file := c.file + spaces))
  {
    var words := PrintWords(c.args, l.gaps);
    if c.kind.NONE_REDIR? {
      WidenLast(c.args, l.gaps, spaces);
      var wider := l.(gaps := l.gaps[|l.gaps| - 1 := l.gaps[|l.gaps| - 1] + spaces]);
      ParsePrintedCommand(c, wider, "");
      assert PrintCommand(c, l) + spaces == "" + PrintCommand(c, wider);
    } else {
      PrintedWordsArePlain(c.args, l.gaps);
      WordsOfPrinted(c.args, l.gaps);
      RedirOfPrinted(words, c.kind, l.after, c.file + spaces);
      assert PrintCommand(c, l) + spaces == words + PrintRedir(c.kind, l.after, c.file + spaces);
      assert |c.file + spaces| > |c.file|;
    }
  }
}
