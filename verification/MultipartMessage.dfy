// What the automaton makes of a multipart message (section 5.1.1 of RFC 2046): no byte is lost
// while it withholds, and the parts come out as they were put in exactly when none of them
// contains a delimiter line of its own.
module MultipartMessage {
  import opened BoundaryAutomaton
  import opened OutsideParts

  // A complete delimiter has been recognised on this line.
  predicate Committed(boundary: string, c: Config) {
    match c.state
    case SeenDoubleDash => c.matched == |boundary|
    case SeenDelimiterNonterminal | SeenDelimiterNonterminalCR | SeenDelimiterDash => true
    case SeenDelimiterTerminal | SeenDelimiterTerminalCR => true
    case _ => false
  }

  // The bytes taken in but not passed on.
  function Withheld(boundary: string, c: Config): string
    requires Wf(boundary, c)
  {
    match c.state
    case StartOfLine => KeptBytes(c)
    case SeenDash => KeptBytes(c) + "-"
    case SeenDoubleDash => KeptBytes(c) + Delimiter(boundary)[..c.matched + 2]
    case SeenNothing => ""
    case SeenCR => [CR]
    case _ => KeptBytes(c) + Delimiter(boundary)
  }

  // Where things would stand had nothing been withheld.
  function Flushed(boundary: string, c: Config): Config
    requires Wf(boundary, c)
  {
    Put(c, Withheld(boundary, c)).(state := SeenNothing, keptcrlf := false, matched := 0)
  }

  lemma FlushedText(boundary: string, c: Config, ch: char)
    requires (c.open ==> c.parts != []) && !c.keptcrlf
    ensures Wf(boundary, Text(c, ch))
    ensures Flushed(boundary, Text(c, ch)) == Put(c, [ch]).(state := SeenNothing, matched := 0)
  {
    PutNothing(Put(c, [ch]));
  }

  lemma FlushedNotDelimiter(boundary: string, c: Config, extra: nat, ch: char)
    requires Wf(boundary, c) && extra <= |boundary| + 2
    requires Withheld(boundary, c) == KeptBytes(c) + Delimiter(boundary)[..extra]
    ensures Wf(boundary, NotDelimiter(boundary, c, extra, ch))
    ensures Flushed(boundary, NotDelimiter(boundary, c, extra, ch)) == Put(Flushed(boundary, c), [ch])
  {
    var w := Withheld(boundary, c);
    PutPut(c, w, [ch]);
    FlushedText(boundary, Put(c, w).(keptcrlf := false), ch);
  }

  // The character joins what is withheld.
  lemma FlushedOneMore(boundary: string, c: Config, d: Config, ch: char)
    requires Wf(boundary, c) && Wf(boundary, d) && d.open == c.open && d.parts == c.parts
    requires Withheld(boundary, d) == Withheld(boundary, c) + [ch]
    ensures Flushed(boundary, d) == Put(Flushed(boundary, c), [ch])
  {
    PutPut(c, Withheld(boundary, c), [ch]);
  }

  // Every character is either passed on or withheld, and in the order received.
  lemma FlushedStep(boundary: string, c: Config, ch: char)
    requires Wf(boundary, c) && !Committed(boundary, c)
    ensures Flushed(boundary, Step(boundary, c, ch)) == Put(Flushed(boundary, c), [ch])
  {
    var w, d := Withheld(boundary, c), Step(boundary, c, ch);
    var matched := if c.state == SeenDoubleDash then c.matched + 2 else if c.state == SeenDash then 1 else 0;
    DelimiterPrefixes(boundary, matched);
    match c.state
    case StartOfLine | SeenDash | SeenDoubleDash =>
      assert w == KeptBytes(c) + Delimiter(boundary)[..matched];
      if ch == Delimiter(boundary)[matched] {
        FlushedOneMore(boundary, c, d, ch);
      } else {
        FlushedNotDelimiter(boundary, c, matched, ch);
      }
    case SeenCR =>
      if ch == LF {
        FlushedOneMore(boundary, c, d, ch);
      } else {
        PutPut(c, w, [ch]);
        FlushedText(boundary, Put(c, w), ch);
      }
    case SeenNothing =>
      PutNothing(c);
      FlushedText(boundary, c, ch);
  }

  lemma DelimiterPrefixes(boundary: string, k: nat)
    requires k < |Delimiter(boundary)|
    ensures Delimiter(boundary)[..0] == "" && Delimiter(boundary)[..1] == "-" && Delimiter(boundary)[..2] == "--"
    ensures Delimiter(boundary)[..k + 1] == Delimiter(boundary)[..k] + [Delimiter(boundary)[k]]
    ensures if k < 2 then Delimiter(boundary)[k] == '-' else Delimiter(boundary)[k] == boundary[k - 2]
  {
  }

  // ---------------------------------------------------------------------------------------------
  // Conservation over whole runs.

  // A run that remembers where things stood when the last delimiter line ended, and the bytes
  // received since, up to and including the next delimiter.
  datatype Watched = Watched(c: Config, base: Config, received: string)

  function Watch(boundary: string, w: Watched, ch: char): Watched
    requires Wf(boundary, w.c)
  {
    var c := Step(boundary, w.c, ch);
    if !Committed(boundary, w.c) then Watched(c, w.base, w.received + [ch])
    else if Committed(boundary, c) then Watched(c, w.base, w.received)
    else Watched(c, c, "")
  }

  function WatchAll(boundary: string, w: Watched, b: string): (r: Watched)
    requires Wf(boundary, w.c)
    ensures r.c == Run(boundary, w.c, b)
    decreases |b|
  {
    if b == "" then w else WatchAll(boundary, Watch(boundary, w, b[0]), b[1..])
  }

  ghost predicate Conserved(boundary: string, w: Watched)
    requires Wf(boundary, w.c)
  {
    && (w.base.open ==> w.base.parts != [])
    && Flushed(boundary, w.c) == Put(w.base, w.received).(state := SeenNothing, keptcrlf := false, matched := 0)
  }

  lemma CommittedStep(boundary: string, c: Config, ch: char)
    requires Wf(boundary, c) && Committed(boundary, c)
    ensures var d := Step(boundary, c, ch);
      if Committed(boundary, d) then Flushed(boundary, d) == Flushed(boundary, c)
      else d == Process(c, c.state == SeenDelimiterTerminalCR)
  {
    assert Delimiter(boundary)[..|boundary| + 2] == Delimiter(boundary);
    assert Withheld(boundary, c) == KeptBytes(c) + Delimiter(boundary);
    var d := Step(boundary, c, ch);
    assert Committed(boundary, d) ==> Withheld(boundary, d) == KeptBytes(c) + Delimiter(boundary);
  }

  lemma {:induction false} NothingIsLost(boundary: string, w: Watched, b: string)
    requires Wf(boundary, w.c) && Conserved(boundary, w)
    ensures Conserved(boundary, WatchAll(boundary, w, b))
    decreases |b|
  {
    if b != "" {
      var c, d := w.c, Step(boundary, w.c, b[0]);
      if Committed(boundary, c) {
        CommittedStep(boundary, c, b[0]);
        PutNothing(d);
      } else {
        FlushedStep(boundary, c, b[0]);
        PutPut(w.base, w.received, [b[0]]);
      }
      NothingIsLost(boundary, Watch(boundary, w, b[0]), b[1..]);
    }
  }

  // ---------------------------------------------------------------------------------------------
  // Which lines are delimiters.

  ghost predicate OccursAt(s: string, t: string, i: int) {
    0 <= i <= |s| - |t| && s[i..i + |t|] == t
  }

  // p has no line that begins with the delimiter.
  ghost predicate Clean(boundary: string, p: string) {
    forall i :: !OccursAt(NL + p, NL + Delimiter(boundary), i)
  }

  ghost predicate EndsWith(s: string, t: string) {
    OccursAt(s, t, |s| - |t|)
  }

  function MatchedSoFar(c: Config): nat {
    if c.state == SeenDoubleDash then c.matched + 2 else if c.state == SeenDash then 1 else 0
  }

  // The state tells how the bytes received since the start of the first line end.
  ghost predicate Tail(boundary: string, c: Config, h: string)
    requires Wf(boundary, c)
  {
    match c.state
    case StartOfLine | SeenDash | SeenDoubleDash =>
      EndsWith(NL + h, NL + Delimiter(boundary)[..MatchedSoFar(c)])
    case SeenCR => EndsWith(h, [CR])
    case _ => true
  }

  lemma ExtendEnd(s: string, t: string, ch: char)
    requires EndsWith(s, t)
    ensures EndsWith(s + [ch], t + [ch])
  {
    var i := |s| - |t|;
    assert (s + [ch])[i..] == s[i..] + [ch];
  }

  // How a step that keeps the line open moves the match along.
  ghost predicate Advances(boundary: string, c: Config, d: Config, ch: char) {
    match d.state
    case StartOfLine => c.state == SeenCR && ch == LF
    case SeenDash | SeenDoubleDash =>
      && (c.state == StartOfLine || c.state == SeenDash || c.state == SeenDoubleDash)
      && MatchedSoFar(c) < |Delimiter(boundary)| && ch == Delimiter(boundary)[MatchedSoFar(c)]
      && MatchedSoFar(d) == MatchedSoFar(c) + 1
    case SeenCR => ch == CR
    case _ => d.state == SeenNothing
  }

  lemma StepAdvances(boundary: string, c: Config, ch: char)
    requires Wf(boundary, c) && !Committed(boundary, c)
    ensures Advances(boundary, c, Step(boundary, c, ch), ch)
  {
  }

  lemma TailStep(boundary: string, c: Config, d: Config, h: string, ch: char)
    requires Wf(boundary, c) && Wf(boundary, d) && Advances(boundary, c, d, ch) && Tail(boundary, c, h)
    ensures Tail(boundary, d, h + [ch])
  {
    match d.state
    case StartOfLine => LineEnd(boundary, h);
    case SeenDash | SeenDoubleDash => MatchedOneMore(boundary, h, MatchedSoFar(c), ch);
    case SeenCR => assert (h + [ch])[|h|..] == [CR];
    case _ =>
  }

  lemma LineEnd(boundary: string, h: string)
    requires EndsWith(h, [CR])
    ensures EndsWith(NL + (h + [LF]), NL + Delimiter(boundary)[..0])
  {
    ExtendEnd(h, [CR], LF);
    assert [CR] + [LF] == NL == NL + Delimiter(boundary)[..0];
    EndOfConcat(NL, h + [LF], NL);
  }

  lemma EndOfConcat(a: string, b: string, t: string)
    requires EndsWith(b, t)
    ensures EndsWith(a + b, t)
  {
    assert (a + b)[|a + b| - |t|..] == b[|b| - |t|..];
  }

  lemma MatchedOneMore(boundary: string, h: string, k: nat, ch: char)
    requires k < |Delimiter(boundary)| && ch == Delimiter(boundary)[k]
    requires EndsWith(NL + h, NL + Delimiter(boundary)[..k])
    ensures EndsWith(NL + (h + [ch]), NL + Delimiter(boundary)[..k + 1])
  {
    ExtendEnd(NL + h, NL + Delimiter(boundary)[..k], ch);
    DelimiterPrefixes(boundary, k);
    assert NL + Delimiter(boundary)[..k] + [ch] == NL + Delimiter(boundary)[..k + 1];
    assert NL + h + [ch] == NL + (h + [ch]);
  }

  lemma EndOccurs(s: string, t: string, rest: string)
    requires EndsWith(s, t)
    ensures OccursAt(s + rest, t, |s| - |t|)
  {
    var i := |s| - |t|;
    assert (s + rest)[i..i + |t|] == s[i..];
  }

  lemma CommittedIsFound(boundary: string, d: Config, h: string, rest: string)
    requires Wf(boundary, d) && Tail(boundary, d, h) && d.state == SeenDoubleDash && Committed(boundary, d)
    ensures !Clean(boundary, h + rest)
  {
    assert Delimiter(boundary)[..|boundary| + 2] == Delimiter(boundary);
    EndOccurs(NL + h, NL + Delimiter(boundary), rest);
    assert NL + h + rest == NL + (h + rest);
  }

  // Text without a delimiter line goes through: h has, and p is what is left of it.
  lemma {:induction false} Scan(boundary: string, c: Config, h: string, p: string, text: string)
    requires Wf(boundary, c) && !Committed(boundary, c) && Tail(boundary, c, h)
    requires text == h + p && Clean(boundary, text)
    ensures !Committed(boundary, Run(boundary, c, p))
    ensures Flushed(boundary, Run(boundary, c, p)) == Put(Flushed(boundary, c), p)
    decreases |p|
  {
    if p == "" {
      PutNothing(Flushed(boundary, c));
    } else {
      var d, h' := Step(boundary, c, p[0]), h + [p[0]];
      assert p == [p[0]] + p[1..];
      assert text == h' + p[1..];
      ScanOne(boundary, c, h, p[0], p[1..], text);
      Scan(boundary, d, h', p[1..], text);
      PutPut(Flushed(boundary, c), [p[0]], p[1..]);
    }
  }

  lemma ScanOne(boundary: string, c: Config, h: string, ch: char, rest: string, text: string)
    requires Wf(boundary, c) && !Committed(boundary, c) && Tail(boundary, c, h)
    requires text == h + [ch] + rest && Clean(boundary, text)
    ensures var d := Step(boundary, c, ch);
      && !Committed(boundary, d) && Tail(boundary, d, h + [ch])
      && Flushed(boundary, d) == Put(Flushed(boundary, c), [ch])
  {
    StepAdvances(boundary, c, ch);
    TailStep(boundary, c, Step(boundary, c, ch), h, ch);
    FlushedStep(boundary, c, ch);
    if Committed(boundary, Step(boundary, c, ch)) {
      CommittedIsFound(boundary, Step(boundary, c, ch), h + [ch], rest);
    }
  }

  lemma {:induction false} MatchBoundary(boundary: string, c: Config)
    requires Wf(boundary, c) && c.state == SeenDoubleDash
    ensures Run(boundary, c, boundary[c.matched..]) == c.(matched := |boundary|)
    decreases |boundary| - c.matched
  {
    if c.matched < |boundary| {
      var b := boundary[c.matched..];
      assert b[1..] == boundary[c.matched + 1..];
      MatchBoundary(boundary, Step(boundary, c, b[0]));
    }
  }

  // What the stream looks like once a delimiter has been matched, with everything before it passed on.
  function AtDelimiter(boundary: string, c: Config, kept: bool): Config {
    c.(state := SeenDoubleDash, matched := |boundary|, keptcrlf := kept)
  }

  lemma MatchDelimiter(boundary: string, c: Config)
    requires Wf(boundary, c) && c.state == StartOfLine
    ensures Run(boundary, c, Delimiter(boundary)) == AtDelimiter(boundary, c, c.keptcrlf)
  {
    Unroll(boundary, c, Delimiter(boundary));
    assert Delimiter(boundary)[2..] == boundary[0..];
    MatchBoundary(boundary, c.(state := SeenDoubleDash, matched := 0));
  }

  // A line break ends any line that is not a delimiter.
  lemma BreakLine(boundary: string, c: Config)
    requires Wf(boundary, c) && !Committed(boundary, c) && CR !in boundary
    ensures Run(boundary, c, NL) == Flushed(boundary, c).(state := StartOfLine, keptcrlf := true)
  {
    FlushedStep(boundary, c, CR);
    var d := Step(boundary, c, CR);
    assert d.state == SeenCR;
    assert d == Flushed(boundary, c).(state := SeenCR) by {
      DelimiterPrefixes(boundary, MatchedSoFar(c));
      assert KeptBytes(c) + Delimiter(boundary)[..0] == KeptBytes(c);
      PutNothing(c);
    }
    Unroll(boundary, c, NL);
  }

  lemma StartTail(boundary: string, c: Config)
    requires Wf(boundary, c) && c.state == StartOfLine
    ensures Tail(boundary, c, "")
  {
    assert NL + "" == NL && NL + Delimiter(boundary)[..0] == NL;
  }

  lemma StartFlushed(boundary: string, c: Config, p: string)
    requires Wf(boundary, c) && c.state == StartOfLine && !c.keptcrlf
    ensures Put(Flushed(boundary, c), p) == Put(c, p).(state := SeenNothing, matched := 0)
  {
    assert "" + Delimiter(boundary)[..0] == "";
    PutNothing(c);
  }

  // Text without a delimiter line, from the start of a line on.
  lemma ScanLine(boundary: string, c: Config, p: string)
    requires Wf(boundary, c) && c.state == StartOfLine && !c.keptcrlf && Clean(boundary, p)
    ensures !Committed(boundary, Run(boundary, c, p)) && Flushed(boundary, Run(boundary, c, p)) == Put(Flushed(boundary, c), p)
  {
    StartTail(boundary, c);
    Scan(boundary, c, "", p, p);
  }

  // The text up to the next delimiter line is passed on, except for the break before that line.
  lemma TextLine(boundary: string, c: Config, p: string)
    requires Wf(boundary, c) && c.state == StartOfLine && !c.keptcrlf
    requires CR !in boundary && Clean(boundary, p)
    ensures Run(boundary, c, p + (NL + Delimiter(boundary))) == AtDelimiter(boundary, Put(c, p), true)
  {
    ScanLine(boundary, c, p);
    StartFlushed(boundary, c, p);
    var d := Run(boundary, c, p);
    BreakLine(boundary, d);
    RunConcat(boundary, c, p, NL + Delimiter(boundary));
    RunConcat(boundary, d, NL, Delimiter(boundary));
    MatchDelimiter(boundary, Run(boundary, d, NL));
  }

  // ---------------------------------------------------------------------------------------------
  // Whole messages.

  // What may stand behind the delimiter on its line, besides closing dashes.
  predicate Padding(w: string) {
    BreakAt(w + NL) == |w| && !("--" <= w)
  }

  // The padding of each delimiter line before a part, and of the closing one.
  predicate Paddings(pads: seq<string>) {
    pads != [] && BreakAt(pads[|pads| - 1] + NL) == |pads[|pads| - 1]| && forall i :: 0 <= i < |pads| - 1 ==> Padding(pads[i])
  }

  // What follows a matched delimiter: each part on lines of its own, then the closing dashes.
  function Parts(boundary: string, pads: seq<string>, ps: seq<string>): string
    requires |pads| == |ps| + 1
  {
    if ps == [] then ("--" + pads[0]) + NL
    else (pads[0] + NL) + (ps[0] + (NL + Delimiter(boundary)) + Parts(boundary, pads[1..], ps[1..]))
  }

  lemma PaddingsFrom(pads: seq<string>)
    requires Paddings(pads) && |pads| > 1
    ensures Padding(pads[0]) && Paddings(pads[1..])
  {
    assert forall i :: 0 <= i < |pads| - 2 ==> pads[1..][i] == pads[i + 1];
  }

  lemma Close(boundary: string, c: Config, w: string)
    requires Wf(boundary, c) && c.state == SeenDoubleDash && Committed(boundary, c) && BreakAt(w + NL) == |w|
    ensures Run(boundary, c, ("--" + w) + NL) == Process(c, true)
  {
    var s := "--" + w + NL;
    assert s[1..][1..] == w + NL;
    DelimiterLine(boundary, c, "--" + w);
  }

  lemma Open(boundary: string, c: Config, w: string)
    requires Wf(boundary, c) && c.state == SeenDoubleDash && Committed(boundary, c) && Padding(w)
    ensures Run(boundary, c, w + NL) == Process(c, false)
  {
    DelimiterLine(boundary, c, w);
  }

  ghost predicate AllClean(boundary: string, ps: seq<string>) {
    forall i :: 0 <= i < |ps| ==> Clean(boundary, ps[i])
  }

  // A clean part becomes the next part, and the stream is at a delimiter again.
  lemma CleanPart(boundary: string, c: Config, w: string, p: string)
    requires Wf(boundary, c) && c.state == SeenDoubleDash && Committed(boundary, c)
    requires CR !in boundary && Padding(w) && Clean(boundary, p)
    ensures var d := AtDelimiter(boundary, Put(Process(c, false), p), true);
      && Run(boundary, c, (w + NL) + (p + (NL + Delimiter(boundary)))) == d && d.parts == c.parts + [p]
  {
    Open(boundary, c, w);
    TextLine(boundary, Process(c, false), p);
    RunConcat(boundary, c, w + NL, p + (NL + Delimiter(boundary)));
    assert "" + p == p;
  }

  // From a delimiter on, the next n parts can no longer change.
  ghost predicate Settled(boundary: string, c: Config, n: nat) {
    n <= |c.parts| && (n < |c.parts| || !c.open || Committed(boundary, c))
  }

  lemma {:induction false} SettledForGood(boundary: string, c: Config, n: nat, b: string)
    requires Wf(boundary, c) && Settled(boundary, c, n)
    ensures n <= |Run(boundary, c, b).parts| && Run(boundary, c, b).parts[..n] == c.parts[..n]
    decreases |b|
  {
    if b != "" {
      SettledStep(boundary, c, n, b[0]);
      SettledForGood(boundary, Step(boundary, c, b[0]), n, b[1..]);
    }
  }

  lemma SettledStep(boundary: string, c: Config, n: nat, ch: char)
    requires Wf(boundary, c) && Settled(boundary, c, n)
    ensures var d := Step(boundary, c, ch); Settled(boundary, d, n) && d.parts[..n] == c.parts[..n]
  {
  }

  // Where a delimiter line occurs, counting from the line break before the text.
  lemma Occurrence(p: string, line: string, i: nat)
    requires OccursAt(NL + p, NL + line, i)
    ensures i != 1
    ensures i == 0 ==> p == line + p[|line|..]
    ensures i >= 2 ==> i + |line| <= |p| && p == p[..i - 2] + (NL + line) + p[i + |line|..]
  {
    var s, t := NL + p, NL + line;
    assert s[i..i + |t|][0] == t[0] == CR && s[1] == LF;
    assert s[i..i + |t|][2..] == t[2..] == line;
    if i == 0 {
      assert s[..|t|][2..] == p[..|line|];
    } else {
      assert s[i..i + |t|] == p[i - 2..i + |line|];
    }
  }

  lemma OccursBefore(p: string, t: string, i: nat, j: int)
    requires i <= |p| && OccursAt(NL + p[..i], t, j)
    ensures OccursAt(NL + p, t, j) && j + |t| <= i + 2
  {
    assert NL + p[..i] == (NL + p)[..i + 2];
    assert (NL + p)[..i + 2][j..j + |t|] == (NL + p)[j..j + |t|];
  }

  // A part with a delimiter line in it is cut off there.
  lemma FirstDelimiter(boundary: string, p: string) returns (atStart: bool, r: string, rest: string)
    requires !Clean(boundary, p)
    ensures if atStart then p == Delimiter(boundary) + rest
            else Clean(boundary, r) && p == r + (NL + Delimiter(boundary)) + rest
  {
    var line := Delimiter(boundary);
    var i := Least(NL + p, NL + line);
    Occurrence(p, line, i);
    if i == 0 {
      atStart, r, rest := true, "", p[|line|..];
    } else {
      atStart, r, rest := false, p[..i - 2], p[i + |line|..];
      forall j | OccursAt(NL + r, NL + line, j)
        ensures false
      {
        OccursBefore(p, NL + line, i - 2, j);
      }
    }
  }

  lemma Least(s: string, t: string) returns (i: nat)
    requires exists j :: OccursAt(s, t, j)
    ensures OccursAt(s, t, i) && forall j :: OccursAt(s, t, j) ==> i <= j
  {
    i := 0;
    while !OccursAt(s, t, i)
      invariant forall j :: OccursAt(s, t, j) ==> i <= j
      decreases |s| - i
    {
      i := i + 1;
    }
  }

  // From the start of a part up to the delimiter line in it, which leaves less than all of it.
  lemma CutPart(boundary: string, c: Config, p: string) returns (d: Config, cut: string, rest: string)
    requires Wf(boundary, c) && c.state == StartOfLine && !c.keptcrlf && c.open && c.parts[|c.parts| - 1] == ""
    requires CR !in boundary && !Clean(boundary, p)
    ensures Wf(boundary, d) && Settled(boundary, d, |c.parts|) && |d.parts[|c.parts| - 1]| < |p|
    ensures p == cut + rest && Run(boundary, c, cut) == d
  {
    var atStart, r;
    atStart, r, rest := FirstDelimiter(boundary, p);
    if atStart {
      cut, d := Delimiter(boundary), AtDelimiter(boundary, c, false);
      MatchDelimiter(boundary, c);
    } else {
      cut, d := r + (NL + Delimiter(boundary)), AtDelimiter(boundary, Put(c, r), true);
      TextLine(boundary, c, r);
    }
  }

  lemma CutOff(boundary: string, c: Config, p: string, more: string)
    requires Wf(boundary, c) && c.state == StartOfLine && !c.keptcrlf && c.open && c.parts[|c.parts| - 1] == ""
    requires CR !in boundary && !Clean(boundary, p)
    ensures var parts := Run(boundary, c, p + more).parts; |parts| >= |c.parts| && parts[|c.parts| - 1] != p
  {
    var d, cut, rest := CutPart(boundary, c, p);
    ThreePieces(cut, rest, more);
    RunConcat(boundary, c, cut, rest + more);
    StaysShort(boundary, d, |c.parts|, p, rest + more);
  }

  lemma ThreePieces(a: string, b: string, c: string)
    ensures a + b + c == a + (b + c)
  {
  }

  lemma StaysShort(boundary: string, d: Config, n: nat, p: string, more: string)
    requires Wf(boundary, d) && n > 0 && Settled(boundary, d, n) && |d.parts[n - 1]| < |p|
    ensures var parts := Run(boundary, d, more).parts; |parts| >= n && parts[n - 1] != p
  {
    SettledForGood(boundary, d, n, more);
    assert Run(boundary, d, more).parts[..n][n - 1] == d.parts[..n][n - 1];
  }

  lemma UncleanPart(boundary: string, c: Config, w: string, p: string, more: string)
    requires Wf(boundary, c) && c.state == SeenDoubleDash && Committed(boundary, c)
    requires CR !in boundary && Padding(w) && !Clean(boundary, p)
    ensures var parts := Run(boundary, c, (w + NL) + (p + more)).parts;
      |parts| > |c.parts| && parts[|c.parts|] != p
  {
    Open(boundary, c, w);
    RunConcat(boundary, c, w + NL, p + more);
    CutOff(boundary, Process(c, false), p, more);
  }

  // After the closing dashes, the epilogue adds parts exactly if it opens some.
  lemma NoMoreParts(boundary: string, c: Config, w: string, epilogue: string)
    requires Wf(boundary, c) && c.state == SeenDoubleDash && Committed(boundary, c) && CR !in boundary
    requires BreakAt(w + NL) == |w|
    ensures Run(boundary, c, Parts(boundary, [w], []) + epilogue).parts == c.parts <==> !Reopens(boundary, epilogue)
  {
    Close(boundary, c, w);
    RunConcat(boundary, c, ("--" + w) + NL, epilogue);
    TextOutside(boundary, Process(c, true), epilogue);
  }

  // The first part, and the rest of the message behind the delimiter that follows it.
  lemma OnePart(boundary: string, c: Config, w: string, p: string, rest: string)
    requires Wf(boundary, c) && c.state == SeenDoubleDash && Committed(boundary, c)
    requires CR !in boundary && Padding(w)
    ensures var all := (w + NL) + (p + ((NL + Delimiter(boundary)) + rest));
      if Clean(boundary, p) then
        var d := AtDelimiter(boundary, Put(Process(c, false), p), true);
        Run(boundary, c, all) == Run(boundary, d, rest) && d.parts == c.parts + [p]
      else
        |Run(boundary, c, all).parts| > |c.parts| && Run(boundary, c, all).parts[|c.parts|] != p
  {
    var line := NL + Delimiter(boundary);
    if Clean(boundary, p) {
      assert (w + NL) + (p + (line + rest)) == (w + NL) + (p + line) + rest;
      CleanPart(boundary, c, w, p);
      RunConcat(boundary, c, (w + NL) + (p + line), rest);
    } else {
      UncleanPart(boundary, c, w, p, line + rest);
    }
  }

  // The parts come out as they went in exactly when each of them is clean and the epilogue opens none.
  lemma {:induction false} PartsComeOut(boundary: string, c: Config, pads: seq<string>, ps: seq<string>, epilogue: string)
    requires Wf(boundary, c) && c.state == SeenDoubleDash && Committed(boundary, c) && CR !in boundary
    requires |pads| == |ps| + 1 && Paddings(pads)
    ensures Run(boundary, c, Parts(boundary, pads, ps) + epilogue).parts == c.parts + ps
      <==> AllClean(boundary, ps) && !Reopens(boundary, epilogue)
    decreases |ps|
  {
    if ps == [] {
      assert pads == [pads[0]];
      NoMoreParts(boundary, c, pads[0], epilogue);
      assert c.parts + [] == c.parts;
    } else {
      var p, rest := ps[0], Parts(boundary, pads[1..], ps[1..]) + epilogue;
      PaddingsFrom(pads);
      FirstPart(boundary, pads, ps, epilogue);
      OnePart(boundary, c, pads[0], p, rest);
      AllCleanFrom(boundary, ps);
      Behind(c.parts, ps);
      if Clean(boundary, p) {
        PartsComeOut(boundary, AtDelimiter(boundary, Put(Process(c, false), p), true), pads[1..], ps[1..], epilogue);
      }
    }
  }

  lemma Behind(parts: seq<string>, ps: seq<string>)
    requires ps != []
    ensures parts + [ps[0]] + ps[1..] == parts + ps && (parts + ps)[|parts|] == ps[0]
  {
  }

  lemma Associate(a: string, p: string, b: string, d: string, r: string)
    ensures p + (b + d) + r == (p + b) + (d + r)
    ensures a + (p + (b + d) + r) == a + ((p + b) + (d + r))
    ensures a + (p + (b + d) + r) == a + (p + ((b + d) + r))
  {
    assert p + (b + d) == (p + b) + d;
    assert (p + b) + d + r == (p + b) + (d + r);
    assert p + (b + d) + r == p + ((b + d) + r);
  }

  lemma FirstPart(boundary: string, pads: seq<string>, ps: seq<string>, epilogue: string)
    requires |pads| == |ps| + 1 && ps != []
    ensures var rest := Parts(boundary, pads[1..], ps[1..]) + epilogue; var all := Parts(boundary, pads, ps) + epilogue;
      && all == (pads[0] + NL) + ((ps[0] + NL) + (Delimiter(boundary) + rest))
      && all == (pads[0] + NL) + (ps[0] + ((NL + Delimiter(boundary)) + rest))
  {
    var w, p, line := pads[0] + NL, ps[0], NL + Delimiter(boundary);
    var more := Parts(boundary, pads[1..], ps[1..]);
    assert w + (p + line + more) + epilogue == w + ((p + line) + (more + epilogue));
    Associate(w, p, NL, Delimiter(boundary), more + epilogue);
  }

  // Whatever the parts are, each delimiter line before one of them opens one.
  lemma {:induction false} AtLeastAsMany(boundary: string, c: Config, pads: seq<string>, ps: seq<string>, epilogue: string)
    requires Wf(boundary, c) && c.state == SeenDoubleDash && Committed(boundary, c) && CR !in boundary
    requires |pads| == |ps| + 1 && Paddings(pads)
    ensures |Run(boundary, c, Parts(boundary, pads, ps) + epilogue).parts| >= |c.parts| + |ps|
    decreases |ps|
  {
    if ps == [] {
      PartsGrow(boundary, c, Parts(boundary, pads, ps) + epilogue);
    } else {
      var p, rest := ps[0], Parts(boundary, pads[1..], ps[1..]) + epilogue;
      PaddingsFrom(pads);
      FirstPart(boundary, pads, ps, epilogue);
      Open(boundary, c, pads[0]);
      RunConcat(boundary, c, pads[0] + NL, (p + NL) + (Delimiter(boundary) + rest));
      var d := NextDelimiter(boundary, Process(c, false), p, rest);
      AtLeastAsMany(boundary, d, pads[1..], ps[1..], epilogue);
    }
  }

  // From any state to the next delimiter at the start of a line.
  lemma NextDelimiter(boundary: string, c: Config, p: string, rest: string) returns (d: Config)
    requires Wf(boundary, c) && CR !in boundary
    ensures Wf(boundary, d) && d.state == SeenDoubleDash && Committed(boundary, d) && |d.parts| >= |c.parts|
    ensures Run(boundary, c, (p + NL) + (Delimiter(boundary) + rest)) == Run(boundary, d, rest)
    ensures var e := Run(boundary, c, p + NL); d == AtDelimiter(boundary, e, e.keptcrlf)
  {
    RunConcat(boundary, c, p, NL);
    AnyBreak(boundary, Run(boundary, c, p));
    PartsGrow(boundary, c, p + NL);
    var e := Run(boundary, c, p + NL);
    RunConcat(boundary, c, p + NL, Delimiter(boundary) + rest);
    RunConcat(boundary, e, Delimiter(boundary), rest);
    MatchDelimiter(boundary, e);
    d := AtDelimiter(boundary, e, e.keptcrlf);
  }

  lemma AllCleanFrom(boundary: string, ps: seq<string>)
    requires ps != []
    ensures AllClean(boundary, ps) <==> Clean(boundary, ps[0]) && AllClean(boundary, ps[1..])
  {
    assert forall i :: 0 < i < |ps| ==> ps[i] == ps[1..][i - 1];
    assert forall i :: 0 <= i < |ps| - 1 ==> ps[1..][i] == ps[i + 1];
  }

  // A message as section 5.1.1 of RFC 2046 writes it, with padding behind the delimiters; the preamble, if
  // there is one, is a text of its own before the first delimiter line.
  function Message(boundary: string, preamble: seq<string>, pads: seq<string>, ps: seq<string>, epilogue: string): string
    requires |preamble| <= 1 && |pads| == |ps| + 1
  {
    (if preamble == [] then Delimiter(boundary) else preamble[0] + (NL + Delimiter(boundary)))
      + (Parts(boundary, pads, ps) + epilogue)
  }

  // No line of what stands before the first delimiter line opens a part.
  ghost predicate OpensNone(boundary: string, preamble: seq<string>) {
    preamble == [] || !Reopens(boundary, preamble[0] + NL)
  }

  lemma RoundTrip(boundary: string, preamble: seq<string>, pads: seq<string>, ps: seq<string>, epilogue: string)
    requires CR !in boundary && |preamble| <= 1 && |pads| == |ps| + 1 && Paddings(pads)
    ensures Run(boundary, INITIAL, Message(boundary, preamble, pads, ps, epilogue)).parts == ps
      <==> AllClean(boundary, ps) && OpensNone(boundary, preamble) && !Reopens(boundary, epilogue)
  {
    var rest := Parts(boundary, pads, ps) + epilogue;
    assert [] + ps == ps;
    if preamble == [] {
      MatchDelimiter(boundary, INITIAL);
      RunConcat(boundary, INITIAL, Delimiter(boundary), rest);
      PartsComeOut(boundary, AtDelimiter(boundary, INITIAL, false), pads, ps, epilogue);
    } else {
      var p := preamble[0];
      assert Message(boundary, preamble, pads, ps, epilogue) == (p + NL) + (Delimiter(boundary) + rest);
      var d := NextDelimiter(boundary, INITIAL, p, rest);
      TextOutside(boundary, INITIAL, p + NL);
      if Reopens(boundary, p + NL) {
        AtLeastAsMany(boundary, d, pads, ps, epilogue);
      } else {
        PartsComeOut(boundary, d, pads, ps, epilogue);
      }
    }
  }

  // The same for a message that arrives in any pieces.
  lemma ChunkedRoundTrip(boundary: string, preamble: seq<string>, pads: seq<string>, ps: seq<string>, epilogue: string,
                         chunks: seq<string>)
    requires CR !in boundary && |preamble| <= 1 && |pads| == |ps| + 1 && Paddings(pads)
    requires Flatten(chunks) == Message(boundary, preamble, pads, ps, epilogue)
    ensures RunChunks(boundary, INITIAL, chunks).parts == ps
      <==> AllClean(boundary, ps) && OpensNone(boundary, preamble) && !Reopens(boundary, epilogue)
  {
    ChunkingIndependence(boundary, INITIAL, chunks);
    RoundTrip(boundary, preamble, pads, ps, epilogue);
  }

  // The close delimiter is not remembered: a delimiter line in the epilogue opens a part.
  lemma EpilogueReopens(boundary: string)
    requires CR !in boundary
    ensures Run(boundary, INITIAL, Message(boundary, [], [""], [], Delimiter(boundary) + NL)).parts == [""]
  {
    var line := Delimiter(boundary);
    var c := AtDelimiter(boundary, INITIAL, false);
    MatchDelimiter(boundary, INITIAL);
    RunConcat(boundary, INITIAL, line, (("--" + "") + NL) + (line + NL));
    assert "" + NL == NL;
    Close(boundary, c, "");
    RunConcat(boundary, c, ("--" + "") + NL, line + NL);
    var d := Process(c, true);
    MatchDelimiter(boundary, d);
    RunConcat(boundary, d, line, NL);
    Open(boundary, AtDelimiter(boundary, d, false), "");
  }
}
