// What the multipart parser makes of any text whatever, said without the automaton: the text is cut into
// lines, and the parts are what stands between the delimiter lines.
module LineByLine {
  import opened BoundaryAutomaton
  import opened OutsideParts
  import opened MultipartMessage

  predicate IsDelimiter(boundary: string, line: string) {
    Delimiter(boundary) <= line
  }

  // How many lines there are before the first delimiter line.
  function UpToDelimiter(boundary: string, lines: seq<string>): (k: nat)
    ensures k <= |lines| && (k < |lines| ==> IsDelimiter(boundary, lines[k]))
    ensures forall i :: 0 <= i < k ==> !IsDelimiter(boundary, lines[i])
  {
    if lines == [] || IsDelimiter(boundary, lines[0]) then 0 else 1 + UpToDelimiter(boundary, lines[1..])
  }

  function Joined(lines: seq<string>): string {
    if lines == [] then "" else if |lines| == 1 then lines[0] else lines[0] + NL + Joined(lines[1..])
  }

  // Each delimiter line without the closing dashes opens a part, of the lines up to the next one.
  function Bodies(boundary: string, lines: seq<string>): seq<string>
    decreases |lines|
  {
    if lines == [] then []
    else if Opens(boundary, lines[0]) then
      var k := UpToDelimiter(boundary, lines[1..]);
      [Joined(lines[1..][..k])] + Bodies(boundary, lines[1..][k..])
    else Bodies(boundary, lines[1..])
  }

  predicate AllUnbroken(lines: seq<string>) {
    forall i :: 0 <= i < |lines| ==> Unbroken(lines[i])
  }

  function Ended(lines: seq<string>): string {
    if lines == [] then "" else lines[0] + NL + Ended(lines[1..])
  }

  // What is behind the last line break.
  function LastLine(text: string): string
    decreases |text|
  {
    var k := BreakAt(text);
    if k == |text| then text else LastLine(text[k + 2..])
  }

  lemma CutAtBreak(text: string, k: nat)
    requires k + 2 <= |text| && text[k] == CR && text[k + 1] == LF
    ensures text == text[..k] + NL + text[k + 2..]
  {
    assert text[k..k + 2] == NL;
  }

  lemma {:induction false} TextIsLines(text: string)
    ensures text == Ended(Lines(text)) + LastLine(text)
    ensures Unbroken(LastLine(text)) && AllUnbroken(Lines(text))
    decreases |text|
  {
    var k := BreakAt(text);
    if k < |text| {
      var line, rest := text[..k], text[k + 2..];
      CutAtBreak(text, k);
      TextIsLines(rest);
      MoreLines(line, Lines(rest), LastLine(rest));
    }
  }

  lemma MoreLines(line: string, lines: seq<string>, last: string)
    ensures Ended([line] + lines) + last == line + NL + (Ended(lines) + last)
  {
    assert ([line] + lines)[1..] == lines;
    assert line + NL + Ended(lines) + last == line + NL + (Ended(lines) + last);
  }

  lemma {:induction false} EndedConcat(a: seq<string>, b: seq<string>)
    ensures Ended(a + b) == Ended(a) + Ended(b)
  {
    if a == [] {
      assert a + b == b;
    } else {
      EndedConcat(a[1..], b);
      assert (a + b)[1..] == a[1..] + b;
      assert a[0] + NL + (Ended(a[1..]) + Ended(b)) == a[0] + NL + Ended(a[1..]) + Ended(b);
    }
  }

  // ---------------------------------------------------------------------------------------------
  // One line

  lemma BreakInside(line: string, d: string, i: nat)
    requires i >= 2 && i + |d| <= |line| && line == line[..i - 2] + (NL + d) + line[i + |d|..]
    ensures !Unbroken(line)
  {
    assert line[i - 2] == CR && line[i - 1] == LF;
  }

  lemma PlainLineIsClean(boundary: string, line: string)
    requires Unbroken(line) && !IsDelimiter(boundary, line)
    ensures Clean(boundary, line)
  {
    forall i
      ensures !OccursAt(NL + line, NL + Delimiter(boundary), i)
    {
      if OccursAt(NL + line, NL + Delimiter(boundary), i) {
        Occurrence(line, Delimiter(boundary), i);
        if i >= 2 {
          BreakInside(line, Delimiter(boundary), i);
        }
      }
    }
  }

  // In the part that is open, if one is, a line without the delimiter is content, after the break that was
  // kept back before it.
  lemma PlainLine(boundary: string, c: Config, line: string)
    requires Wf(boundary, c) && c.state == StartOfLine && CR !in boundary
    requires Unbroken(line) && !IsDelimiter(boundary, line)
    ensures !Committed(boundary, Run(boundary, c, line))
    ensures Flushed(boundary, Run(boundary, c, line)) == Put(c, KeptBytes(c) + line).(state := SeenNothing, keptcrlf := false)
    ensures Run(boundary, c, line + NL) == Put(c, KeptBytes(c) + line).(keptcrlf := true)
  {
    PlainLineIsClean(boundary, line);
    StartTail(boundary, c);
    Scan(boundary, c, "", line, line);
    PutPut(c, KeptBytes(c), line);
    RunConcat(boundary, c, line, NL);
    BreakLine(boundary, Run(boundary, c, line));
  }

  lemma WholeLine(boundary: string, c: Config, line: string)
    requires Wf(boundary, c) && c.state == StartOfLine && CR !in boundary && Unbroken(line)
    ensures Run(boundary, c, line + NL) ==
      if IsDelimiter(boundary, line) then Process(c, !Opens(boundary, line))
      else Put(c, KeptBytes(c) + line).(keptcrlf := true)
  {
    var d := Delimiter(boundary);
    if d <= line {
      var w := line[|d|..];
      assert line + NL == d + (w + NL);
      MatchDelimiter(boundary, c);
      RunConcat(boundary, c, d, w + NL);
      UnbrokenEnds(w);
      DelimiterLine(boundary, AtDelimiter(boundary, c, c.keptcrlf), w);
    } else {
      PlainLine(boundary, c, line);
    }
  }

  lemma {:induction false} UnbrokenEnds(w: string)
    requires Unbroken(w)
    ensures BreakAt(w + NL) == |w|
  {
    if w != "" {
      assert (w + NL)[1..] == w[1..] + NL;
      UnbrokenEnds(w[1..]);
    }
  }

  // ---------------------------------------------------------------------------------------------
  // All lines

  // The lines of a part, up to the next delimiter line.
  lemma {:induction false} PlainLines(boundary: string, c: Config, lines: seq<string>)
    requires Wf(boundary, c) && c.state == StartOfLine && CR !in boundary && AllUnbroken(lines)
    requires UpToDelimiter(boundary, lines) == |lines| && lines != []
    ensures Run(boundary, c, Ended(lines)) == Put(c, KeptBytes(c) + Joined(lines)).(keptcrlf := true)
    decreases |lines|
  {
    var line, rest := lines[0], lines[1..];
    WholeLine(boundary, c, line);
    RunConcat(boundary, c, line + NL, Ended(rest));
    var d := Run(boundary, c, line + NL);
    if rest == [] {
      assert line + NL + Ended(rest) == line + NL;
    } else {
      PlainLines(boundary, d, rest);
      PutPut(c, KeptBytes(c) + line, NL + Joined(rest));
      assert KeptBytes(c) + line + (NL + Joined(rest)) == KeptBytes(c) + (line + NL + Joined(rest));
    }
  }

  // From a delimiter line that opens a part to the next delimiter line.
  lemma BodyLines(boundary: string, c: Config, lines: seq<string>) returns (d: Config)
    requires CR !in boundary && AllUnbroken(lines) && UpToDelimiter(boundary, lines) == |lines|
    ensures Wf(boundary, d) && d == Run(boundary, Process(c, false), Ended(lines))
    ensures d.state == StartOfLine && d.open && d.parts == c.parts + [Joined(lines)] && d.keptcrlf == (lines != [])
  {
    d := Run(boundary, Process(c, false), Ended(lines));
    if lines != [] {
      PlainLines(boundary, Process(c, false), lines);
      assert "" + Joined(lines) == Joined(lines);
    }
  }

  // What has been read of the parts: where the text ends in a line that is no delimiter line, what has been
  // passed on and what is withheld of it.
  function ReadParts(boundary: string, c: Config): seq<string>
    requires Wf(boundary, c)
  {
    if Committed(boundary, c) then c.parts else Flushed(boundary, c).parts
  }

  lemma LastLineRead(boundary: string, c: Config, last: string)
    requires Wf(boundary, c) && c.state == StartOfLine && CR !in boundary && Unbroken(last)
    ensures ReadParts(boundary, Run(boundary, c, last)) ==
      if IsDelimiter(boundary, last) then c.parts else Put(c, KeptBytes(c) + last).parts
  {
    if IsDelimiter(boundary, last) {
      DelimiterPending(boundary, c, last);
    } else {
      PlainLine(boundary, c, last);
    }
  }

  lemma DelimiterPending(boundary: string, c: Config, last: string)
    requires Wf(boundary, c) && c.state == StartOfLine && Unbroken(last) && IsDelimiter(boundary, last)
    ensures var d := Run(boundary, c, last); Committed(boundary, d) && d.parts == c.parts
  {
    var d := Delimiter(boundary);
    var w := last[|d|..];
    assert last == d + w && "" + w == w;
    MatchDelimiter(boundary, c);
    RunConcat(boundary, c, d, w);
    DelimiterRun(boundary, AtDelimiter(boundary, c, c.keptcrlf), "", w);
    StaysCommitted(boundary, Run(boundary, c, last), w);
  }

  lemma StaysCommitted(boundary: string, c: Config, w: string)
    requires OnDelimiter(boundary, c, w)
    ensures Committed(boundary, c)
  {
  }

  // The lines of a text, and the last one only if its end may be content.
  function Counted(boundary: string, lines: seq<string>, last: string): seq<string> {
    if IsDelimiter(boundary, last) then lines else lines + [last]
  }

  // A delimiter line ends whatever was before it.
  lemma SameFromDelimiter(boundary: string, c: Config, lines: seq<string>, last: string)
    requires Wf(boundary, c) && c.state == StartOfLine && CR !in boundary && lines != []
    requires Unbroken(lines[0]) && IsDelimiter(boundary, lines[0])
    ensures var d := c.(open := false);
      Run(boundary, c, Ended(lines) + last) == Run(boundary, d, Ended(lines) + last)
  {
    var line, rest := lines[0] + NL, Ended(lines[1..]) + last;
    MoreLines(lines[0], lines[1..], last);
    assert lines == [lines[0]] + lines[1..];
    WholeLine(boundary, c, lines[0]);
    WholeLine(boundary, c.(open := false), lines[0]);
    RunConcat(boundary, c, line, rest);
    RunConcat(boundary, c.(open := false), line, rest);
  }

  lemma {:induction false} UpToMore(boundary: string, lines: seq<string>, more: seq<string>)
    ensures UpToDelimiter(boundary, lines) < |lines| ==> UpToDelimiter(boundary, lines + more) == UpToDelimiter(boundary, lines)
    ensures UpToDelimiter(boundary, lines) == |lines| ==>
      UpToDelimiter(boundary, lines + more) == |lines| + UpToDelimiter(boundary, more)
  {
    if lines == [] {
      assert lines + more == more;
    } else {
      UpToMore(boundary, lines[1..], more);
      assert (lines + more)[1..] == lines[1..] + more;
    }
  }

  lemma {:induction false} JoinedSnoc(lines: seq<string>, last: string)
    ensures Joined(lines + [last]) == if lines == [] then last else Joined(lines) + NL + last
  {
    if lines == [] {
      assert lines + [last] == [last];
    } else {
      JoinedSnoc(lines[1..], last);
      assert (lines + [last])[1..] == lines[1..] + [last];
      if |lines| > 1 {
        assert lines[0] + NL + (Joined(lines[1..]) + NL + last) == lines[0] + NL + Joined(lines[1..]) + NL + last;
      }
    }
  }

  // The part that is still open when the text ends.
  lemma OpenEnd(boundary: string, c: Config, lines: seq<string>, last: string)
    requires Wf(boundary, c) && CR !in boundary && AllUnbroken(lines) && Unbroken(last)
    requires UpToDelimiter(boundary, lines) == |lines|
    ensures ReadParts(boundary, Run(boundary, Process(c, false), Ended(lines) + last))
         == c.parts + [Joined(Counted(boundary, lines, last))]
    ensures UpToDelimiter(boundary, Counted(boundary, lines, last)) == |Counted(boundary, lines, last)|
  {
    var d := BodyLines(boundary, c, lines);
    RunConcat(boundary, Process(c, false), Ended(lines), last);
    LastLineRead(boundary, d, last);
    if !IsDelimiter(boundary, last) {
      UpToMore(boundary, lines, [last]);
      JoinedSnoc(lines, last);
      PutLast(d, c.parts, Joined(lines), KeptBytes(d) + last);
      ThreePieces(Joined(lines), NL, last);
      ThreePieces("", "", last);
      assert "" + last == last;
    }
  }

  lemma PutLast(d: Config, parts: seq<string>, b: string, x: string)
    requires d.open && d.parts == parts + [b]
    ensures Put(d, x).parts == parts + [b + x]
  {
  }

  // A part that ends within the text, and the delimiter line that ends it.
  lemma NextDelimiterLine(boundary: string, c: Config, lines: seq<string>, last: string) returns (d: Config, k: nat)
    requires Wf(boundary, c) && CR !in boundary && AllUnbroken(lines)
    requires UpToDelimiter(boundary, lines) < |lines|
    ensures k == UpToDelimiter(boundary, lines) && Wf(boundary, d) && d.state == StartOfLine && !d.open
    ensures d.parts == c.parts + [Joined(lines[..k])]
    ensures Run(boundary, Process(c, false), Ended(lines) + last) == Run(boundary, d, Ended(lines[k..]) + last)
  {
    k := UpToDelimiter(boundary, lines);
    var front, rest := lines[..k], lines[k..];
    assert lines == front + rest;
    EndedConcat(front, rest);
    UpToMore(boundary, front, rest);
    var e := BodyLines(boundary, c, front);
    ThreePieces(Ended(front), Ended(rest), last);
    RunConcat(boundary, Process(c, false), Ended(front), Ended(rest) + last);
    assert rest[0] == lines[k];
    SameFromDelimiter(boundary, e, rest, last);
    d := e.(open := false);
  }

  lemma CountedFirst(boundary: string, line: string, rest: seq<string>, last: string)
    ensures Counted(boundary, [line] + rest, last)[0] == line
    ensures Counted(boundary, [line] + rest, last)[1..] == Counted(boundary, rest, last)
  {
  }

  // A part between two delimiter lines, and what follows it.
  lemma OneBody(boundary: string, rest: seq<string>, last: string)
    requires UpToDelimiter(boundary, rest) < |rest|
    ensures var k, all := UpToDelimiter(boundary, rest), Counted(boundary, rest, last);
      && UpToDelimiter(boundary, all) == k && all[..k] == rest[..k]
      && all[k..] == Counted(boundary, rest[k..], last)
  {
    UpToMore(boundary, rest, [last]);
  }

  lemma {:induction false} LinesRead(boundary: string, c: Config, lines: seq<string>, last: string)
    requires Wf(boundary, c) && c.state == StartOfLine && !c.open && CR !in boundary
    requires AllUnbroken(lines) && Unbroken(last)
    ensures ReadParts(boundary, Run(boundary, c, Ended(lines) + last))
         == c.parts + Bodies(boundary, Counted(boundary, lines, last))
    decreases |lines|, 0
  {
    if lines == [] {
      LastLineRead(boundary, c, last);
      assert Ended(lines) + last == last && [] + [last] == [last];
    } else {
      var line, rest := lines[0], lines[1..];
      assert lines == [line] + rest;
      MoreLines(line, rest, last);
      CountedFirst(boundary, line, rest, last);
      WholeLine(boundary, c, line);
      RunConcat(boundary, c, line + NL, Ended(rest) + last);
      if Opens(boundary, line) {
        PartRead(boundary, c, rest, last);
      } else {
        LinesRead(boundary, Run(boundary, c, line + NL), rest, last);
      }
    }
  }

  // After a delimiter line that opens a part.
  lemma {:induction false} PartRead(boundary: string, c: Config, rest: seq<string>, last: string)
    requires Wf(boundary, c) && CR !in boundary && AllUnbroken(rest) && Unbroken(last)
    ensures var all := Counted(boundary, rest, last); var k := UpToDelimiter(boundary, all);
      ReadParts(boundary, Run(boundary, Process(c, false), Ended(rest) + last))
        == c.parts + ([Joined(all[..k])] + Bodies(boundary, all[k..]))
    decreases |rest|, 1
  {
    var all := Counted(boundary, rest, last);
    if UpToDelimiter(boundary, rest) == |rest| {
      OpenEnd(boundary, c, rest, last);
      assert all[..|all|] == all && all[|all|..] == [];
    } else {
      var d, k := NextDelimiterLine(boundary, c, rest, last);
      OneBody(boundary, rest, last);
      LinesRead(boundary, d, rest[k..], last);
      InFront(c.parts, Joined(rest[..k]), Bodies(boundary, all[k..]));
    }
  }

  lemma InFront(parts: seq<string>, b: string, more: seq<string>)
    ensures parts + [b] + more == parts + ([b] + more)
  {
  }

  // For every text: its parts are what stands between its delimiter lines.
  lemma AnyText(boundary: string, text: string)
    requires CR !in boundary
    ensures ReadParts(boundary, Run(boundary, INITIAL, text))
         == Bodies(boundary, Counted(boundary, Lines(text), LastLine(text)))
  {
    TextIsLines(text);
    LinesRead(boundary, INITIAL, Lines(text), LastLine(text));
    var bodies := Bodies(boundary, Counted(boundary, Lines(text), LastLine(text)));
    assert [] + bodies == bodies;
  }
}
