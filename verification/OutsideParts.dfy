// The multipart parser goes by lines.  A delimiter line ends the part before it and opens another unless it
// has the closing dashes, whatever else stands on it; so outside of any part, in the preamble and in the
// epilogue, a delimiter line without them opens a part.
module OutsideParts {
  import opened BoundaryAutomaton

  // Where the first line break is, or the end of the text.
  function BreakAt(s: string): (k: nat)
    ensures k <= |s| && (k < |s| ==> k + 2 <= |s| && s[k] == CR && s[k + 1] == LF)
    ensures forall i :: 0 <= i < k && i + 1 < |s| ==> !(s[i] == CR && s[i + 1] == LF)
  {
    if |s| < 2 then |s| else if s[0] == CR && s[1] == LF then 0 else 1 + BreakAt(s[1..])
  }

  // The lines of a text that are ended by a line break, without it.
  function Lines(text: string): seq<string>
    decreases |text|
  {
    var k := BreakAt(text);
    if k == |text| then [] else [text[..k]] + Lines(text[k + 2..])
  }

  predicate Opens(boundary: string, line: string) {
    Delimiter(boundary) <= line && !("--" <= line[|Delimiter(boundary)|..])
  }

  ghost predicate Reopens(boundary: string, text: string) {
    exists line :: line in Lines(text) && Opens(boundary, line)
  }

  // What the state tells of the rest p of a line that begins with the delimiter.
  predicate OnDelimiter(boundary: string, c: Config, p: string) {
    if p == "" then c.state == SeenDoubleDash && c.matched == |boundary|
    else if p == "-" then c.state == SeenDelimiterDash
    else if "--" <= p then Plain(c, p, SeenDelimiterTerminal, SeenDelimiterTerminalCR)
    else Plain(c, p, SeenDelimiterNonterminal, SeenDelimiterNonterminalCR)
  }

  lemma DelimiterStep(boundary: string, c: Config, p: string, ch: char)
    requires Wf(boundary, c) && OnDelimiter(boundary, c, p) && !Broken(p, ch)
    ensures var d := Step(boundary, c, ch);
      OnDelimiter(boundary, d, p + [ch]) && d.open == c.open && d.parts == c.parts
  {
    PrefixStep("--", p, ch);
  }

  lemma {:induction false} DelimiterRun(boundary: string, c: Config, p: string, more: string)
    requires Wf(boundary, c) && OnDelimiter(boundary, c, p) && Unbroken(p + more)
    ensures var d := Run(boundary, c, more);
      OnDelimiter(boundary, d, p + more) && d.open == c.open && d.parts == c.parts
    decreases |more|
  {
    if more == "" {
      assert p + more == p;
    } else {
      assert p + [more[0]] + more[1..] == p + more;
      NotBroken(p, more);
      DelimiterStep(boundary, c, p, more[0]);
      DelimiterRun(boundary, Step(boundary, c, more[0]), p + [more[0]], more[1..]);
    }
  }

  lemma NotBroken(p: string, more: string)
    requires Unbroken(p + more) && more != ""
    ensures !Broken(p, more[0])
  {
    if p != "" {
      assert (p + more)[|p| - 1] == p[|p| - 1] && (p + more)[|p|] == more[0];
    }
  }

  lemma DelimiterBreak(boundary: string, c: Config, w: string)
    requires Wf(boundary, c) && OnDelimiter(boundary, c, w)
    ensures Run(boundary, c, NL) == Process(c, "--" <= w)
  {
    Unroll(boundary, c, NL);
  }

  lemma BeforeBreak(w: string)
    requires BreakAt(w + NL) == |w|
    ensures Unbroken(w)
  {
    forall i | 0 <= i < |w| - 1
      ensures !(w[i] == CR && w[i + 1] == LF)
    {
      assert (w + NL)[i] == w[i] && (w + NL)[i + 1] == w[i + 1];
    }
  }

  // From a matched delimiter to the end of its line: the part ends, if one is open, and all that stands
  // there but closing dashes right behind the delimiter is padding.
  lemma DelimiterLine(boundary: string, c: Config, w: string)
    requires Wf(boundary, c) && OnDelimiter(boundary, c, "") && BreakAt(w + NL) == |w|
    ensures Run(boundary, c, w + NL) == Process(c, "--" <= w)
  {
    BeforeBreak(w);
    assert "" + w == w;
    DelimiterRun(boundary, c, "", w);
    RunConcat(boundary, c, w, NL);
    DelimiterBreak(boundary, Run(boundary, c, w), w);
  }

  // What the state tells of the line so far.
  predicate OnLine(boundary: string, c: Config, p: string) {
    var d, n := Delimiter(boundary), |Delimiter(boundary)|;
    && !c.open
    && if |p| <= n && p <= d then
         if p == "" then c.state == StartOfLine
         else if |p| == 1 then c.state == SeenDash
         else c.state == SeenDoubleDash && c.matched == |p| - 2
       else if !(d <= p) then Plain(c, p, SeenNothing, SeenCR)
       else OnDelimiter(boundary, c, p[n..])
  }

  predicate Plain(c: Config, p: string, plain: State, afterCR: State) {
    p != "" && (if p[|p| - 1] == CR then c.state == afterCR else c.state == plain)
  }

  predicate Broken(p: string, ch: char) {
    p != "" && p[|p| - 1] == CR && ch == LF
  }

  lemma PrefixStep(d: string, p: string, ch: char)
    ensures p + [ch] <= d <==> p <= d && |p| < |d| && ch == d[|p|]
    ensures |p| >= |d| ==> (d <= p + [ch] <==> d <= p)
    ensures |p| + 1 == |d| ==> (d <= p + [ch] <==> p <= d && ch == d[|p|])
  {
    var q := p + [ch];
    if q <= d {
      assert d[|p|] == q[|p|] && d[..|p|] == q[..|p|] == p;
    }
    if p <= d && |p| < |d| && ch == d[|p|] {
      assert d[..|q|] == d[..|p|] + [d[|p|]];
    }
    if |p| >= |d| {
      assert q[..|d|] == p[..|d|];
    }
  }

  lemma LineStep(boundary: string, c: Config, p: string, ch: char)
    requires Wf(boundary, c) && OnLine(boundary, c, p) && CR !in boundary && !Broken(p, ch)
    ensures var e := Step(boundary, c, ch); OnLine(boundary, e, p + [ch]) && e.parts == c.parts
  {
    var d := Delimiter(boundary);
    PrefixStep(d, p, ch);
    if d <= p {
      assert (p + [ch])[|d|..] == p[|d|..] + [ch];
      assert |p| == |d| ==> p == d && p[|d|..] == "";
      DelimiterStep(boundary, c, p[|d|..], ch);
    }
  }

  predicate Unbroken(s: string) {
    forall i :: 0 <= i < |s| - 1 ==> !(s[i] == CR && s[i + 1] == LF)
  }

  // Within a line nothing is opened.
  lemma {:induction false} LineRun(boundary: string, c: Config, p: string, more: string)
    requires Wf(boundary, c) && OnLine(boundary, c, p) && CR !in boundary && Unbroken(p + more)
    ensures var d := Run(boundary, c, more); OnLine(boundary, d, p + more) && d.parts == c.parts
    decreases |more|
  {
    if more == "" {
      assert p + more == p;
    } else {
      var q := p + [more[0]];
      assert q + more[1..] == p + more;
      NotBroken(p, more);
      LineStep(boundary, c, p, more[0]);
      LineRun(boundary, Step(boundary, c, more[0]), q, more[1..]);
    }
  }

  // What the break at the end of a line brings about.
  predicate AfterLine(c: Config, d: Config, opens: bool) {
    d.state == StartOfLine && d.open == opens && d.parts == if opens then c.parts + [""] else c.parts
  }

  lemma EndLine(boundary: string, c: Config, line: string)
    requires Wf(boundary, c) && OnLine(boundary, c, line) && CR !in boundary
    ensures AfterLine(c, Run(boundary, c, NL), Opens(boundary, line))
  {
    Unroll(boundary, c, NL);
    if c.state == SeenDoubleDash && c.matched < |boundary| {
      assert boundary[c.matched] != CR;
    }
  }

  lemma {:induction false} PartsGrow(boundary: string, c: Config, b: string)
    requires Wf(boundary, c)
    ensures |Run(boundary, c, b).parts| >= |c.parts|
    decreases |b|
  {
    if b != "" {
      PartsGrow(boundary, Step(boundary, c, b[0]), b[1..]);
    }
  }

  lemma FirstLine(boundary: string, c: Config, line: string, rest: string)
    requires Wf(boundary, c) && c.state == StartOfLine && !c.open && CR !in boundary && Unbroken(line)
    ensures var d := Run(boundary, c, line + NL);
      Run(boundary, c, line + NL + rest) == Run(boundary, d, rest) && AfterLine(c, d, Opens(boundary, line))
  {
    LineRun(boundary, c, "", line);
    assert "" + line == line;
    RunConcat(boundary, c, line, NL);
    EndLine(boundary, Run(boundary, c, line), line);
    RunConcat(boundary, c, line + NL, rest);
  }

  // Text outside the parts adds none exactly if none of its lines opens one.
  lemma {:induction false} TextOutside(boundary: string, c: Config, text: string)
    requires Wf(boundary, c) && c.state == StartOfLine && !c.open && CR !in boundary
    ensures var d := Run(boundary, c, text);
      if Reopens(boundary, text) then |d.parts| > |c.parts| else d.parts == c.parts && !d.open
    decreases |text|
  {
    var k := BreakAt(text);
    if k == |text| {
      assert "" + text == text;
      LineRun(boundary, c, "", text);
    } else {
      var line, rest := text[..k], text[k + 2..];
      assert text[k..k + 2] == NL;
      assert text == line + NL + rest;
      assert Lines(text) == [line] + Lines(rest);
      FirstLine(boundary, c, line, rest);
      var d := Run(boundary, c, line + NL);
      if Opens(boundary, line) {
        PartsGrow(boundary, d, rest);
        assert line in Lines(text);
      } else {
        TextOutside(boundary, d, rest);
        assert forall l :: l in Lines(text) <==> l == line || l in Lines(rest);
      }
    }
  }

  // Whatever the state, a line break ends the line.
  lemma AnyBreak(boundary: string, c: Config)
    requires Wf(boundary, c) && CR !in boundary
    ensures Run(boundary, c, NL).state == StartOfLine
  {
    Unroll(boundary, c, NL);
    if c.state == SeenDoubleDash && c.matched < |boundary| {
      assert boundary[c.matched] != CR;
    }
  }
}
