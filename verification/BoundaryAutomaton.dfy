// The multipart parser of HTBound.c taken one byte at a time, and what it makes of a whole message.
module BoundaryAutomaton {
  const CR := '\r'
  const LF := '\n'
  const NL := "\r\n"

  datatype State =
    | StartOfLine | SeenDash | SeenDoubleDash
    | SeenDelimiterNonterminal | SeenDelimiterNonterminalCR | SeenDelimiterDash
    | SeenDelimiterTerminal | SeenDelimiterTerminalCR
    | SeenNothing | SeenCR

  // parts are the bodies handed to the streams made so far; the last one is still being written
  // when open.  matched counts the characters of the boundary seen after the two dashes.
  datatype Config = Config(state: State, keptcrlf: bool, matched: nat, open: bool, parts: seq<string>)

  const INITIAL := Config(StartOfLine, false, 0, false, [])

  ghost predicate Wf(boundary: string, c: Config) {
    && (c.open ==> c.parts != [])
    && (if c.state == SeenDoubleDash then c.matched <= |boundary| else c.matched == 0)
    && (c.state == SeenNothing || c.state == SeenCR ==> !c.keptcrlf)
  }

  // Content goes to the current part; outside the parts it is dropped.
  function Put(c: Config, b: string): Config
    requires c.open ==> c.parts != []
  {
    if c.open then
      var last := |c.parts| - 1;
      c.(parts := c.parts[last := c.parts[last] + b])
    else c
  }

  function Delimiter(boundary: string): string {
    "--" + boundary
  }

  function KeptBytes(c: Config): string {
    if c.keptcrlf then NL else ""
  }

  function Text(c: Config, ch: char): Config
    requires c.open ==> c.parts != []
  {
    if ch == CR then c.(state := SeenCR, matched := 0)
    else Put(c, [ch]).(state := SeenNothing, matched := 0)
  }

  // The line turned out not to be a delimiter: what was withheld of it is content.
  function NotDelimiter(boundary: string, c: Config, extra: nat, ch: char): Config
    requires c.open ==> c.parts != []
    requires extra <= |boundary| + 2
  {
    Text(Put(c, KeptBytes(c) + Delimiter(boundary)[..extra]).(keptcrlf := false), ch)
  }

  function Rest(c: Config, ch: char, plain: State, afterCR: State): Config {
    c.(state := if ch == CR then afterCR else plain, matched := 0)
  }

  function Process(c: Config, terminal: bool): Config {
    Config(StartOfLine, false, 0, !terminal, if terminal then c.parts else c.parts + [""])
  }

  function Step(boundary: string, c: Config, ch: char): Config
    requires Wf(boundary, c)
    ensures Wf(boundary, Step(boundary, c, ch))
  {
    match c.state
    case StartOfLine =>
      if ch == '-' then c.(state := SeenDash) else NotDelimiter(boundary, c, 0, ch)
    case SeenDash =>
      if ch == '-' then c.(state := SeenDoubleDash, matched := 0) else NotDelimiter(boundary, c, 1, ch)
    case SeenDoubleDash =>
      if c.matched < |boundary| then
        if ch == boundary[c.matched] then c.(matched := c.matched + 1)
        else NotDelimiter(boundary, c, c.matched + 2, ch)
      else if ch == '-' then c.(state := SeenDelimiterDash, matched := 0)
      else Rest(c, ch, SeenDelimiterNonterminal, SeenDelimiterNonterminalCR)
    case SeenDelimiterNonterminal => Rest(c, ch, SeenDelimiterNonterminal, SeenDelimiterNonterminalCR)
    case SeenDelimiterNonterminalCR =>
      if ch == LF then Process(c, false)
      else Rest(c, ch, SeenDelimiterNonterminal, SeenDelimiterNonterminalCR)
    case SeenDelimiterDash =>
      if ch == '-' then c.(state := SeenDelimiterTerminal)
      else Rest(c, ch, SeenDelimiterNonterminal, SeenDelimiterNonterminalCR)
    case SeenDelimiterTerminal => Rest(c, ch, SeenDelimiterTerminal, SeenDelimiterTerminalCR)
    case SeenDelimiterTerminalCR =>
      if ch == LF then Process(c, true)
      else Rest(c, ch, SeenDelimiterTerminal, SeenDelimiterTerminalCR)
    case SeenNothing => Text(c, ch)
    case SeenCR =>
      if ch == LF then c.(state := StartOfLine, keptcrlf := true) else Text(Put(c, [CR]), ch)
  }

  function Run(boundary: string, c: Config, b: string): Config
    requires Wf(boundary, c)
    ensures Wf(boundary, Run(boundary, c, b))
    decreases |b|
  {
    if b == "" then c else Run(boundary, Step(boundary, c, b[0]), b[1..])
  }

  // Cutting the input anywhere makes no difference.
  lemma {:induction false} RunConcat(boundary: string, c: Config, a: string, b: string)
    requires Wf(boundary, c)
    ensures Run(boundary, c, a + b) == Run(boundary, Run(boundary, c, a), b)
    decreases |a|
  {
    if a == "" {
      assert a + b == b;
    } else {
      assert (a + b)[1..] == a[1..] + b;
      RunConcat(boundary, Step(boundary, c, a[0]), a[1..], b);
    }
  }

  function Flatten(chunks: seq<string>): string {
    if chunks == [] then "" else chunks[0] + Flatten(chunks[1..])
  }

  function RunChunks(boundary: string, c: Config, chunks: seq<string>): Config
    requires Wf(boundary, c)
    decreases |chunks|
  {
    if chunks == [] then c else RunChunks(boundary, Run(boundary, c, chunks[0]), chunks[1..])
  }

  lemma {:induction false} ChunkingIndependence(boundary: string, c: Config, chunks: seq<string>)
    requires Wf(boundary, c)
    ensures RunChunks(boundary, c, chunks) == Run(boundary, c, Flatten(chunks))
    decreases |chunks|
  {
    if chunks != [] {
      RunConcat(boundary, c, chunks[0], Flatten(chunks[1..]));
      ChunkingIndependence(boundary, Run(boundary, c, chunks[0]), chunks[1..]);
    }
  }

  // ---------------------------------------------------------------------------------------------
  // The look-ahead: a CR with at least four more characters behind it that does not begin CR LF - -
  // can be passed on at once.

  predicate Skippable(b: string, i: nat)
    requires i < |b|
  {
    b[i] != CR || (|b| - i > 4 && b[i..i + 4] != "\r\n--")
  }

  lemma SkipOne(boundary: string, c: Config, b: string)
    requires Wf(boundary, c) && c.state == SeenNothing && b != "" && Skippable(b, 0)
    ensures Run(boundary, c, b) == Run(boundary, Put(c, [b[0]]), b[1..])
  {
    if b[0] == CR {
      assert b[0..4] == [b[0], b[1], b[2], b[3]];
      var d := Put(c, [CR]);
      Unroll(boundary, c, b);
      if b[1] != LF {
        CatchUp2(boundary, c, b[1]);
      } else {
        Unroll(boundary, d, b[1..]);
        assert b[1..][2..] == b[3..] && b[2..][1..] == b[3..] && b[3..][1..] == b[4..];
        if b[2] != '-' {
          CatchUp3(boundary, c, b[2]);
        } else {
          CatchUp4(boundary, c, b[3]);
        }
      }
    }
  }

  lemma Unroll(boundary: string, c: Config, b: string)
    requires Wf(boundary, c) && |b| >= 2
    ensures Run(boundary, c, b) == Run(boundary, Step(boundary, Step(boundary, c, b[0]), b[1]), b[2..])
    ensures b[1..][1..] == b[2..]
  {
    assert b[1..][1..] == b[2..];
  }

  // After at most four characters, withholding and passing on have come to the same.
  lemma CatchUp2(boundary: string, c: Config, x: char)
    requires Wf(boundary, c) && c.state == SeenNothing && x != LF
    ensures Step(boundary, Step(boundary, c, CR), x) == Step(boundary, Put(c, [CR]), x)
  {
  }

  lemma CatchUp3(boundary: string, c: Config, x: char)
    requires Wf(boundary, c) && c.state == SeenNothing && x != '-'
    ensures Step(boundary, Step(boundary, Step(boundary, c, CR), LF), x)
         == Step(boundary, Step(boundary, Put(c, [CR]), LF), x)
  {
    PutPut(c, [CR], [LF]);
    assert [CR] + [LF] == NL == NL + Delimiter(boundary)[..0];
  }

  lemma CatchUp4(boundary: string, c: Config, x: char)
    requires Wf(boundary, c) && c.state == SeenNothing && x != '-'
    ensures Step(boundary, Step(boundary, Step(boundary, Step(boundary, c, CR), LF), '-'), x)
         == Step(boundary, Step(boundary, Step(boundary, Put(c, [CR]), LF), '-'), x)
  {
    PutPut(c, [CR], [LF]);
    PutPut(c, NL, "-");
    assert [CR] + [LF] == NL && Delimiter(boundary)[..1] == "-";
  }

  lemma PutPut(c: Config, a: string, b: string)
    requires c.open ==> c.parts != []
    ensures Put(Put(c, a), b) == Put(c, a + b)
  {
    if c.open {
      assert c.parts[|c.parts| - 1] + a + b == c.parts[|c.parts| - 1] + (a + b);
    }
  }

  // Everything up to the first character that cannot be skipped may go downstream in one piece.
  lemma {:induction false} SkipAhead(boundary: string, c: Config, b: string, n: nat)
    requires Wf(boundary, c) && c.state == SeenNothing && n <= |b|
    requires forall i :: 0 <= i < n ==> Skippable(b, i)
    ensures Run(boundary, c, b) == Run(boundary, Put(c, b[..n]), b[n..])
    decreases n
  {
    if n == 0 {
      PutNothing(c);
      assert b[0..] == b;
    } else {
      SkipOne(boundary, c, b);
      var t := b[1..];
      forall i | 0 <= i < n - 1
        ensures Skippable(t, i)
      {
        assert Skippable(b, i + 1);
        assert |t| - i > 4 ==> t[i..i + 4] == b[i + 1..i + 5];
      }
      SkipAhead(boundary, Put(c, [b[0]]), t, n - 1);
      PutPut(c, [b[0]], t[..n - 1]);
      assert [b[0]] + t[..n - 1] == b[..n] && t[n - 1..] == b[n..];
    }
  }

  lemma PutNothing(c: Config)
    requires c.open ==> c.parts != []
    ensures Put(c, "") == c
  {
    if c.open {
      assert c.parts[|c.parts| - 1] + "" == c.parts[|c.parts| - 1];
    }
  }
}
