// HTBound.c: the multipart stream as it runs, over blocks of input.
module HTBound {
  import opened BoundaryAutomaton

  datatype Status = HT_OK | HT_ERROR

  class HTBoundary {
    const boundary: string
    var keptcrlf: bool
    var state: State
    var boundaryPtr: nat

    // me->target != NULL, and what the targets have been given so far.
    var target: bool
    var parts: seq<string>

    // How often a target has refused a block.
    ghost var refusals: nat

    ghost predicate Valid()
      reads this
    {
      Wf(boundary, Cfg())
    }

    // The pointer into the boundary only means something while the boundary is being matched.
    ghost function Cfg(): Config
      reads this
    {
      Config(state, keptcrlf, if state == SeenDoubleDash then boundaryPtr else 0, target, parts)
    }

    // Lines 468-506, for a request that names a boundary.
    constructor (boundary: string)
      ensures this.boundary == boundary && Valid() && Cfg() == INITIAL && refusals == 0
    {
      this.boundary := boundary;
      keptcrlf, state, boundaryPtr, target, parts, refusals := false, StartOfLine, 0, false, [], 0;
    }

    // PUTBLOCK.  A target may refuse; without a target the bytes go nowhere.
    method Deliver(b: string) returns (ok: bool)
      requires target ==> parts != []
      modifies this`parts, this`refusals
      ensures ok ==> Cfg() == Put(old(Cfg()), b) && refusals == old(refusals)
      ensures !ok ==> refusals == old(refusals) + 1 && parts == old(parts)
    {
      if target {
        ok := *;
        if ok {
          parts := parts[|parts| - 1 := parts[|parts| - 1] + b];
        } else {
          refusals := refusals + 1;
        }
      } else {
        ok := true;
      }
    }

    // What every handler promises about the n bytes it takes from the front of b: going on from
    // here with the rest comes to the same as going on from c with all of b.  It takes none only if a
    // target refuses just now.
    ghost predicate Took(c: Config, b: string, n: nat, was: nat)
      requires Wf(boundary, c)
      reads this
    {
      if n == 0 then refusals == was + 1
      else n <= |b| && refusals == was && Valid() && Run(boundary, Cfg(), b[n..]) == Run(boundary, c, b)
    }

    // seen_nothing: pass on everything up to a CR that may begin a delimiter line.
    method OnNothing(b: string) returns (n: nat)
      requires b != "" && !keptcrlf && (target ==> parts != [])
      modifies this
      ensures Took(old(Cfg()).(state := SeenNothing, matched := 0), b, n, old(refusals))
    {
      state := SeenNothing;
      ghost var c := Cfg();
      var i := 0;
      while i < |b|
        invariant i <= |b| && forall j :: 0 <= j < i ==> Skippable(b, j)
      {
        if b[i] != CR {
          i := i + 1;
          continue;
        }
        if |b| - i > 4 && b[i..i + 4] != "\r\n--" {
          i := i + 1;
          continue;
        }
        break;
      }
      if i == 0 {
        state := SeenCR;
        return 1;
      }
      SkipAhead(boundary, c, b, i);
      var ok := Deliver(b[..i]);
      n := if ok then i else 0;
    }

    // not_delimiter: extra characters of the line looked like a delimiter and were withheld.
    method NotADelimiter(b: string, extra: nat) returns (n: nat)
      requires Valid() && b != "" && extra <= |boundary| + 2
      requires Step(boundary, Cfg(), b[0]) == NotDelimiter(boundary, Cfg(), extra, b[0])
      modifies this
      ensures Took(old(Cfg()), b, n, old(refusals))
    {
      ghost var c := Cfg();
      var ok;
      PutNothing(c);
      if keptcrlf {
        keptcrlf := false;
        ok := Deliver(NL);
        if !ok { return 0; }
      }
      ghost var kept := KeptBytes(c);
      assert Cfg() == Put(c, kept).(keptcrlf := false);
      if extra > 0 {
        ok := Deliver("--"[..if extra > 2 then 2 else extra]);
        if !ok { return 0; }
        if extra > 2 {
          ok := Deliver(boundary[..extra - 2]);
          if !ok { return 0; }
        }
      }
      WithheldPieces(boundary, c, extra);
      assert Cfg() == Put(c, kept + Delimiter(boundary)[..extra]).(keptcrlf := false);
      n := OnNothing(b);
    }

    method OnStartOfLine(b: string) returns (n: nat)
      requires Valid() && b != "" && state == StartOfLine
      modifies this
      ensures Took(old(Cfg()), b, n, old(refusals))
    {
      if b[0] != '-' {
        n := NotADelimiter(b, 0);
        return;
      }
      state := SeenDash;
      n := 1;
    }

    method OnDash(b: string) returns (n: nat)
      requires Valid() && b != "" && state == SeenDash
      modifies this
      ensures Took(old(Cfg()), b, n, old(refusals))
    {
      if b[0] != '-' {
        n := NotADelimiter(b, 1);
        return;
      }
      state := SeenDoubleDash;
      boundaryPtr := 0;
      n := 1;
    }

    method OnDoubleDash(b: string) returns (n: nat)
      requires Valid() && b != "" && state == SeenDoubleDash
      modifies this
      ensures Took(old(Cfg()), b, n, old(refusals))
    {
      if boundaryPtr < |boundary| {
        if b[0] != boundary[boundaryPtr] {
          n := NotADelimiter(b, boundaryPtr + 2);
          return;
        }
        boundaryPtr := boundaryPtr + 1;
        return 1;
      }
      if b[0] == '-' {
        state := SeenDelimiterDash;
        return 1;
      }
      n := OnDelimiterNonterminal(b);
    }

    method OnDelimiterNonterminal(b: string) returns (n: nat)
      requires b != ""
      modifies this`state
      ensures n == 1
      ensures Cfg() == Rest(old(Cfg()), b[0], SeenDelimiterNonterminal, SeenDelimiterNonterminalCR)
    {
      state := SeenDelimiterNonterminal;
      if b[0] == CR {
        state := SeenDelimiterNonterminalCR;
      }
      n := 1;
    }

    method OnDelimiterNonterminalCR(b: string) returns (n: nat)
      requires Valid() && b != "" && state == SeenDelimiterNonterminalCR
      modifies this
      ensures Took(old(Cfg()), b, n, old(refusals))
    {
      if b[0] != LF {
        n := OnDelimiterNonterminal(b);
        return;
      }
      ProcessBoundary(false);
      n := 1;
    }

    method OnDelimiterDash(b: string) returns (n: nat)
      requires Valid() && b != "" && state == SeenDelimiterDash
      modifies this
      ensures Took(old(Cfg()), b, n, old(refusals))
    {
      if b[0] != '-' {
        n := OnDelimiterNonterminal(b);
        return;
      }
      state := SeenDelimiterTerminal;
      n := 1;
    }

    method OnDelimiterTerminal(b: string) returns (n: nat)
      requires b != ""
      modifies this`state
      ensures n == 1
      ensures Cfg() == Rest(old(Cfg()), b[0], SeenDelimiterTerminal, SeenDelimiterTerminalCR)
    {
      state := SeenDelimiterTerminal;
      if b[0] == CR {
        state := SeenDelimiterTerminalCR;
      }
      n := 1;
    }

    method OnDelimiterTerminalCR(b: string) returns (n: nat)
      requires Valid() && b != "" && state == SeenDelimiterTerminalCR
      modifies this
      ensures Took(old(Cfg()), b, n, old(refusals))
    {
      if b[0] != LF {
        n := OnDelimiterTerminal(b);
        return;
      }
      ProcessBoundary(true);
      n := 1;
    }

    method OnCR(b: string) returns (n: nat)
      requires Valid() && b != "" && state == SeenCR
      modifies this
      ensures Took(old(Cfg()), b, n, old(refusals))
    {
      if b[0] != LF {
        ghost var c := Cfg();
        var ok := Deliver("\r");
        if !ok { return 0; }
        n := OnNothing(b);
        return;
      }
      state := StartOfLine;
      keptcrlf := true;
      n := 1;
    }

    // process_boundary: end the current part, and begin the next one unless this was the last.
    method ProcessBoundary(isterminal: bool)
      modifies this
      ensures Cfg() == Process(old(Cfg()), isterminal) && refusals == old(refusals)
    {
      target := false;
      state := StartOfLine;
      keptcrlf := false;
      if !isterminal {
        target, parts := true, parts + [""];
      }
    }

    // (*me->state)(me, b, l)
    method Handle(b: string) returns (n: nat)
      requires Valid() && b != ""
      modifies this
      ensures Took(old(Cfg()), b, n, old(refusals))
    {
      match state
      case StartOfLine => n := OnStartOfLine(b);
      case SeenDash => n := OnDash(b);
      case SeenDoubleDash => n := OnDoubleDash(b);
      case SeenDelimiterNonterminal => n := OnDelimiterNonterminal(b);
      case SeenDelimiterNonterminalCR => n := OnDelimiterNonterminalCR(b);
      case SeenDelimiterDash => n := OnDelimiterDash(b);
      case SeenDelimiterTerminal => n := OnDelimiterTerminal(b);
      case SeenDelimiterTerminalCR => n := OnDelimiterTerminalCR(b);
      case SeenNothing => n := OnNothing(b);
      case SeenCR => n := OnCR(b);
    }

    // HTBoundary_put_block: an accepted block leaves the stream exactly where the automaton goes.
    method PutBlock(block: string) returns (status: Status)
      requires Valid()
      modifies this
      ensures status == HT_OK ==> Valid() && Cfg() == Run(boundary, old(Cfg()), block) && refusals == old(refusals)
      ensures status == HT_ERROR ==> refusals == old(refusals) + 1
    {
      var b := block;
      while b != ""
        invariant Valid() && refusals == old(refusals)
        invariant Run(boundary, Cfg(), b) == Run(boundary, old(Cfg()), block)
        decreases |b|
      {
        var n := Handle(b);
        if n == 0 {
          return HT_ERROR;
        }
        b := b[n..];
      }
      status := HT_OK;
    }
  }

  // Sending the withheld bytes piece by piece is sending them at once.
  lemma WithheldPieces(boundary: string, c: Config, extra: nat)
    requires (c.open ==> c.parts != []) && extra <= |boundary| + 2
    ensures var k := Put(c, KeptBytes(c));
      var d := if extra == 0 then k else Put(k, "--"[..if extra > 2 then 2 else extra]);
      Put(c, KeptBytes(c) + Delimiter(boundary)[..extra]) == if extra > 2 then Put(d, boundary[..extra - 2]) else d
  {
    var kept := KeptBytes(c);
    var dashes := "--"[..if extra > 2 then 2 else extra];
    PutPut(c, kept, dashes);
    if extra == 0 {
      assert kept + Delimiter(boundary)[..0] == kept;
    } else if extra > 2 {
      PutPut(c, kept + dashes, boundary[..extra - 2]);
      assert kept + dashes + boundary[..extra - 2] == kept + Delimiter(boundary)[..extra];
    } else {
      assert dashes == Delimiter(boundary)[..extra];
    }
  }
}
