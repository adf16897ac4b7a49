// The walk of the FTP client along a path: it visits each segment once, and the directories and the
// argument of the transfer command rejoin to the name of the file.
module FTPWalk {
  import opened FTPMachine
  import opened FTPSession
  import opened FTPRetries
  import opened Options

  // The directories changed to.
  function Cwds(t: seq<Event>): seq<string> {
    if t == [] then []
    else
      var last := t[|t| - 1];
      Cwds(t[..|t| - 1]) + if last.Cmd? && last.cmd == CWD then [last.arg] else []
  }

  function Joined(segments: seq<string>): string {
    if segments == [] then "" else Joined(segments[..|segments| - 1]) + segments[|segments| - 1] + "/"
  }

  predicate IsRoot(s: string) {
    s == "/" || "[" <= s
  }

  // After the directories w, all that is left of the file is rest.
  predicate Along(file: string, w: seq<string>, rest: string) {
    if w == [] then rest == file
    else
      var x := w[|w| - 1];
      if |w| == 1 then IsRoot(x) && file != "" && rest == file[1..]
      else '/' !in x && Along(file, w[..|w| - 1], x + "/" + rest)
  }

  // The last thing that happened is that the server changed directory.
  predicate JustMoved(p: Past) {
    IsCommand(p.before, CWD) && p.last.Some? && p.last.value.Reply? && Class(p.last.value.code) == 2
  }

  predicate AllowedOnWalk(file: string, w: seq<string>, p: Past, e: Event) {
    e.Cmd? && IsTransfer(e.cmd) ==> Along(file, w, e.arg) && (JustMoved(p) ==> '/' !in e.arg)
  }

  function After(w: seq<string>, e: Event): seq<string> {
    if e.Cmd? && e.cmd == CWD then w + [e.arg] else w
  }

  predicate Faithful(file: string, w: seq<string>, p: Past, t: seq<Event>)
    decreases |t|
  {
    t == [] || (AllowedOnWalk(file, w, p, t[0]) && Faithful(file, After(w, t[0]), Heed(p, t[0]), t[1..]))
  }

  // ---------------------------------------------------------------------------------------------
  // The invariant

  function Visited(f: Ftp, w: seq<string>): seq<string> {
    if Pending(f) == 1 then w + [f.d.segment] else w
  }

  predicate OnTheWay(f: Ftp, w: seq<string>) {
    f.d.offset <= |f.r.file| ==>
    && (f.d.offset == 0 <==> Visited(f, w) == [])
    && Along(f.r.file, Visited(f, w), f.r.file[f.d.offset..])
  }

  predicate Tracks(f: Ftp, p: Past) {
    Working(f) && JustMoved(p) && !f.sent ==>
      && f.state == FTP_NEED_DATA
      && f.substate in {DATA_SEGMENT, DATA_CWD, DATA_ACTION}
      && (f.substate == DATA_ACTION && f.d.offset <= |f.r.file| ==> '/' !in f.r.file[f.d.offset..])
  }

  lemma AlongNext(file: string, w: seq<string>, rest: string)
    requires w != [] && Along(file, w, rest) && Find(rest, '/') < |rest|
    ensures Along(file, w + [rest[..Find(rest, '/')]], rest[Find(rest, '/') + 1..])
  {
    var k := Find(rest, '/');
    var v := w + [rest[..k]];
    assert v[..|v| - 1] == w;
    assert rest == rest[..k] + "/" + rest[k + 1..];
  }

  lemma SegmentOnTheWay(f: Ftp, w: seq<string>)
    requires OnTheWay(f, w) && f.state == FTP_NEED_DATA && f.substate == DATA_SEGMENT && !f.sent
    ensures OnTheWay(SegmentStep(f), w)
  {
    if f.d.offset == 0 {
      RootOnTheWay(f, w);
    } else if f.d.offset <= |f.r.file| {
      var rest := f.r.file[f.d.offset..];
      var k := Find(rest, '/');
      if k < |rest| {
        assert rest[k + 1..] == f.r.file[f.d.offset + k + 1..];
        AlongNext(f.r.file, w, rest);
      }
    }
  }

  lemma RootOnTheWay(f: Ftp, w: seq<string>)
    requires OnTheWay(f, w) && f.state == FTP_NEED_DATA && f.substate == DATA_SEGMENT && !f.sent
    requires f.d.offset == 0
    ensures OnTheWay(SegmentStep(f), w)
  {
    assert w == [];
    var v := w + [Root(f)];
    assert v[|v| - 1] == Root(f) && IsRoot(Root(f));
  }

  lemma CwdOnTheWay(f: Ftp, e: Env, w: seq<string>)
    requires OnTheWay(f, w) && f.state == FTP_NEED_DATA && f.substate == DATA_CWD
    ensures OnTheWay(CwdStep(f, e), if Said(f, e) == [] then w else After(w, Said(f, e)[0])) && CwdStep(f, e).r == f.r
  {
  }

  lemma StepOnTheWay(f: Ftp, e: Env, w: seq<string>)
    requires OnTheWay(f, w) && Sound(f)
    ensures OnTheWay(Step(f, e), if Said(f, e) == [] then w else After(w, Said(f, e)[0]))
    ensures Step(f, e).r == f.r
  {
    if f.state == FTP_NEED_DATA && f.substate == DATA_SEGMENT {
      SegmentOnTheWay(f, w);
    } else if f.state == FTP_NEED_DATA && f.substate == DATA_CWD {
      CwdOnTheWay(f, e, w);
    } else {
      StepStays(f, e);
      SaysNoCwd(f, e);
    }
  }

  // Outside of the walk nothing changes that the walk depends on.
  lemma SaysNoCwd(f: Ftp, e: Env)
    requires !(f.state == FTP_NEED_DATA && f.substate in {DATA_SEGMENT, DATA_CWD})
    ensures Said(f, e) != [] ==> !IsCommand(Some(Said(f, e)[0]), CWD)
  {
  }

  predicate TracksOn(f: Ftp, e: Env, g: Ftp, p: Past) {
    Tracks(g, if Said(f, e) == [] then p else Heed(p, Said(f, e)[0]))
  }

  lemma LoginTracks(f: Ftp, e: Env, p: Past)
    requires Linked(f, p) && Tracks(f, p) && f.state == FTP_NEED_LOGIN
    ensures TracksOn(f, e, LoginStep(f, e), p)
  {
  }

  lemma DconTracks(f: Ftp, e: Env, p: Past)
    requires Linked(f, p) && Tracks(f, p) && f.state == FTP_NEED_DCON
    ensures TracksOn(f, e, DconStep(f, e), p)
  {
  }

  lemma ServerTracks(f: Ftp, e: Env, p: Past)
    requires Linked(f, p) && Tracks(f, p) && f.state == FTP_NEED_SERVER
    ensures TracksOn(f, e, ServerStep(f, e), p)
  {
  }

  lemma DataTracks(f: Ftp, e: Env, p: Past)
    requires Linked(f, p) && Tracks(f, p) && f.state == FTP_NEED_DATA && Sound(f)
    ensures TracksOn(f, e, DataStep(f, e), p)
  {
  }

  lemma StepTracks(f: Ftp, e: Env, p: Past)
    requires Linked(f, p) && Tracks(f, p) && Sound(f)
    ensures TracksOn(f, e, Step(f, e), p)
  {
    match f.state
    case FTP_NEED_LOGIN => LoginTracks(f, e, p);
    case FTP_NEED_DCON => DconTracks(f, e, p);
    case FTP_NEED_SERVER => ServerTracks(f, e, p);
    case FTP_NEED_DATA => DataTracks(f, e, p);
    case _ =>
  }

  lemma SaidOnTheWay(f: Ftp, e: Env, w: seq<string>, p: Past)
    requires OnTheWay(f, w) && Linked(f, p) && Tracks(f, p) && Said(f, e) != []
    ensures AllowedOnWalk(f.r.file, w, p, Said(f, e)[0])
  {
  }

  predicate OnTour(f: Ftp, w: seq<string>, p: Past) {
    OnTheWay(f, w) && Linked(f, p) && Tracks(f, p) && Sound(f)
  }

  lemma StepOnTour(f: Ftp, e: Env, w: seq<string>, p: Past)
    requires OnTour(f, w, p)
    ensures Said(f, e) == [] ==> OnTour(Step(f, e), w, p)
    ensures Said(f, e) != [] ==>
      AllowedOnWalk(f.r.file, w, p, Said(f, e)[0]) && OnTour(Step(f, e), After(w, Said(f, e)[0]), Heed(p, Said(f, e)[0]))
    ensures Step(f, e).r == f.r
  {
    StepKeeps(f, e, p);
    StepIsSound(f, e);
    StepOnTheWay(f, e, w);
    StepTracks(f, e, p);
    if Said(f, e) != [] {
      SaidOnTheWay(f, e, w, p);
    }
  }

  lemma {:induction false} RunIsFaithful(f: Ftp, es: seq<Env>, w: seq<string>, p: Past)
    requires OnTour(f, w, p)
    ensures Faithful(f.r.file, w, p, Trace(f, es))
    decreases |es|
  {
    if es != [] {
      var g := Step(f, es[0]);
      var said, rest := Said(f, es[0]), Trace(g, es[1..]);
      StepOnTour(f, es[0], w, p);
      if said == [] {
        RunIsFaithful(g, es[1..], w, p);
        assert said + rest == rest;
      } else {
        RunIsFaithful(g, es[1..], After(w, said[0]), Heed(p, said[0]));
        assert (said + rest)[1..] == rest;
      }
    }
  }

  // ---------------------------------------------------------------------------------------------
  // The same, said of the positions in a trace.

  lemma Advance(t: seq<Event>, k: nat)
    requires k < |t|
    ensures Cwds(t[..k + 1]) == After(Cwds(t[..k]), t[k])
    ensures Summary(t[..k + 1]) == Heed(Summary(t[..k]), t[k])
  {
    assert t[..k + 1][..k] == t[..k];
  }

  lemma {:induction false} FaithfulAt(file: string, t: seq<Event>, k: nat, i: nat)
    requires k <= i < |t| && Faithful(file, Cwds(t[..k]), Summary(t[..k]), t[k..])
    ensures AllowedOnWalk(file, Cwds(t[..i]), Summary(t[..i]), t[i])
    decreases i - k
  {
    if i > k {
      Advance(t, k);
      var u := t[k..];
      assert u[0] == t[k] && u[1..] == t[k + 1..];
      assert Faithful(file, After(Cwds(t[..k]), u[0]), Heed(Summary(t[..k]), u[0]), u[1..]);
      FaithfulAt(file, t, k + 1, i);
    }
  }

  // What Along says, said at once.
  lemma {:induction false} AlongMeans(file: string, w: seq<string>, rest: string)
    requires w != [] && Along(file, w, rest)
    ensures IsRoot(w[0]) && file != "" && Joined(w[1..]) + rest == file[1..]
    ensures forall k :: 1 <= k < |w| ==> '/' !in w[k]
  {
    if |w| > 1 {
      var v, x := w[..|w| - 1], w[|w| - 1];
      AlongMeans(file, v, x + "/" + rest);
      assert w[1..][..|w| - 2] == v[1..];
      assert Joined(w[1..]) == Joined(v[1..]) + x + "/";
      assert Joined(w[1..]) + rest == Joined(v[1..]) + (x + "/" + rest);
    }
  }

  // Where a transfer command goes out, the directories changed to so far and its argument rejoin to the
  // file, whose first character stands for the root, so they are the path exactly if it begins with a
  // slash.  If the walk is over, no slash is left in the argument.
  lemma WalkRejoins(uid: string, passwd: string, server: Server, kind: char, r: Request, es: seq<Env>, i: nat)
    requires i < |Trace(Start(uid, passwd, server, kind, r), es)|
    requires var t := Trace(Start(uid, passwd, server, kind, r), es); t[i].Cmd? && IsTransfer(t[i].cmd)
    ensures var t := Trace(Start(uid, passwd, server, kind, r), es); var w := Cwds(t[..i]);
      && Along(r.file, w, t[i].arg)
      && (Answered(t, i, CWD, 2) ==> '/' !in t[i].arg)
  {
    var f := Start(uid, passwd, server, kind, r);
    var t := Trace(f, es);
    RunIsFaithful(f, es, [], NO_PAST);
    assert t[..0] == [] && t[0..] == t;
    FaithfulAt(r.file, t, 0, i);
  }

  lemma RejoinsToFile(file: string, w: seq<string>, rest: string)
    requires w != [] && Along(file, w, rest)
    ensures "/" + Joined(w[1..]) + rest == file <==> "/" <= file
  {
    AlongMeans(file, w, rest);
    var whole := "/" + Joined(w[1..]) + rest;
    assert whole == "/" + (Joined(w[1..]) + rest);
    assert file == file[..1] + file[1..];
    assert whole[0] == '/';
  }

  // ---------------------------------------------------------------------------------------------
  // The walk stays within the file

  lemma StepInRange(f: Ftp, e: Env)
    requires f.r.file != "" && Sound(f) && f.state != OUT_OF_RANGE
    ensures Step(f, e).state != OUT_OF_RANGE && Step(f, e).r == f.r
  {
    if !(f.state == FTP_NEED_DATA && f.substate == DATA_SEGMENT) {
      StepStays(f, e);
    }
  }

  lemma {:induction false} StaysInRange(f: Ftp, es: seq<Env>)
    requires f.r.file != "" && InStep(f) && Sound(f) && f.state != OUT_OF_RANGE
    ensures Run(f, es).state != OUT_OF_RANGE
    decreases |es|
  {
    if es != [] {
      StepIsSound(f, es[0]);
      StepInRange(f, es[0]);
      StaysInRange(Step(f, es[0]), es[1..]);
    }
  }

  ghost predicate Reaches(f: Ftp, g: Ftp) {
    exists es :: Run(f, es) == g
  }

  lemma Next(f: Ftp, g: Ftp, e: Env) returns (h: Ftp)
    requires Reaches(f, g)
    ensures h == Step(g, e) && Reaches(f, h)
  {
    h := Step(g, e);
    var es :| Run(f, es) == g;
    RunSnoc(f, es, e);
  }

  const YES := Env(HT_LOADED, 230, false, "", false, true, None, "user", "passwd", false)

  // Nothing is under way, and the walk has not begun.
  predicate Waiting(f: Ftp, r: Request) {
    !f.sent && f.d.offset == 0 && !f.d.pasv && !f.c.cwd && f.r == r
  }

  lemma LogsIn(f: Ftp, r: Request) returns (g: Ftp)
    requires Waiting(f, r) && f.state == FTP_NEED_LOGIN && f.substate == SUB_FIRST
    ensures Reaches(f, g) && g.state == FTP_NEED_DCON && g.substate == SUB_FIRST && Waiting(g, r)
  {
    assert Run(f, []) == f;
    g := Next(f, f, YES);
    g := Next(f, g, YES);  // the greeting, or REIN
    if r.reset {
      g := Next(f, g, YES);
    }
    if g.substate == LOGIN_PROMPT {
      g := Next(f, g, YES);
    }
    g := Next(f, g, YES);  // USER
    g := Next(f, g, YES);
    g := Next(f, g, YES);
  }

  lemma Connects(f: Ftp, start: Ftp, r: Request) returns (g: Ftp)
    requires Reaches(f, start) && Waiting(start, r) && start.state == FTP_NEED_DCON && start.substate == SUB_FIRST
    ensures Reaches(f, g) && g.state in {FTP_NEED_SERVER, FTP_NEED_DATA} && g.substate == SUB_FIRST && Waiting(g, r)
  {
    g := Next(f, start, YES);
    if g.substate == SUB_FIRST {  // TYPE
      g := Next(f, g, YES);
    }
    assert g.state == FTP_NEED_DCON && g.substate == DCON_SELECT && Waiting(g, r);
    g := Next(f, g, YES);
    if g.substate == DCON_PASV {
      g := Next(f, g, YES);
      g := Next(f, g, YES);
    }
    g := SendsPort(f, g, r);
  }

  lemma SendsPort(f: Ftp, start: Ftp, r: Request) returns (g: Ftp)
    requires Reaches(f, start) && Waiting(start, r) && start.state == FTP_NEED_DCON && start.substate == DCON_PORT
    ensures Reaches(f, g) && g.state in {FTP_NEED_SERVER, FTP_NEED_DATA} && g.substate == SUB_FIRST && Waiting(g, r)
  {
    g := Next(f, start, YES);
    g := Next(f, g, YES);
    g := Next(f, g, YES);
  }

  lemma AsksServer(f: Ftp, start: Ftp, r: Request) returns (g: Ftp)
    requires Reaches(f, start) && Waiting(start, r) && start.state == FTP_NEED_SERVER && start.substate == SUB_FIRST
    ensures Reaches(f, g) && g.state == FTP_NEED_DATA && g.substate == SUB_FIRST && Waiting(g, r)
  {
    g := Next(f, start, YES);
    if g.state == FTP_NEED_SERVER {  // SYST
      g := Next(f, g, YES);
      g := Next(f, g, YES);  // PWD
      g := Next(f, g, YES.(code := 500));
      g := Next(f, g, YES);
    }
  }

  lemma NameIsRefused(f: Ftp, start: Ftp, r: Request) returns (g: Ftp)
    requires Reaches(f, start) && Waiting(start, r) && start.state == FTP_NEED_DATA && start.substate == SUB_FIRST
    ensures Reaches(f, g) && g.state == FTP_NEED_DATA && g.substate == DATA_SEGMENT && Waiting(g, r)
  {
    g := Next(f, start, YES);
    g := Next(f, g, YES);  // the transfer command
    g := Next(f, g, YES.(code := 550));
  }

  lemma LeavesTheName(f: Ftp, start: Ftp, r: Request) returns (g: Ftp)
    requires Reaches(f, start) && Waiting(start, r) && start.state == FTP_NEED_DATA && start.substate == DATA_SEGMENT
    requires r.file == ""
    ensures Reaches(f, g) && g.state == OUT_OF_RANGE
  {
    g := Next(f, start, YES);
    g := Next(f, g, YES);  // CWD
    g := Next(f, g, YES);
    g := Next(f, g, YES);
  }

  // The empty name is what the path of a root directory leaves.  Where its transfer is refused, the client
  // changes to the root and then reads past the end of the name; with no other name does it ever do so.
  lemma RunsOffTheEnd(uid: string, passwd: string, server: Server, kind: char, r: Request)
    ensures (exists es :: Run(Start(uid, passwd, server, kind, r), es).state == OUT_OF_RANGE) <==> r.file == ""
  {
    var f := Start(uid, passwd, server, kind, r);
    if r.file == "" {
      var g := LogsIn(f, r);
      g := Connects(f, g, r);
      if g.state == FTP_NEED_SERVER {
        g := AsksServer(f, g, r);
      }
      g := NameIsRefused(f, g, r);
      g := LeavesTheName(f, g, r);
      var es :| Run(f, es) == g;
      assert Run(f, es).state == OUT_OF_RANGE;
    } else {
      forall es
        ensures Run(f, es).state != OUT_OF_RANGE
      {
        StaysInRange(f, es);
      }
    }
  }
}
