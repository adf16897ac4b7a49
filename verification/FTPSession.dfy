// What every run of the FTP client keeps of the order of its commands.  The conversation so far is
// summed up in a Past; Polite says that every event of a trace is allowed where it occurs.
module FTPSession {
  import opened FTPMachine
  import opened Options

  predicate IsCmd(e: Option<Event>) {
    e.Some? && e.value.Cmd?
  }

  predicate IsCommand(e: Option<Event>, c: Command) {
    IsCmd(e) && e.value.cmd == c
  }

  predicate Asks(e: Option<Event>) {
    e.Some? && e.value.Reply? && Class(e.value.code) == 3
  }

  predicate Identifies(c: Command) {
    c in {USER, PASS, ACCT}
  }

  // The reply b to the command a means that the user is logged in.
  predicate Admits(a: Event, b: Event) {
    && a.Cmd? && b.Reply?
    && ((Identifies(a.cmd) && Class(b.code) == 2) || (a.cmd == USER && b.code == 530 && b.already))
  }

  // The server refuses to forget the user of a persistent connection.
  predicate Refuses(a: Event, b: Event) {
    a.Cmd? && a.cmd == REIN && b.Reply? && Class(b.code) != 2 && b.code != 502
  }

  datatype Past = Past(before: Option<Event>, last: Option<Event>, admitted: bool, refused: bool)

  const NO_PAST := Past(None, None, false, false)

  function Heed(p: Past, e: Event): Past {
    Past(p.last, Some(e), p.admitted || (p.last.Some? && Admits(p.last.value, e)),
         p.refused || (p.last.Some? && Refuses(p.last.value, e)))
  }

  predicate LetIn(p: Past) {
    p.admitted || p.refused
  }

  // What may come next.
  predicate Allowed(p: Past, e: Event) {
    match e
    case Cmd(c, _) =>
      && !IsCmd(p.last)
      && (Identifies(c) || c == REIN <==> !LetIn(p))
      && (c == REIN ==> p.last.None?)
      && (c == PASS ==> IsCommand(p.before, USER) && Asks(p.last))
      && (c == ACCT ==> IsCommand(p.before, PASS) && Asks(p.last))
    case Reply(_, _) => IsCmd(p.last) || p.last.None? || LetIn(p)
    case Lost => IsCmd(p.last)
  }

  predicate Polite(p: Past, t: seq<Event>)
    decreases |t|
  {
    t == [] || (Allowed(p, t[0]) && Polite(Heed(p, t[0]), t[1..]))
  }

  // ---------------------------------------------------------------------------------------------
  // The invariant

  // sent says that the last thing on the connection is the command of the current arm.  After a 227
  // without an address it is left set; the data connection has failed then.
  predicate InStep(f: Ftp) {
    f.sent ==>
      || Current(f) != Nothing
      || (f.state == FTP_NEED_DCON && f.substate == SUB_ERROR)
      || f.state == FTP_ERROR
  }

  lemma StaysInStep(f: Ftp, e: Env)
    requires InStep(f)
    ensures InStep(Step(f, e))
  {
    match f.state
    case FTP_NEED_LOGIN =>
    case FTP_NEED_DCON =>
    case FTP_NEED_SERVER =>
    case FTP_NEED_DATA => DataStaysInStep(f, e);
    case _ =>
  }

  lemma DataStaysInStep(f: Ftp, e: Env)
    requires InStep(f) && f.state == FTP_NEED_DATA
    ensures InStep(DataStep(f, e))
  {
  }

  predicate Linked(f: Ftp, p: Past) {
    && InStep(f)
    && (!f.sent ==> !IsCmd(p.last))
    && (f.sent && Current(f) != Nothing ==> p.last == Some(Cmd(Current(f).cmd, Current(f).arg)))
    && match f.state
       case FTP_NEED_LOGIN =>
         && (f.substate == SUB_SUCCESS <==> LetIn(p))
         && (f.substate in {SUB_FIRST, LOGIN_GREETING} || (f.substate == LOGIN_REIN && !f.sent) ==> p.last.None?)
         && (f.substate == LOGIN_PASSWD && !f.sent ==> IsCommand(p.before, USER) && Asks(p.last))
         && (f.substate == LOGIN_ACCOUNT && !f.sent ==> IsCommand(p.before, PASS) && Asks(p.last))
       case FTP_NEED_DCON | FTP_NEED_DATA | FTP_NEED_SERVER => LetIn(p)
       case _ => true
  }

  // Said has at most one event.
  predicate Keeps(f: Ftp, g: Ftp, e: Env, p: Past) {
    if Said(f, e) == [] then Linked(g, p)
    else Allowed(p, Said(f, e)[0]) && Linked(g, Heed(p, Said(f, e)[0]))
  }

  lemma LoginKeeps(f: Ftp, e: Env, p: Past)
    requires Linked(f, p) && f.state == FTP_NEED_LOGIN
    ensures Keeps(f, LoginStep(f, e), e, p)
  {
  }

  lemma DconKeeps(f: Ftp, e: Env, p: Past)
    requires Linked(f, p) && f.state == FTP_NEED_DCON
    ensures Keeps(f, DconStep(f, e), e, p)
  {
  }

  lemma ServerKeeps(f: Ftp, e: Env, p: Past)
    requires Linked(f, p) && f.state == FTP_NEED_SERVER
    ensures Keeps(f, ServerStep(f, e), e, p)
  {
  }

  lemma ActionKeeps(f: Ftp, e: Env, p: Past)
    requires Linked(f, p) && f.state == FTP_NEED_DATA && f.substate == DATA_ACTION
    ensures Keeps(f, ActionStep(f, e), e, p)
  {
  }

  lemma CwdKeeps(f: Ftp, e: Env, p: Past)
    requires Linked(f, p) && f.state == FTP_NEED_DATA && f.substate == DATA_CWD
    ensures Keeps(f, CwdStep(f, e), e, p)
  {
  }

  lemma BodyKeeps(f: Ftp, e: Env, p: Past)
    requires Linked(f, p) && f.state == FTP_NEED_DATA && f.substate == DATA_BODY
    ensures Keeps(f, BodyStep(f, e), e, p)
  {
  }

  lemma DataKeeps(f: Ftp, e: Env, p: Past)
    requires Linked(f, p) && f.state == FTP_NEED_DATA
    ensures Keeps(f, DataStep(f, e), e, p)
  {
    match f.substate
    case DATA_ACTION => ActionKeeps(f, e, p);
    case DATA_CWD => CwdKeeps(f, e, p);
    case DATA_BODY => BodyKeeps(f, e, p);
    case _ =>
  }

  lemma StepKeeps(f: Ftp, e: Env, p: Past)
    requires Linked(f, p)
    ensures Keeps(f, Step(f, e), e, p)
  {
    match f.state
    case FTP_NEED_LOGIN => LoginKeeps(f, e, p);
    case FTP_NEED_DCON => DconKeeps(f, e, p);
    case FTP_NEED_SERVER => ServerKeeps(f, e, p);
    case FTP_NEED_DATA => DataKeeps(f, e, p);
    case _ =>
  }

  lemma {:induction false} RunIsPolite(f: Ftp, es: seq<Env>, p: Past)
    requires Linked(f, p)
    ensures Polite(p, Trace(f, es))
    decreases |es|
  {
    if es == [] {
    } else {
      StepKeeps(f, es[0], p);
      var said := Said(f, es[0]);
      var rest := Trace(Step(f, es[0]), es[1..]);
      if said == [] {
        RunIsPolite(Step(f, es[0]), es[1..], p);
        assert said + rest == rest;
      } else {
        RunIsPolite(Step(f, es[0]), es[1..], Heed(p, said[0]));
        assert (said + rest)[1..] == rest;
      }
    }
  }

  // ---------------------------------------------------------------------------------------------
  // The same, said of the positions in a trace.

  function Summary(t: seq<Event>): (p: Past)
    ensures p.last == (if |t| >= 1 then Some(t[|t| - 1]) else None)
    ensures p.before == (if |t| >= 2 then Some(t[|t| - 2]) else None)
  {
    if t == [] then NO_PAST else Heed(Summary(t[..|t| - 1]), t[|t| - 1])
  }

  lemma SummaryGrows(t: seq<Event>, said: seq<Event>)
    requires |said| <= 1
    ensures Summary(t + said) == if said == [] then Summary(t) else Heed(Summary(t), said[0])
  {
    if said == [] {
      assert t + said == t;
    } else {
      assert (t + said)[..|t|] == t;
    }
  }

  lemma {:induction false} RunLinked(f: Ftp, es: seq<Env>)
    requires Linked(f, NO_PAST)
    ensures Linked(Run(f, es), Summary(Trace(f, es)))
    decreases |es|
  {
    if es != [] {
      var front, last := es[..|es| - 1], es[|es| - 1];
      RunLinked(f, front);
      assert es == front + [last];
      StaysLinked(f, front, last);
    }
  }

  lemma StaysLinked(f: Ftp, es: seq<Env>, e: Env)
    requires Linked(Run(f, es), Summary(Trace(f, es)))
    ensures Linked(Run(f, es + [e]), Summary(Trace(f, es + [e])))
  {
    RunSnoc(f, es, e);
    StepKeeps(Run(f, es), e, Summary(Trace(f, es)));
    SummaryGrows(Trace(f, es), Said(Run(f, es), e));
  }

  lemma LeavesNothing(f: Ftp, e: Env, p: Past)
    requires Linked(f, p)
    requires Step(f, e).state != f.state && Step(f, e).state !in {FTP_ERROR, OUT_OF_RANGE}
    ensures Step(f, e).substate == SUB_FIRST && !Step(f, e).sent && !IsCmd(p.last) && Said(f, e) == []
  {
    match f.state
    case FTP_NEED_LOGIN =>
    case FTP_NEED_DCON =>
    case FTP_NEED_SERVER =>
    case FTP_NEED_DATA =>
    case _ =>
  }

  // The server has let the user in, or refused REIN.
  predicate Accepted(t: seq<Event>) {
    exists j :: 1 <= j < |t| && (Admits(t[j - 1], t[j]) || Refuses(t[j - 1], t[j]))
  }

  lemma AcceptedIsLetIn(t: seq<Event>)
    ensures LetIn(Summary(t)) <==> Accepted(t)
  {
    assert t[..|t|] == t;
    SummaryTells(t, |t|);
  }

  lemma LoginGoesOn(f: Ftp, e: Env, p: Past)
    requires Linked(f, p) && f.state == FTP_NEED_LOGIN
    ensures LoginStep(f, e).state == FTP_NEED_DCON <==> LetIn(p)
    ensures LoginStep(f, e).state == FTP_ERROR ==> !LetIn(p)
  {
  }

  // While the client logs in, the next step takes it on to the data connection exactly if the login has been
  // accepted; so no login that was accepted is lost.
  lemma LoginIsAccepted(uid: string, passwd: string, server: Server, kind: char, r: Request, es: seq<Env>, e: Env)
    requires Run(Start(uid, passwd, server, kind, r), es).state == FTP_NEED_LOGIN
    ensures var start := Start(uid, passwd, server, kind, r);
      Run(start, es + [e]).state == FTP_NEED_DCON <==> Accepted(Trace(start, es))
  {
    var start := Start(uid, passwd, server, kind, r);
    RunLinked(start, es);
    RunSnoc(start, es, e);
    LoginGoesOn(Run(start, es), e, Summary(Trace(start, es)));
    AcceptedIsLetIn(Trace(start, es));
  }

  // Whenever one machine hands over to another without an error, it leaves nothing behind: the substate is
  // the first one of the next machine, and no command waits for its reply.
  lemma HandOver(uid: string, passwd: string, server: Server, kind: char, r: Request, es: seq<Env>, e: Env)
    requires var f := Run(Start(uid, passwd, server, kind, r), es);
      Step(f, e).state != f.state && Step(f, e).state !in {FTP_ERROR, OUT_OF_RANGE}
    ensures var start := Start(uid, passwd, server, kind, r); var t := Trace(start, es + [e]);
      && Run(start, es + [e]).substate == SUB_FIRST && !Run(start, es + [e]).sent
      && (t == [] || !t[|t| - 1].Cmd?)
  {
    var start := Start(uid, passwd, server, kind, r);
    var f, t := Run(start, es), Trace(start, es);
    RunLinked(start, es);
    LeavesNothing(f, e, Summary(t));
    RunSnoc(start, es, e);
    assert Trace(start, es + [e]) == t + [] == t;
  }

  lemma {:induction false} SummaryTells(t: seq<Event>, i: nat)
    requires i <= |t|
    ensures Summary(t[..i]).admitted <==> exists j :: 1 <= j < i && Admits(t[j - 1], t[j])
    ensures Summary(t[..i]).refused <==> exists j :: 1 <= j < i && Refuses(t[j - 1], t[j])
  {
    if i > 0 {
      SummaryTells(t, i - 1);
      assert t[..i][..i - 1] == t[..i - 1];
    }
  }

  lemma {:induction false} PoliteAt(t: seq<Event>, k: nat, i: nat)
    requires k <= i < |t| && Polite(Summary(t[..k]), t[k..])
    ensures Allowed(Summary(t[..i]), t[i])
    decreases i - k
  {
    if i > k {
      assert t[..k + 1][..k] == t[..k];
      assert t[k..][1..] == t[k + 1..];
      PoliteAt(t, k + 1, i);
    }
  }

  predicate Answered(t: seq<Event>, i: nat, c: Command, digit: nat)
    requires i <= |t|
  {
    i >= 2 && t[i - 2].Cmd? && t[i - 2].cmd == c && t[i - 1].Reply? && Class(t[i - 1].code) == digit
  }

  // Every command waits for the reply to the one before; PASS follows a 3xx to USER, and ACCT a 3xx to
  // PASS; the user is identified before anything else is asked for, and only then.
  predicate InOrder(t: seq<Event>, i: nat)
    requires i < |t| && t[i].Cmd?
  {
    && (i > 0 ==> !t[i - 1].Cmd?)
    && (t[i].cmd == REIN ==> i == 0)
    && (t[i].cmd == PASS ==> Answered(t, i, USER, 3))
    && (t[i].cmd == ACCT ==> Answered(t, i, PASS, 3))
    && (Identifies(t[i].cmd) || t[i].cmd == REIN <==>
        !exists j :: 1 <= j < i && (Admits(t[j - 1], t[j]) || Refuses(t[j - 1], t[j])))
  }

  lemma CommandOrder(uid: string, passwd: string, server: Server, kind: char, r: Request, es: seq<Env>, i: nat)
    requires i < |Trace(Start(uid, passwd, server, kind, r), es)|
    requires Trace(Start(uid, passwd, server, kind, r), es)[i].Cmd?
    ensures InOrder(Trace(Start(uid, passwd, server, kind, r), es), i)
  {
    var f := Start(uid, passwd, server, kind, r);
    RunIsPolite(f, es, NO_PAST);
    PoliteInOrder(Trace(f, es), i);
  }

  lemma PoliteInOrder(t: seq<Event>, i: nat)
    requires Polite(NO_PAST, t) && i < |t| && t[i].Cmd?
    ensures InOrder(t, i)
  {
    assert t[..0] == [] && t[0..] == t;
    PoliteAt(t, 0, i);
    SummaryTells(t, i);
  }

  // Whether the user is known to be logged in whenever a command other than those of the login goes out.
  predicate LoginFirst(t: seq<Event>) {
    forall i :: 0 <= i < |t| && t[i].Cmd? && !Identifies(t[i].cmd) && t[i].cmd != REIN ==>
      exists j :: 1 <= j < i && Admits(t[j - 1], t[j])
  }

  predicate AllInOrder(t: seq<Event>) {
    forall i :: 0 <= i < |t| && t[i].Cmd? ==> InOrder(t, i)
  }

  predicate HopesForTheBest(t: seq<Event>) {
    |t| > 2 && Refuses(t[0], t[1]) && exists i :: 2 <= i < |t| && t[i].Cmd?
  }

  lemma NoUserAsked(t: seq<Event>, i: nat)
    requires 2 <= i < |t| && t[i].Cmd? && InOrder(t, i) && Refuses(t[0], t[1])
    ensures !Identifies(t[i].cmd) && t[i].cmd != REIN
  {
    assert Refuses(t[1 - 1], t[1]);
  }

  lemma NotAdmitted(t: seq<Event>, j: nat)
    requires AllInOrder(t) && |t| > 2 && Refuses(t[0], t[1]) && 1 <= j < |t|
    ensures !Admits(t[j - 1], t[j])
  {
    if j > 2 && t[j - 1].Cmd? {
      NoUserAsked(t, j - 1);
    }
  }

  lemma HopeIsBlind(t: seq<Event>)
    requires AllInOrder(t) && HopesForTheBest(t)
    ensures !LoginFirst(t)
  {
    var i :| 2 <= i < |t| && t[i].Cmd?;
    NoUserAsked(t, i);
    forall j | 1 <= j < i
      ensures !Admits(t[j - 1], t[j])
    {
      NotAdmitted(t, j);
    }
  }

  lemma OthersLogIn(t: seq<Event>)
    requires AllInOrder(t) && !HopesForTheBest(t)
    ensures LoginFirst(t)
  {
    forall i | 0 <= i < |t| && t[i].Cmd? && !Identifies(t[i].cmd) && t[i].cmd != REIN
      ensures exists j :: 1 <= j < i && Admits(t[j - 1], t[j])
    {
      assert InOrder(t, i);
      var j :| 1 <= j < i && (Admits(t[j - 1], t[j]) || Refuses(t[j - 1], t[j]));
      assert t[j - 1].Cmd? ==> InOrder(t, j - 1);
    }
  }

  // It fails exactly when a server refuses REIN, other than by not knowing it, and the client hopes
  // for the best.
  lemma LoginComesFirst(uid: string, passwd: string, server: Server, kind: char, r: Request, es: seq<Env>)
    ensures var t := Trace(Start(uid, passwd, server, kind, r), es); LoginFirst(t) <==> !HopesForTheBest(t)
  {
    var t := Trace(Start(uid, passwd, server, kind, r), es);
    forall i | 0 <= i < |t| && t[i].Cmd?
      ensures InOrder(t, i)
    {
      CommandOrder(uid, passwd, server, kind, r, es, i);
    }
    if HopesForTheBest(t) {
      HopeIsBlind(t);
    } else {
      OthersLogIn(t);
    }
  }

  // On a new connection, the first thing is the greeting.
  lemma {:induction false} Greeted(f: Ftp, es: seq<Env>)
    requires (f.state == FTP_NEED_LOGIN && f.substate in {LOGIN_GREETING, SUB_ERROR}) || f.state == FTP_ERROR
    ensures Trace(f, es) == [] || Trace(f, es)[0].Reply?
    decreases |es|
  {
    if es != [] && Said(f, es[0]) == [] {
      Greeted(Step(f, es[0]), es[1..]);
    }
  }

  lemma NewConnectionsLogIn(uid: string, passwd: string, server: Server, kind: char, r: Request, es: seq<Env>)
    requires !r.reset
    ensures LoginFirst(Trace(Start(uid, passwd, server, kind, r), es))
  {
    LoginComesFirst(uid, passwd, server, kind, r, es);
    if es != [] {
      Greeted(Step(Start(uid, passwd, server, kind, r), es[0]), es[1..]);
    }
  }

  lemma Extend(f: Ftp, es: seq<Env>, g: Ftp, t: seq<Event>, e: Env) returns (h: Ftp, u: seq<Event>)
    requires Run(f, es) == g && Trace(f, es) == t
    ensures h == Step(g, e) && u == t + Said(g, e)
    ensures Run(f, es + [e]) == h && Trace(f, es + [e]) == u
  {
    RunSnoc(f, es, e);
    h, u := Step(g, e), t + Said(g, e);
  }

  lemma ReinRefused(f: Ftp, e: Env)
    requires f.state == FTP_NEED_LOGIN && f.substate == LOGIN_REIN && !f.sent && f.d.kind == 'I' && !f.d.pasv
    requires e.status == HT_LOADED && e.code == 500
    ensures HopesForTheBest(Trace(f, [e, e, e, e]))
  {
    var g, t := Extend(f, [], f, [], e);
    g, t := Extend(f, [] + [e], g, t, e);
    assert g == f.(substate := SUB_SUCCESS, c := f.c.(repcode := 500, reply := e.reply));
    assert t == [Cmd(REIN, ""), Reply(500, false)];
    g, t := Extend(f, [] + [e] + [e], g, t, e);
    assert g.state == FTP_NEED_DCON && g.substate == SUB_FIRST && !g.sent && g.d == f.d;
    g, t := Extend(f, [] + [e] + [e] + [e], g, t, e);
    assert t == [Cmd(REIN, ""), Reply(500, false), Cmd(TYPE, "I")];
    assert Refuses(t[0], t[1]) && t[2].Cmd?;
    assert [] + [e] + [e] + [e] + [e] == [e, e, e, e];
  }

  // And it does happen: REIN answered with 500, and TYPE goes out with no USER before it.
  lemma HopeHappens(uid: string, passwd: string, server: Server, file: string)
    ensures exists es :: HopesForTheBest(Trace(Start(uid, passwd, server, 'I', Request(true, false, false, file)), es))
  {
    var e := Env(HT_LOADED, 500, false, "", false, false, None, "", "", false);
    var f := Start(uid, passwd, server, 'I', Request(true, false, false, file));
    var g := f.(substate := LOGIN_REIN);
    assert g == Step(f, e) && Said(f, e) == [];
    ReinRefused(g, e);
    TraceFirst(f, e, [e, e, e, e]);
    var t := Trace(g, [e, e, e, e]);
    assert Trace(f, [e] + [e, e, e, e]) == [] + t == t;
  }

  lemma TraceFirst(f: Ftp, e: Env, es: seq<Env>)
    ensures Trace(f, [e] + es) == Said(f, e) + Trace(Step(f, e), es)
  {
    assert ([e] + es)[1..] == es;
  }
}
