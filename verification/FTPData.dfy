// The data connection of the FTP client: it is opened the way that was agreed on, before it is used, and when
// a transfer fails, only some failures are final.
module FTPData {
  import opened Options
  import opened FTPMachine
  import opened FTPSession
  import opened FTPRetries
  import opened FTPOutcome

  // ---------------------------------------------------------------------------------------------
  // How the connection is opened

  datatype Channel = Closed | ByConnect | ByAccept

  // Since the client has last turned to the data.
  function Opens(f: Ftp, e: Env, before: Channel): Channel {
    if f.state != FTP_NEED_DATA then before
    else if f.substate == SUB_FIRST then Closed
    else if f.substate == DATA_CONNECT && e.status == HT_OK then ByConnect
    else if f.substate == DATA_ACCEPT && e.status == HT_OK then ByAccept
    else before
  }

  function Opened(f: Ftp, es: seq<Env>): Channel
    decreases |es|
  {
    if es == [] then Closed else Opens(Run(f, es[..|es| - 1]), es[|es| - 1], Opened(f, es[..|es| - 1]))
  }

  // The server has named an address to connect to, or has been told one.
  predicate Agrees(a: Event, b: Event) {
    a.Cmd? && b.Reply? && ((a.cmd == PASV && b.code == 227) || a.cmd == PORT)
  }

  // What was agreed on last.
  function Agreed(t: seq<Event>): Option<Command> {
    if |t| < 2 then None
    else if Agrees(t[|t| - 2], t[|t| - 1]) then Some(t[|t| - 2].cmd)
    else Agreed(t[..|t| - 1])
  }

  function AgreedOn(p: Past, agreed: Option<Command>, x: Event): Option<Command> {
    if p.last.Some? && Agrees(p.last.value, x) then Some(p.last.value.cmd) else agreed
  }

  lemma AgreedSnoc(t: seq<Event>, x: Event)
    ensures Agreed(t + [x]) == AgreedOn(Summary(t), Agreed(t), x)
  {
    var u := t + [x];
    assert u[..|u| - 1] == t;
    if t != [] {
      assert u[|u| - 2] == t[|t| - 1];
    }
  }

  function Way(pasv: bool): Command {
    if pasv then PASV else PORT
  }

  predicate HasChannel(f: Ftp) {
    (f.state == FTP_NEED_DATA && f.substate in {DATA_STREAM, DATA_BODY, SUB_SUCCESS}) || f.state == FTP_SUCCESS
  }

  predicate BeforeReply(f: Ftp) {
    f.state == FTP_NEED_DATA && f.substate in {DATA_ACTION, DATA_SEGMENT, DATA_CWD}
  }

  predicate Joined(f: Ftp, agreed: Option<Command>, channel: Channel) {
    && ((f.state == FTP_NEED_DCON && f.substate == SUB_SUCCESS) || f.state in {FTP_NEED_SERVER, FTP_NEED_DATA, FTP_SUCCESS}
        ==> agreed == Some(Way(f.d.pasv)))
    && (BeforeReply(f) && f.d.pasv ==> channel == ByConnect)
    && (f.state == FTP_NEED_DATA && f.substate == DATA_ACCEPT ==> !f.d.pasv)
    && (HasChannel(f) ==> channel == if f.d.pasv then ByConnect else ByAccept)
  }

  predicate JoinsOn(f: Ftp, e: Env, g: Ftp, p: Past, agreed: Option<Command>, channel: Channel) {
    Joined(g, if Said(f, e) == [] then agreed else AgreedOn(p, agreed, Said(f, e)[0]), Opens(f, e, channel))
  }

  lemma LoginJoined(f: Ftp, e: Env, p: Past, agreed: Option<Command>, channel: Channel)
    requires Linked(f, p) && Joined(f, agreed, channel) && f.state == FTP_NEED_LOGIN
    ensures JoinsOn(f, e, LoginStep(f, e), p, agreed, channel)
  {
  }

  lemma DconJoined(f: Ftp, e: Env, p: Past, agreed: Option<Command>, channel: Channel)
    requires Linked(f, p) && Joined(f, agreed, channel) && f.state == FTP_NEED_DCON
    ensures JoinsOn(f, e, DconStep(f, e), p, agreed, channel)
  {
  }

  lemma ServerJoined(f: Ftp, e: Env, p: Past, agreed: Option<Command>, channel: Channel)
    requires Linked(f, p) && Joined(f, agreed, channel) && f.state == FTP_NEED_SERVER
    ensures JoinsOn(f, e, ServerStep(f, e), p, agreed, channel)
  {
  }

  lemma ActionJoined(f: Ftp, e: Env, p: Past, agreed: Option<Command>, channel: Channel)
    requires Linked(f, p) && Joined(f, agreed, channel) && f.state == FTP_NEED_DATA && f.substate == DATA_ACTION
    ensures JoinsOn(f, e, ActionStep(f, e), p, agreed, channel)
  {
  }

  lemma CwdJoined(f: Ftp, e: Env, p: Past, agreed: Option<Command>, channel: Channel)
    requires Linked(f, p) && Joined(f, agreed, channel) && f.state == FTP_NEED_DATA && f.substate == DATA_CWD
    ensures JoinsOn(f, e, CwdStep(f, e), p, agreed, channel)
  {
  }

  lemma BodyJoined(f: Ftp, e: Env, p: Past, agreed: Option<Command>, channel: Channel)
    requires Linked(f, p) && Joined(f, agreed, channel) && f.state == FTP_NEED_DATA && f.substate == DATA_BODY
    ensures JoinsOn(f, e, BodyStep(f, e), p, agreed, channel)
  {
  }

  lemma QuietJoined(f: Ftp, e: Env, p: Past, agreed: Option<Command>, channel: Channel)
    requires Linked(f, p) && Joined(f, agreed, channel) && f.state == FTP_NEED_DATA
    requires f.substate !in {DATA_ACTION, DATA_CWD, DATA_BODY}
    ensures JoinsOn(f, e, DataStep(f, e), p, agreed, channel)
  {
    assert Said(f, e) == [];
  }

  lemma StepJoined(f: Ftp, e: Env, p: Past, agreed: Option<Command>, channel: Channel)
    requires Linked(f, p) && Joined(f, agreed, channel)
    ensures JoinsOn(f, e, Step(f, e), p, agreed, channel)
  {
    match f.state
    case FTP_NEED_LOGIN => LoginJoined(f, e, p, agreed, channel);
    case FTP_NEED_DCON => DconJoined(f, e, p, agreed, channel);
    case FTP_NEED_SERVER => ServerJoined(f, e, p, agreed, channel);
    case FTP_NEED_DATA => {
      match f.substate
      case DATA_ACTION => ActionJoined(f, e, p, agreed, channel);
      case DATA_CWD => CwdJoined(f, e, p, agreed, channel);
      case DATA_BODY => BodyJoined(f, e, p, agreed, channel);
      case _ => QuietJoined(f, e, p, agreed, channel);
    }
    case _ =>
  }

  lemma {:induction false} RunJoined(f: Ftp, es: seq<Env>)
    requires Linked(f, NO_PAST) && Joined(f, None, Closed)
    ensures Joined(Run(f, es), Agreed(Trace(f, es)), Opened(f, es))
    decreases |es|
  {
    if es != [] {
      var front, last := es[..|es| - 1], es[|es| - 1];
      RunJoined(f, front);
      RunLinked(f, front);
      assert es == front + [last];
      JoinedSnoc(f, front, last);
    }
  }

  lemma JoinedSnoc(f: Ftp, es: seq<Env>, e: Env)
    requires Linked(Run(f, es), Summary(Trace(f, es))) && Joined(Run(f, es), Agreed(Trace(f, es)), Opened(f, es))
    ensures Joined(Run(f, es + [e]), Agreed(Trace(f, es + [e])), Opened(f, es + [e]))
  {
    StepJoined(Run(f, es), e, Summary(Trace(f, es)), Agreed(Trace(f, es)), Opened(f, es));
    RunSnoc(f, es, e);
    SaidOne(Trace(f, es), Run(f, es), e);
    assert (es + [e])[..|es|] == es;
  }

  lemma SaidOne(t: seq<Event>, g: Ftp, e: Env)
    ensures Agreed(t + Said(g, e)) ==
      if Said(g, e) == [] then Agreed(t) else AgreedOn(Summary(t), Agreed(t), Said(g, e)[0])
  {
    if Said(g, e) == [] {
      assert t + Said(g, e) == t;
    } else {
      assert Said(g, e) == [Said(g, e)[0]];
      AgreedSnoc(t, Said(g, e)[0]);
    }
  }

  // On every run the data pass over a connection that the client has opened since it turned to them, the way
  // it has agreed on last with the server; a passive one before it sends the command for the transfer.
  lemma RightChannel(uid: string, passwd: string, server: Server, kind: char, r: Request, es: seq<Env>)
    ensures var f := Start(uid, passwd, server, kind, r); var g, agreed := Run(f, es), Agreed(Trace(f, es));
      && (HasChannel(g) ==> Opened(f, es) == if agreed == Some(PASV) then ByConnect else ByAccept)
      && (HasChannel(g) ==> agreed == Some(PASV) || agreed == Some(PORT))
      && (BeforeReply(g) && agreed == Some(PASV) ==> Opened(f, es) == ByConnect)
  {
    RunJoined(Start(uid, passwd, server, kind, r), es);
  }

  // ---------------------------------------------------------------------------------------------
  // Which failures are final

  // The data could not be read, or sent.
  predicate Breaks(f: Ftp, e: Env) {
    f.state == FTP_NEED_DATA && f.substate == DATA_BODY && f.d.active
    && if f.r.put then e.status !in {HT_WOULD_BLOCK, HT_OK, HT_LOADED} else e.status == HT_ERROR
  }

  predicate Broken(f: Ftp, es: seq<Env>)
    decreases |es|
  {
    es != [] && (Broken(f, es[..|es| - 1]) || Breaks(Run(f, es[..|es| - 1]), es[|es| - 1]))
  }

  // The last thing that happened is that the server said that there is no such file.
  predicate NoSuchFile(p: Past) {
    && p.before.Some? && p.before.value.Cmd? && IsTransfer(p.before.value.cmd)
    && p.last.Some? && p.last.value.Reply? && p.last.value.code == 550
  }

  predicate TakenOn(f: Ftp) {
    f.state == FTP_NEED_DATA && f.substate in {DATA_ACCEPT, DATA_STREAM, DATA_BODY}
  }

  predicate Failing(f: Ftp, p: Past, broken: bool) {
    !f.r.put && !IsDir(f) && Working(f) ==>
      if f.state == FTP_NEED_DATA && f.substate == SUB_ERROR then (f.d.streamError <==> NoSuchFile(p) || broken)
      else !f.d.streamError && !broken && (TakenOn(f) ==> !NoSuchFile(p))
  }

  predicate FailsOn(f: Ftp, e: Env, g: Ftp, p: Past, broken: bool) {
    Failing(g, if Said(f, e) == [] then p else Heed(p, Said(f, e)[0]), broken || Breaks(f, e))
  }

  lemma LoginFailing(f: Ftp, e: Env, p: Past, broken: bool)
    requires Linked(f, p) && Failing(f, p, broken) && f.state == FTP_NEED_LOGIN
    ensures FailsOn(f, e, LoginStep(f, e), p, broken)
  {
  }

  lemma DconFailing(f: Ftp, e: Env, p: Past, broken: bool)
    requires Linked(f, p) && Failing(f, p, broken) && f.state == FTP_NEED_DCON
    ensures FailsOn(f, e, DconStep(f, e), p, broken)
  {
  }

  lemma ServerFailing(f: Ftp, e: Env, p: Past, broken: bool)
    requires f.state == FTP_NEED_SERVER && IsDir(f)
    ensures FailsOn(f, e, ServerStep(f, e), p, broken)
  {
  }

  lemma ActionFailing(f: Ftp, e: Env, p: Past, broken: bool)
    requires Linked(f, p) && Failing(f, p, broken) && f.state == FTP_NEED_DATA && f.substate == DATA_ACTION
    ensures FailsOn(f, e, ActionStep(f, e), p, broken)
  {
  }

  lemma CwdFailing(f: Ftp, e: Env, p: Past, broken: bool)
    requires Linked(f, p) && Failing(f, p, broken) && f.state == FTP_NEED_DATA && f.substate == DATA_CWD
    ensures FailsOn(f, e, CwdStep(f, e), p, broken)
  {
  }

  lemma BodyFailing(f: Ftp, e: Env, p: Past, broken: bool)
    requires Linked(f, p) && Failing(f, p, broken) && f.state == FTP_NEED_DATA && f.substate == DATA_BODY
    ensures FailsOn(f, e, BodyStep(f, e), p, broken)
  {
  }

  lemma QuietFailing(f: Ftp, e: Env, p: Past, broken: bool)
    requires Linked(f, p) && Failing(f, p, broken) && f.state == FTP_NEED_DATA
    requires f.substate !in {DATA_ACTION, DATA_CWD, DATA_BODY}
    ensures FailsOn(f, e, DataStep(f, e), p, broken)
  {
    assert Said(f, e) == [];
  }

  lemma StepFailing(f: Ftp, e: Env, p: Past, broken: bool)
    requires Linked(f, p) && Failing(f, p, broken) && (f.state == FTP_NEED_SERVER ==> IsDir(f))
    ensures FailsOn(f, e, Step(f, e), p, broken)
  {
    match f.state
    case FTP_NEED_LOGIN => LoginFailing(f, e, p, broken);
    case FTP_NEED_DCON => DconFailing(f, e, p, broken);
    case FTP_NEED_SERVER => ServerFailing(f, e, p, broken);
    case FTP_NEED_DATA => {
      match f.substate
      case DATA_ACTION => ActionFailing(f, e, p, broken);
      case DATA_CWD => CwdFailing(f, e, p, broken);
      case DATA_BODY => BodyFailing(f, e, p, broken);
      case _ => QuietFailing(f, e, p, broken);
    }
    case _ =>
  }

  lemma {:induction false} RunFailing(kind: char, f: Ftp, es: seq<Env>)
    requires Linked(f, NO_PAST) && Suits(kind, f) && Failing(f, NO_PAST, false)
    ensures Failing(Run(f, es), Summary(Trace(f, es)), Broken(f, es))
    decreases |es|
  {
    if es != [] {
      var front, last := es[..|es| - 1], es[|es| - 1];
      RunFailing(kind, f, front);
      RunLinked(f, front);
      RunSuits(kind, f, front);
      assert es == front + [last];
      FailingSnoc(f, front, last);
    }
  }

  lemma FailingSnoc(f: Ftp, es: seq<Env>, e: Env)
    requires Linked(Run(f, es), Summary(Trace(f, es))) && Failing(Run(f, es), Summary(Trace(f, es)), Broken(f, es))
    requires Run(f, es).state == FTP_NEED_SERVER ==> IsDir(Run(f, es))
    ensures Failing(Run(f, es + [e]), Summary(Trace(f, es + [e])), Broken(f, es + [e]))
  {
    StepFailing(Run(f, es), e, Summary(Trace(f, es)), Broken(f, es));
    OneMore(f, es, e);
  }

  lemma OneMore(f: Ftp, es: seq<Env>, e: Env)
    ensures Run(f, es + [e]) == Step(Run(f, es), e)
    ensures Broken(f, es + [e]) == (Broken(f, es) || Breaks(Run(f, es), e))
    ensures var said, p := Said(Run(f, es), e), Summary(Trace(f, es));
      Summary(Trace(f, es + [e])) == if said == [] then p else Heed(p, said[0])
  {
    RunSnoc(f, es, e);
    SummaryGrows(Trace(f, es), Said(Run(f, es), e));
    BrokenSnoc(f, es, e);
  }

  lemma BrokenSnoc(f: Ftp, es: seq<Env>, e: Env)
    ensures Broken(f, es + [e]) == (Broken(f, es) || Breaks(Run(f, es), e))
  {
    assert (es + [e])[..|es|] == es;
  }

  // A transfer that has failed is followed by another try, for a directory, unless it was an upload, or of a
  // directory already, or the server has just said, after the walk, that there is no such file, or the data
  // have broken off; then the request has failed.
  lemma FallsBack(uid: string, passwd: string, server: Server, kind: char, r: Request, es: seq<Env>, e: Env)
    requires var g := Run(Start(uid, passwd, server, kind, r), es); g.state == FTP_NEED_DATA && g.substate == SUB_ERROR
    ensures var f := Start(uid, passwd, server, kind, r); var g := Run(f, es); var h := Run(f, es + [e]);
      && (h.state == FTP_NEED_SERVER || h.state == FTP_ERROR)
      && (h.state == FTP_NEED_SERVER
          <==> !r.put && !IsDir(g) && !NoSuchFile(Summary(Trace(f, es))) && !Broken(f, es))
  {
    var f := Start(uid, passwd, server, kind, r);
    RunFailing(kind, f, es);
    RunSuits(kind, f, es);
    RunSnoc(f, es, e);
  }
}
