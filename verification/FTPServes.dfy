// What the FTP client gets done: as long as the server, the user and the network give it no cause, it does not
// give up, and so it ends with success.
module FTPServes {
  import opened Options
  import opened FTPMachine
  import opened FTPSession
  import opened FTPRetries
  import opened FTPEnds

  // ---------------------------------------------------------------------------------------------
  // No cause, no error

  predicate Accepts(code: nat) {
    code == 125 || code == 150 || code == 225
  }

  // The reply to a command that lets the client go on.
  predicate Encourages(cmd: Command, e: Env) {
    match cmd
    case REIN => true
    case USER => Class(e.code) == 2 || Class(e.code) == 3 || e.code == 530
    case PASS => Class(e.code) == 2 || (Class(e.code) == 3 && e.account.Some?) || e.code == 530
    case PASV => if e.code == 227 then e.address else e.listen
    case SYST => true
    case PWD => true
    case ACCT | TYPE | PORT | CWD => Class(e.code) == 2
    case LIST | NLST | RETR | STOR => Accepts(e.code)
  }

  // Before the walk a transfer may also be refused for good, if there is a name to walk along.
  predicate RefusesAtFirst(f: Ftp, e: Env) {
    f.state == FTP_NEED_DATA && Class(e.code) == 5 && !f.c.cwd && f.r.file != ""
  }

  predicate Answers(f: Ftp, e: Env) {
    match Current(f)
    case Exchanged(cmd, _) =>
      f.sent ==>
        || e.status == HT_WOULD_BLOCK
        || (e.status == HT_LOADED && (Encourages(cmd, e) || RefusesAtFirst(f, e)))
        || cmd == SYST || cmd == PWD
    case Nothing => true
  }

  // The reads without a command, the data connection and the user.
  predicate Helps(f: Ftp, e: Env) {
    match f.substate
    case LOGIN_GREETING => e.status == HT_WOULD_BLOCK || (e.status == HT_LOADED && Class(e.code) == 2)
    case LOGIN_PROMPT => e.uid != "" && e.passwd != ""
    case DCON_SELECT => e.listen || (f.r.pasvMode && !f.d.pasv)
    case DATA_ACCEPT => e.status == HT_WOULD_BLOCK || e.status == HT_OK
    case DATA_BODY =>
      if f.d.active && f.r.put then e.status in {HT_WOULD_BLOCK, HT_OK, HT_LOADED}
      else if f.d.active then e.status != HT_ERROR
      else e.status == HT_WOULD_BLOCK || (e.status == HT_LOADED && Class(e.code) == 2)
    case _ => true
  }

  predicate NoCause(f: Ftp, e: Env) {
    Answers(f, e) && Helps(f, e)
  }

  // No event of a run is a cause to give up.
  predicate AllGoesWell(f: Ftp, es: seq<Env>)
    decreases |es|
  {
    es == [] || (NoCause(f, es[0]) && AllGoesWell(Step(f, es[0]), es[1..]))
  }

  // The invariant.  An unknown server is no failure.
  predicate Hopeful(f: Ftp) {
    && (Working(f) || f.state == FTP_SUCCESS)
    && (f.substate == SUB_ERROR ==> f.state == FTP_NEED_SERVER)
    && (f.r.file == "" ==> f.d.offset == 0)
    && (f.r.file == "" && f.state == FTP_NEED_DATA ==> f.substate != DATA_SEGMENT && f.substate != DATA_CWD)
  }

  lemma LoginIsHopeful(f: Ftp, e: Env)
    requires Sane(f) && Hopeful(f) && NoCause(f, e) && f.state == FTP_NEED_LOGIN
    ensures Hopeful(LoginStep(f, e))
  {
  }

  lemma DconIsHopeful(f: Ftp, e: Env)
    requires Sane(f) && Hopeful(f) && NoCause(f, e) && f.state == FTP_NEED_DCON
    ensures Hopeful(DconStep(f, e))
  {
  }

  lemma ServerIsHopeful(f: Ftp, e: Env)
    requires Sane(f) && Hopeful(f) && NoCause(f, e) && f.state == FTP_NEED_SERVER
    ensures Hopeful(ServerStep(f, e))
  {
  }

  lemma ActionIsHopeful(f: Ftp, e: Env)
    requires Sane(f) && Hopeful(f) && NoCause(f, e) && f.state == FTP_NEED_DATA && f.substate == DATA_ACTION
    ensures Hopeful(ActionStep(f, e))
  {
  }

  lemma WalkIsHopeful(f: Ftp, e: Env)
    requires Sane(f) && Hopeful(f) && NoCause(f, e) && f.state == FTP_NEED_DATA
    requires f.substate in {DATA_SEGMENT, DATA_CWD}
    ensures Hopeful(DataStep(f, e))
  {
  }

  lemma BodyIsHopeful(f: Ftp, e: Env)
    requires Sane(f) && Hopeful(f) && NoCause(f, e) && f.state == FTP_NEED_DATA && f.substate == DATA_BODY
    ensures Hopeful(BodyStep(f, e))
  {
  }

  lemma DataIsHopeful(f: Ftp, e: Env)
    requires Sane(f) && Hopeful(f) && NoCause(f, e) && f.state == FTP_NEED_DATA
    ensures Hopeful(DataStep(f, e))
  {
    match f.substate
    case DATA_ACTION => ActionIsHopeful(f, e);
    case DATA_SEGMENT => WalkIsHopeful(f, e);
    case DATA_CWD => WalkIsHopeful(f, e);
    case DATA_BODY => BodyIsHopeful(f, e);
    case _ =>
  }

  lemma {:induction false} StaysHopeful(f: Ftp, es: seq<Env>)
    requires Sane(f) && Hopeful(f) && AllGoesWell(f, es)
    ensures Hopeful(Run(f, es))
    decreases |es|
  {
    if es != [] {
      if Working(f) {
        StepFalls(f, es[0]);
        match f.state {
          case FTP_NEED_LOGIN => LoginIsHopeful(f, es[0]);
          case FTP_NEED_DCON => DconIsHopeful(f, es[0]);
          case FTP_NEED_SERVER => ServerIsHopeful(f, es[0]);
          case FTP_NEED_DATA => DataIsHopeful(f, es[0]);
        }
        StaysHopeful(Step(f, es[0]), es[1..]);
      } else {
        Stopped(f, es);
      }
    }
  }

  // A run without a cause to give up that is long enough ends with success, whatever the order of events,
  // the waits and the prompts in it.
  lemma GoesWellEndsWell(uid: string, passwd: string, server: Server, kind: char, r: Request, es: seq<Env>)
    requires AllGoesWell(Start(uid, passwd, server, kind, r), es)
    ensures var f := Start(uid, passwd, server, kind, r);
      && (Working(Run(f, es)) || Run(f, es).state == FTP_SUCCESS)
      && (|es| >= 101 + 3 * (if r.file == "" then 0 else Slashes(r.file[1..])) + Slacks(f, es)
          ==> Run(f, es).state == FTP_SUCCESS)
  {
    var f := Start(uid, passwd, server, kind, r);
    StaysHopeful(f, es);
    if Working(Run(f, es)) {
      RequestEnds(uid, passwd, server, kind, r, es);
    }
  }
}
