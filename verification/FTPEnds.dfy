// Why a request ends: apart from waiting and from asking the user, every step of the FTP client brings the
// end nearer.  The measure counts what FTPRetries says is left to do, and the steps left in the phase.
module FTPEnds {
  import opened FTPMachine
  import opened FTPSession
  import opened FTPRetries

  // Each phase keeps to its own substates.
  predicate AtHome(f: Ftp) {
    match f.state
    case FTP_NEED_LOGIN =>
      f.substate in {SUB_ERROR, SUB_SUCCESS, SUB_FIRST, LOGIN_GREETING, LOGIN_REIN, LOGIN_UID, LOGIN_PASSWD,
                     LOGIN_ACCOUNT, LOGIN_PROMPT}
    case FTP_NEED_DCON => f.substate in {SUB_ERROR, SUB_SUCCESS, SUB_FIRST, DCON_SELECT, DCON_PASV, DCON_PORT}
    case FTP_NEED_SERVER =>
      f.substate in {SUB_ERROR, SUB_SUCCESS, SUB_FIRST, SERVER_CHECK_SYST, SERVER_PWD, SERVER_CHECK_PWD}
    case FTP_NEED_DATA =>
      f.substate in {SUB_ERROR, SUB_SUCCESS, SUB_FIRST, DATA_CONNECT, DATA_ACCEPT, DATA_ACTION, DATA_CWD,
                     DATA_SEGMENT, DATA_STREAM, DATA_BODY}
    case _ => true
  }

  // Nothing has come, and nothing is done.
  predicate Waits(f: Ftp, e: Env) {
    (e.status == HT_WOULD_BLOCK || (f.r.put && e.status == HT_OK)) && Step(f, e) == Blocked(f, e)
  }

  predicate Prompts(f: Ftp) {
    f.state == FTP_NEED_LOGIN && f.substate == LOGIN_PROMPT
  }

  function Unsent(f: Ftp): nat {
    if f.sent then 0 else 1
  }

  function LoginRank(f: Ftp): nat {
    match f.substate
    case SUB_FIRST => 38
    case LOGIN_GREETING => 36
    case LOGIN_REIN => 36 + Unsent(f)
    case LOGIN_UID => 34 + Unsent(f)
    case LOGIN_PASSWD => 32 + Unsent(f)
    case LOGIN_ACCOUNT => 30 + Unsent(f)
    case LOGIN_PROMPT => 31
    case _ => 29
  }

  function DconRank(f: Ftp): nat {
    match f.substate
    case SUB_FIRST => 27 + Unsent(f)
    case DCON_SELECT => 26
    case DCON_PASV => 24 + Unsent(f)
    case DCON_PORT => 22 + Unsent(f)
    case _ => 21
  }

  function ServerRank(f: Ftp): nat {
    match f.substate
    case SUB_FIRST => 19 + Unsent(f)
    case SERVER_CHECK_SYST => 18
    case SERVER_PWD => 16 + Unsent(f)
    case SERVER_CHECK_PWD => 15
    case _ => 14
  }

  // The walk goes from the first transfer command to the second: each CWD it sends is worth three steps.
  function DataRank(f: Ftp): nat {
    match f.substate
    case SUB_FIRST => 13
    case DATA_CONNECT => 12
    case DATA_ACTION => (if f.c.cwd then 6 else 10) + Unsent(f)
    case DATA_CWD => if f.sent then 9 else 7
    case DATA_SEGMENT => 8
    case DATA_ACCEPT => 5
    case DATA_STREAM => 4
    case DATA_BODY =>
      if f.d.complete >= 3 || (f.d.complete == 1 && !f.d.active) || (f.d.complete == 2 && f.d.active) then 2 else 3
    case _ => 1
  }

  function Rank(f: Ftp): nat {
    match f.state
    case FTP_NEED_LOGIN => LoginRank(f)
    case FTP_NEED_DCON => DconRank(f)
    case FTP_NEED_SERVER => ServerRank(f)
    case FTP_NEED_DATA => DataRank(f)
    case _ => 0
  }

  function Measure(f: Ftp): nat {
    30 * (SwapLeft(f) + FallbackLeft(f)) + 3 * CwdLeft(f) + Rank(f)
  }

  // What a step may add to the measure.
  function Slack(f: Ftp, e: Env): nat {
    if Prompts(f) then 5 else if Waits(f, e) then 2 else 0
  }

  predicate Sane(f: Ftp) {
    InStep(f) && Sound(f) && AtHome(f)
  }

  // The step g of f spends rank, unless it swaps, falls back or sends a CWD.
  predicate RankFalls(f: Ftp, e: Env, g: Ftp) {
    && AtHome(g)
    && Rank(g) < Rank(f) + Slack(f, e) + 3 * Sent(f, CWD)
       + 30 * (Turned(f, g, FTP_NEED_DATA, FTP_NEED_DCON) + Turned(f, g, FTP_NEED_DATA, FTP_NEED_SERVER))
  }

  lemma LoginFalls(f: Ftp, e: Env)
    requires Sane(f) && f.state == FTP_NEED_LOGIN
    ensures RankFalls(f, e, LoginStep(f, e))
  {
  }

  lemma DconFalls(f: Ftp, e: Env)
    requires Sane(f) && f.state == FTP_NEED_DCON
    ensures RankFalls(f, e, DconStep(f, e))
  {
  }

  lemma ServerFalls(f: Ftp, e: Env)
    requires Sane(f) && f.state == FTP_NEED_SERVER
    ensures RankFalls(f, e, ServerStep(f, e))
  {
  }

  lemma ActionFalls(f: Ftp, e: Env)
    requires Sane(f) && f.state == FTP_NEED_DATA && f.substate == DATA_ACTION
    ensures RankFalls(f, e, ActionStep(f, e))
  {
  }

  lemma WalkFalls(f: Ftp, e: Env)
    requires Sane(f) && f.state == FTP_NEED_DATA && f.substate in {DATA_SEGMENT, DATA_CWD}
    ensures RankFalls(f, e, DataStep(f, e))
  {
  }

  lemma BodyFalls(f: Ftp, e: Env)
    requires Sane(f) && f.state == FTP_NEED_DATA && f.substate == DATA_BODY
    ensures RankFalls(f, e, BodyStep(f, e))
  {
  }

  lemma DataFalls(f: Ftp, e: Env)
    requires Sane(f) && f.state == FTP_NEED_DATA
    ensures RankFalls(f, e, DataStep(f, e))
  {
    match f.substate
    case DATA_ACTION => ActionFalls(f, e);
    case DATA_SEGMENT => WalkFalls(f, e);
    case DATA_CWD => WalkFalls(f, e);
    case DATA_BODY => BodyFalls(f, e);
    case _ =>
  }

  lemma StepFalls(f: Ftp, e: Env)
    requires Sane(f) && Working(f)
    ensures Sane(Step(f, e)) && Measure(Step(f, e)) < Measure(f) + Slack(f, e)
  {
    match f.state {
      case FTP_NEED_LOGIN => LoginFalls(f, e);
      case FTP_NEED_DCON => DconFalls(f, e);
      case FTP_NEED_SERVER => ServerFalls(f, e);
      case FTP_NEED_DATA => DataFalls(f, e);
    }
    StepIsSound(f, e);
    StepPrepares(f, e);
    StepWalks(f, e);
  }

  function Slacks(f: Ftp, es: seq<Env>): nat
    decreases |es|
  {
    if es == [] then 0 else Slack(f, es[0]) + Slacks(Step(f, es[0]), es[1..])
  }

  lemma {:induction false} Stopped(f: Ftp, es: seq<Env>)
    requires !Working(f)
    ensures Run(f, es) == f
    decreases |es|
  {
    if es != [] {
      Stopped(Step(f, es[0]), es[1..]);
    }
  }

  lemma {:induction false} RunFalls(f: Ftp, es: seq<Env>)
    requires Sane(f) && Working(Run(f, es))
    ensures |es| + Measure(Run(f, es)) <= Measure(f) + Slacks(f, es)
    decreases |es|
  {
    if es != [] {
      if Working(f) {
        StepFalls(f, es[0]);
        RunFalls(Step(f, es[0]), es[1..]);
      } else {
        Stopped(f, es);
      }
    }
  }

  // A request at which the client is still working after |es| steps has waited or asked the user: apart
  // from two steps for each wait and five for each prompt, the steps are bounded by the length of the walk.
  lemma RequestEnds(uid: string, passwd: string, server: Server, kind: char, r: Request, es: seq<Env>)
    requires Working(Run(Start(uid, passwd, server, kind, r), es))
    ensures var f := Start(uid, passwd, server, kind, r);
      |es| < 101 + 3 * (if r.file == "" then 0 else Slashes(r.file[1..])) + Slacks(f, es)
  {
    RunFalls(Start(uid, passwd, server, kind, r), es);
  }
}
