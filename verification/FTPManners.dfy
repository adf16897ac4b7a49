// The FTP client does not push on: after a reply that does not let it, or none, it sends nothing more, except
// that where a file could not be had it asks for a directory.
module FTPManners {
  import opened Options
  import opened FTPMachine
  import opened FTPSession
  import opened FTPRetries
  import opened FTPServes

  // The reply with this code lets a client go on that has sent the command.
  predicate Suffers(cmd: Command, code: nat) {
    match cmd
    case REIN | PASV | SYST | PWD => true
    case USER | PASS => Class(code) == 2 || Class(code) == 3 || code == 530
    case ACCT | TYPE | PORT | CWD => Class(code) == 2
    case LIST | NLST | RETR | STOR => Accepts(code) || Class(code) == 5
  }

  // What the last two events are to the client: a transfer that has failed may still be made up for.
  datatype Warning = Fine | Mild | Grave

  predicate AboutFile(cmd: Command) {
    IsTransfer(cmd) || cmd == CWD
  }

  function OfCommand(cmd: Command): Warning {
    if AboutFile(cmd) then Mild else Grave
  }

  function Warned(p: Past): Warning {
    match p.last
    case None => Fine
    case Some(Cmd(_, _)) => Fine
    case Some(Lost) =>
      if IsCmd(p.before) && p.before.value.cmd != SYST && p.before.value.cmd != PWD then OfCommand(p.before.value.cmd)
      else Fine
    case Some(Reply(code, _)) =>
      if p.before == None then (if Class(code) == 2 then Fine else Grave)  // the greeting
      else if IsCmd(p.before) then (if Suffers(p.before.value.cmd, code) then Fine else OfCommand(p.before.value.cmd))
      else if p.before.value.Reply? then (if Class(code) == 2 then Fine else Mild)  // the end of the transfer
      else Fine
  }

  // What may still be sent.
  predicate MakesUp(cmd: Command) {
    cmd in {SYST, PORT, LIST, NLST}
  }

  // On the way from a file that could not be had to the directory.
  predicate TurningBack(f: Ftp) {
    IsDir(f) && !f.sent && !f.r.put && TurnsIn(f)
  }

  predicate TurnsIn(f: Ftp) {
    match f.state
    case FTP_NEED_SERVER => f.substate == SUB_FIRST
    case FTP_NEED_DATA =>
      f.substate == SUB_FIRST || f.substate == DATA_ACTION || (f.substate == DATA_CONNECT && f.d.pasv)
    case FTP_NEED_DCON =>
      f.substate == DCON_PORT || (f.substate in {SUB_FIRST, DCON_SELECT} && f.d.pasv)
    case _ => false
  }

  predicate Mannered(f: Ftp, p: Past) {
    && (Working(f) && (f.state != FTP_NEED_LOGIN || f.substate == SUB_SUCCESS) ==> p.last.Some? && p.before.Some?)
    && match Warned(p)
       case Fine => true
       case Mild => !Working(f) || (f.substate == SUB_ERROR && f.state in {FTP_NEED_DATA, FTP_NEED_DCON}) || TurningBack(f)
       case Grave => !Working(f) || (f.substate == SUB_ERROR && f.state in {FTP_NEED_LOGIN, FTP_NEED_DCON})
  }

  predicate MannersOn(f: Ftp, e: Env, g: Ftp, p: Past) {
    Mannered(g, if Said(f, e) == [] then p else Heed(p, Said(f, e)[0]))
  }

  lemma LoginMannered(f: Ftp, e: Env, p: Past)
    requires Linked(f, p) && Mannered(f, p) && f.state == FTP_NEED_LOGIN
    ensures MannersOn(f, e, LoginStep(f, e), p)
  {
  }

  lemma DconMannered(f: Ftp, e: Env, p: Past)
    requires Linked(f, p) && Mannered(f, p) && f.state == FTP_NEED_DCON
    ensures MannersOn(f, e, DconStep(f, e), p)
  {
  }

  lemma ServerMannered(f: Ftp, e: Env, p: Past)
    requires Linked(f, p) && Mannered(f, p) && f.state == FTP_NEED_SERVER
    ensures MannersOn(f, e, ServerStep(f, e), p)
  {
  }

  lemma ActionMannered(f: Ftp, e: Env, p: Past)
    requires Linked(f, p) && Mannered(f, p) && f.state == FTP_NEED_DATA && f.substate == DATA_ACTION
    ensures MannersOn(f, e, ActionStep(f, e), p)
  {
  }

  lemma CwdMannered(f: Ftp, e: Env, p: Past)
    requires Linked(f, p) && Mannered(f, p) && f.state == FTP_NEED_DATA && f.substate == DATA_CWD
    ensures MannersOn(f, e, CwdStep(f, e), p)
  {
  }

  lemma BodyMannered(f: Ftp, e: Env, p: Past)
    requires Linked(f, p) && Mannered(f, p) && f.state == FTP_NEED_DATA && f.substate == DATA_BODY
    ensures MannersOn(f, e, BodyStep(f, e), p)
  {
  }

  lemma QuietMannered(f: Ftp, e: Env, p: Past)
    requires Linked(f, p) && Mannered(f, p) && f.state == FTP_NEED_DATA
    requires f.substate !in {DATA_ACTION, DATA_CWD, DATA_BODY}
    ensures MannersOn(f, e, DataStep(f, e), p)
  {
    assert Said(f, e) == [];
  }

  lemma StepMannered(f: Ftp, e: Env, p: Past)
    requires Linked(f, p) && Mannered(f, p)
    ensures MannersOn(f, e, Step(f, e), p)
  {
    match f.state
    case FTP_NEED_LOGIN => LoginMannered(f, e, p);
    case FTP_NEED_DCON => DconMannered(f, e, p);
    case FTP_NEED_SERVER => ServerMannered(f, e, p);
    case FTP_NEED_DATA => {
      match f.substate
      case DATA_ACTION => ActionMannered(f, e, p);
      case DATA_CWD => CwdMannered(f, e, p);
      case DATA_BODY => BodyMannered(f, e, p);
      case _ => QuietMannered(f, e, p);
    }
    case _ =>
  }

  // What may come after the warning.
  predicate Heeds(p: Past, e: Event) {
    e.Cmd? ==> Warned(p) == Fine || (Warned(p) == Mild && MakesUp(e.cmd))
  }

  lemma SaidHeeds(f: Ftp, e: Env, p: Past)
    requires Linked(f, p) && Mannered(f, p) && Said(f, e) != []
    ensures Heeds(p, Said(f, e)[0])
  {
  }

  predicate AllHeed(p: Past, t: seq<Event>)
    decreases |t|
  {
    t == [] || (Heeds(p, t[0]) && AllHeed(Heed(p, t[0]), t[1..]))
  }

  lemma {:induction false} RunHeeds(f: Ftp, es: seq<Env>, p: Past)
    requires Linked(f, p) && Mannered(f, p)
    ensures AllHeed(p, Trace(f, es))
    decreases |es|
  {
    if es != [] {
      StepKeeps(f, es[0], p);
      StepMannered(f, es[0], p);
      var said, rest := Said(f, es[0]), Trace(Step(f, es[0]), es[1..]);
      if said == [] {
        RunHeeds(Step(f, es[0]), es[1..], p);
        assert said + rest == rest;
      } else {
        SaidHeeds(f, es[0], p);
        RunHeeds(Step(f, es[0]), es[1..], Heed(p, said[0]));
        assert (said + rest)[1..] == rest;
      }
    }
  }

  lemma {:induction false} HeedsAt(t: seq<Event>, k: nat, i: nat)
    requires k <= i < |t| && AllHeed(Summary(t[..k]), t[k..])
    ensures Heeds(Summary(t[..i]), t[i])
    decreases i - k
  {
    if i > k {
      assert t[..k + 1][..k] == t[..k];
      assert t[k..][1..] == t[k + 1..];
      HeedsAt(t, k + 1, i);
    }
  }

  // No command follows a bad greeting, or a reply that is not positive where one is needed, or a connection
  // that was lost; but where that was about a file, SYST, PORT and the listing of a directory may.
  lemma NoPushing(uid: string, passwd: string, server: Server, kind: char, r: Request, es: seq<Env>, i: nat)
    requires i < |Trace(Start(uid, passwd, server, kind, r), es)|
    requires Trace(Start(uid, passwd, server, kind, r), es)[i].Cmd?
    ensures var t := Trace(Start(uid, passwd, server, kind, r), es);
      Warned(Summary(t[..i])) == Fine || (Warned(Summary(t[..i])) == Mild && MakesUp(t[i].cmd))
  {
    var f := Start(uid, passwd, server, kind, r);
    var t := Trace(f, es);
    RunHeeds(f, es, NO_PAST);
    assert t[..0] == [] && t[0..] == t;
    HeedsAt(t, 0, i);
  }
}
