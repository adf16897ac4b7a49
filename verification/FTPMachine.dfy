// The FTP client of HTFTP.c as a step relation (section 5.4 of RFC 959 has the other side).  A step
// executes one arm of one of the switch statements, and takes from Env whatever the arm asks for:
// the outcome of a read, the user's answers, whether a socket could be opened.
module FTPMachine {
  import opened Options

  datatype Status = HT_OK | HT_WOULD_BLOCK | HT_LOADED | HT_CLOSED | HT_ERROR

  // enum _HTFTPState, from FTP_NEED_LOGIN on.  OUT_OF_RANGE marks a read past the end of the file
  // name, which the code does not guard against.
  datatype Phase = FTP_NEED_LOGIN | FTP_NEED_DCON | FTP_NEED_DATA | FTP_NEED_SERVER
    | FTP_SUCCESS | FTP_ERROR | OUT_OF_RANGE

  // The substates of the four machines, which share one variable.  SUB_FIRST is the value 0, with
  // which each of them begins.
  datatype Substate = SUB_ERROR | SUB_SUCCESS | SUB_FIRST
    | LOGIN_GREETING | LOGIN_REIN | LOGIN_UID | LOGIN_PASSWD | LOGIN_ACCOUNT | LOGIN_PROMPT
    | DCON_SELECT | DCON_PASV | DCON_PORT
    | SERVER_CHECK_SYST | SERVER_PWD | SERVER_CHECK_PWD
    | DATA_CONNECT | DATA_ACCEPT | DATA_ACTION | DATA_CWD | DATA_SEGMENT | DATA_STREAM | DATA_BODY

  // FTPServerType.  TCPC_UNSURE is the sum the code forms, ZERO the version of a host not asked yet.
  datatype Server = ZERO | GENERIC | MACHTEN | UNIX | VMS | CMS | DCTS | TCPC | PETER_LEWIS | NCSA | WINNT
    | UNSURE | TCPC_UNSURE

  datatype Command = REIN | USER | PASS | ACCT | TYPE | PASV | PORT | SYST | PWD | CWD | LIST | NLST | RETR | STOR

  // What passes over the control connection.  Arguments are as they are before unescaping.
  datatype Event =
    | Cmd(cmd: Command, arg: string)
    | Reply(code: nat, already: bool)
    | Lost  // the read failed, so the reply to the last command never came

  datatype Env = Env(
    status: Status,     // of the read, the connect, the accept or the upload
    code: nat,          // reply code
    already: bool,      // the text of a 530 says "already"
    reply: string,      // text of the reply
    address: bool,      // the 227 reply has an address in it
    listen: bool,       // a data socket could be opened for listening
    account: Option<string>,  // what the user answers to the prompts; None is a prompt declined
    uid: string,
    passwd: string,
    onData: bool)       // the next event comes from the data socket

  // What does not change during a request: whether the connection is persistent, the method is PUT,
  // passive mode is wanted; and the name of the file.
  datatype Request = Request(reset: bool, put: bool, pasvMode: bool, file: string)

  // The fields of ftp_ctrl other than its state, and those of ftp_data.  segment and active are local
  // variables of HTFTPGetData.
  datatype Ctrl = Ctrl(uid: string, passwd: string, account: string, repcode: nat, reply: string,
                       server: Server, cwd: bool)

  datatype Data = Data(kind: char, pasv: bool, offset: nat, segment: string, complete: nat, streamError: bool,
                       active: bool)

  datatype Ftp = Ftp(state: Phase, substate: Substate, sent: bool, c: Ctrl, d: Data, r: Request)

  function Start(uid: string, passwd: string, server: Server, kind: char, r: Request): Ftp {
    Ftp(FTP_NEED_LOGIN, SUB_FIRST, false, Ctrl(uid, passwd, "", 0, "", server, false),
        Data(kind, false, 0, "", 0, false, false), r)
  }

  // What a finished read leaves behind.
  function Heard(f: Ftp, e: Env): Ftp {
    f.(c := f.c.(repcode := e.code, reply := e.reply))
  }

  // HT_WOULD_BLOCK: come back with the next event.
  function Blocked(f: Ftp, e: Env): Ftp {
    f.(d := f.d.(active := e.onData))
  }

  // A machine returns, and FTPEvent goes on with another phase.
  function Enter(f: Ftp, state: Phase): Ftp {
    f.(state := state, substate := SUB_FIRST)
  }

  // The common form of the arms that send a command (which succeeds here) and then await its reply.
  function Exchange(f: Ftp, e: Env, next: Substate): Ftp {
    if !f.sent then f.(sent := true)
    else if e.status == HT_WOULD_BLOCK then Blocked(f, e)
    else if e.status == HT_LOADED then Heard(f, e).(substate := next, sent := false)
    else f.(substate := SUB_ERROR, sent := false)
  }

  // FTPListType
  function ListKind(server: Server): char {
    match server
    case MACHTEN | UNIX | VMS | PETER_LEWIS | WINNT => 'L'
    case _ => 'N'
  }

  function Listing(f: Ftp): Ftp {
    f.(d := f.d.(kind := ListKind(f.c.server)))
  }

  // HTFTPGetData looks at which socket it was called for.
  function EnterData(f: Ftp, e: Env): Ftp {
    Enter(Blocked(f, e), FTP_NEED_DATA)
  }

  function Class(code: nat): nat {
    code / 100
  }

  // Most replies have to be positive.
  function Positive(e: Env, next: Substate): Substate {
    if Class(e.code) == 2 then next else SUB_ERROR
  }

  // ---------------------------------------------------------------------------------------------
  // HTFTPLogin

  function AfterGreeting(f: Ftp): Substate {
    if f.c.uid != "" then LOGIN_UID else LOGIN_PROMPT
  }

  // After a REIN that is refused, the code hopes for the best.
  function AfterRein(f: Ftp, e: Env): Substate {
    if Class(e.code) == 2 || e.code == 502 then AfterGreeting(f) else SUB_SUCCESS
  }

  function AfterUser(f: Ftp, e: Env): Substate {
    if Class(e.code) == 2 then SUB_SUCCESS
    else if Class(e.code) == 3 then (if f.c.passwd != "" then LOGIN_PASSWD else LOGIN_PROMPT)
    else if e.code == 530 then (if e.already then SUB_SUCCESS else LOGIN_PROMPT)
    else SUB_ERROR
  }

  function AfterPass(e: Env): Substate {
    if Class(e.code) == 2 then SUB_SUCCESS
    else if Class(e.code) == 3 then (if e.account.Some? then LOGIN_ACCOUNT else SUB_ERROR)
    else if e.code == 530 then LOGIN_PROMPT
    else SUB_ERROR
  }

  function GreetingStep(f: Ftp, e: Env): Ftp {
    if e.status == HT_WOULD_BLOCK then Blocked(f, e)
    else if e.status == HT_LOADED then
      Heard(f, e).(substate := if Class(e.code) == 2 then AfterGreeting(f) else SUB_ERROR)
    else f.(substate := SUB_ERROR)
  }

  function PassStep(f: Ftp, e: Env): Ftp {
    var g := Exchange(f, e, AfterPass(e));
    if g.substate == LOGIN_ACCOUNT && e.account.Some? then g.(c := g.c.(account := e.account.value)) else g
  }

  function LoginStep(f: Ftp, e: Env): Ftp {
    match f.substate
    case SUB_FIRST =>
      f.(substate := if f.r.reset then LOGIN_REIN else LOGIN_GREETING)
    case LOGIN_GREETING => GreetingStep(f, e)
    case LOGIN_REIN => Exchange(f, e, AfterRein(f, e))
    case LOGIN_UID => Exchange(f, e, AfterUser(f, e))
    case LOGIN_PASSWD => PassStep(f, e)
    case LOGIN_ACCOUNT => Exchange(f, e, Positive(e, SUB_SUCCESS))
    case LOGIN_PROMPT =>
      f.(c := f.c.(uid := e.uid, passwd := e.passwd),
         substate := if e.uid != "" && e.passwd != "" then LOGIN_UID else SUB_ERROR)
    case SUB_SUCCESS =>
      Enter(f, FTP_NEED_DCON)
    case SUB_ERROR => Enter(f, FTP_ERROR)
    case _ => f
  }

  // ---------------------------------------------------------------------------------------------
  // HTFTPDataConnection

  predicate IsDir(f: Ftp) {
    f.d.kind == 'L' || f.d.kind == 'N'
  }

  function TypeStep(f: Ftp, e: Env): Ftp {
    if f.d.kind == '\0' || f.d.pasv || IsDir(f) then f.(substate := DCON_SELECT)
    else Exchange(f, e, Positive(e, DCON_SELECT))
  }

  function PasvStep(f: Ftp, e: Env): Ftp {
    if f.sent && e.status == HT_LOADED && e.code == 227 then
      if e.address then Heard(f, e).(d := f.d.(pasv := true), substate := SUB_SUCCESS, sent := false)
      else Heard(f, e).(substate := SUB_ERROR)  // and sent stays set
    else Exchange(f, e, if e.listen then DCON_PORT else SUB_ERROR)
  }

  function PortStep(f: Ftp, e: Env): Ftp {
    var g := Exchange(f, e, Positive(e, SUB_SUCCESS));
    if f.sent && e.status == HT_LOADED then g.(d := g.d.(pasv := false)) else g
  }

  function DconStep(f: Ftp, e: Env): Ftp {
    match f.substate
    case SUB_FIRST => TypeStep(f, e)
    case DCON_SELECT =>
      f.(substate := if f.r.pasvMode && !f.d.pasv then DCON_PASV else if e.listen then DCON_PORT else SUB_ERROR)
    case DCON_PASV => PasvStep(f, e)
    case DCON_PORT => PortStep(f, e)
    case SUB_SUCCESS =>
      if f.d.kind == 'N' then Enter(f, FTP_NEED_SERVER) else EnterData(f, e)
    case SUB_ERROR => Enter(f, FTP_ERROR)
    case _ => f
  }

  // ---------------------------------------------------------------------------------------------
  // HTFTPServerInfo

  predicate Unsure(server: Server) {
    server == UNSURE || server == TCPC_UNSURE
  }

  predicate Contains(s: string, t: string) {
    exists i {:trigger s[i..]} :: 0 <= i <= |s| && t <= s[i..]
  }

  // The reply to SYST.
  function SystGuess(reply: string, server: Server): Server {
    if reply == "UNIX Type: L8MAC-OSMachTen" then MACHTEN  // 28 characters are compared
    else if Contains(reply, "UNIX") then UNIX
    else if "VMS" <= reply then VMS
    else if "VM" <= reply then CMS
    else if "DCTS" <= reply then DCTS
    else if Contains(reply, "MAC-OS TCP/ConnectII") then TCPC_UNSURE
    else if "MACOS Peter's Server" <= reply then PETER_LEWIS
    else if "Windows_NT" <= reply then WINNT
    else server
  }

  // strchr, as an index, or the length.
  function Find(s: string, ch: char): (r: nat)
    ensures r <= |s| && ch !in s[..r] && (r < |s| ==> s[r] == ch)
  {
    if s == "" || s[0] == ch then 0 else 1 + Find(s[1..], ch)
  }

  // The reply to PWD has the directory in double quotes.
  function PwdGuess(reply: string, server: Server): Server {
    var start := Find(reply, '"');
    if start == |reply| then GENERIC
    else
      var rest := reply[start + 1..];
      var end := Find(rest, '"');
      if end == |rest| then GENERIC
      else
        var dir := rest[..end];
        if server == TCPC || server == TCPC_UNSURE then (if "/" <= dir then NCSA else TCPC)
        else if "/" <= dir then UNIX
        else if dir != "" && dir[|dir| - 1] == ']' then VMS
        else GENERIC
  }

  function SystStep(f: Ftp, e: Env): Ftp {
    if !f.sent && f.c.server != UNSURE then EnterData(Listing(f), e)
    else Exchange(f, e, if e.code == 215 then SERVER_CHECK_SYST else SERVER_PWD)
  }

  function ServerStep(f: Ftp, e: Env): Ftp {
    match f.substate
    case SUB_FIRST => SystStep(f, e)
    case SERVER_CHECK_SYST =>
      if f.c.reply == "" then f.(substate := SERVER_PWD)
      else
        var server := SystGuess(f.c.reply, f.c.server);
        f.(c := f.c.(server := server), substate := if Unsure(server) then SERVER_PWD else SUB_SUCCESS)
    case SERVER_PWD => Exchange(f, e, Positive(e, SERVER_CHECK_PWD))
    case SERVER_CHECK_PWD =>
      f.(c := f.c.(server := PwdGuess(f.c.reply, f.c.server)), substate := SUB_SUCCESS)
    case SUB_SUCCESS =>
      EnterData(Listing(f), e)
    case SUB_ERROR =>
      EnterData(f.(c := f.c.(server := GENERIC)), e)
    case _ => f
  }

  // ---------------------------------------------------------------------------------------------
  // HTFTPGetData

  function StreamError(f: Ftp): Ftp {
    f.(d := f.d.(streamError := true))
  }

  function TransferCommand(f: Ftp): Command {
    if f.r.put then STOR else if f.d.kind == 'L' then LIST else if f.d.kind == 'N' then NLST else RETR
  }

  function Root(f: Ftp): string {
    if f.c.server == VMS then "[" + f.c.uid + "]" else "/"
  }

  function SegmentStep(f: Ftp): Ftp {
    if f.d.offset == 0 then f.(d := f.d.(segment := Root(f), offset := 1), substate := DATA_CWD)
    else if f.d.offset > |f.r.file| then f.(state := OUT_OF_RANGE)
    else
      var rest := f.r.file[f.d.offset..];
      var k := Find(rest, '/');
      if k < |rest| then f.(d := f.d.(segment := rest[..k], offset := f.d.offset + k + 1), substate := DATA_CWD)
      else f.(substate := DATA_ACTION)
  }

  function ActionStep(f: Ftp, e: Env): Ftp {
    if f.d.offset > |f.r.file| then f.(state := OUT_OF_RANGE)
    else
      var accepted := e.code == 125 || e.code == 150 || e.code == 225;
      var next :=
        if accepted then (if f.d.pasv then DATA_STREAM else DATA_ACCEPT)
        else if Class(e.code) == 5 && !f.c.cwd then DATA_SEGMENT
        else SUB_ERROR;
      var g := Exchange(f, e, next);
      if f.sent && e.status == HT_LOADED && next == SUB_ERROR && e.code == 550 then StreamError(g) else g
  }

  function CwdStep(f: Ftp, e: Env): Ftp {
    var g := Exchange(f, e, Positive(e, DATA_SEGMENT));
    if !f.sent then g.(c := g.c.(cwd := true)) else g
  }

  function WithBit(complete: nat, bit: nat): nat {
    if complete >= 3 || complete == bit then complete else complete + bit
  }

  function BodyStep(f: Ftp, e: Env): Ftp {
    if e.status == HT_WOULD_BLOCK then Blocked(f, e)
    else if f.d.active && f.r.put then
      if e.status == HT_LOADED then f.(d := f.d.(complete := 3), substate := SUB_SUCCESS)
      else if e.status == HT_OK then Blocked(f, e)
      else StreamError(f.(substate := SUB_ERROR))
    else if f.d.active then
      if e.status == HT_ERROR then StreamError(f.(substate := SUB_ERROR))
      else
        var complete := WithBit(f.d.complete, 1);
        if complete >= 3 then f.(d := f.d.(complete := complete), substate := SUB_SUCCESS)
        else f.(d := f.d.(complete := complete, active := false))
    else DoneStep(f, e)
  }

  // The reply that ends the transfer.
  function DoneStep(f: Ftp, e: Env): Ftp {
    var g := if e.status == HT_LOADED then Heard(f, e) else f;
    var complete := WithBit(f.d.complete, 2);
    if e.status == HT_WOULD_BLOCK then Blocked(f, e)
    else if (e.status != HT_LOADED && e.status != HT_CLOSED) || Class(g.c.repcode) != 2 then g.(substate := SUB_ERROR)
    else if complete >= 3 then g.(d := g.d.(complete := complete), substate := SUB_SUCCESS)
    else g.(d := g.d.(complete := complete, active := true))
  }

  function DataStep(f: Ftp, e: Env): Ftp {
    match f.substate
    case SUB_FIRST => f.(substate := if f.d.pasv then DATA_CONNECT else DATA_ACTION)
    case DATA_CONNECT =>
      if e.status == HT_WOULD_BLOCK then Blocked(f, e)
      else if e.status == HT_OK then f.(substate := DATA_ACTION)
      else Enter(f, FTP_NEED_DCON)  // swap to PORT on the fly
    case DATA_ACCEPT =>
      if e.status == HT_WOULD_BLOCK then Blocked(f, e)
      else f.(substate := if e.status == HT_OK then DATA_STREAM else SUB_ERROR)
    case DATA_ACTION => ActionStep(f, e)
    case DATA_SEGMENT => SegmentStep(f)
    case DATA_CWD => CwdStep(f, e)
    case DATA_STREAM => f.(d := f.d.(active := true), substate := DATA_BODY)
    case DATA_BODY => BodyStep(f, e)
    case SUB_SUCCESS => Enter(f, FTP_SUCCESS)
    case SUB_ERROR =>
      if !f.r.put && !IsDir(f) && !f.d.streamError then  // try a directory instead
        Enter(Listing(f), FTP_NEED_SERVER)
      else Enter(f, FTP_ERROR)
    case _ => f
  }

  // ---------------------------------------------------------------------------------------------
  // FTPEvent

  function Step(f: Ftp, e: Env): Ftp {
    match f.state
    case FTP_NEED_LOGIN => LoginStep(f, e)
    case FTP_NEED_DCON => DconStep(f, e)
    case FTP_NEED_SERVER => ServerStep(f, e)
    case FTP_NEED_DATA => DataStep(f, e)
    case _ => f
  }

  // ---------------------------------------------------------------------------------------------
  // What passes over the control connection.

  datatype Exchanged = Nothing | Exchanged(cmd: Command, arg: string)

  // The command of the current arm, if it has one.
  function Current(f: Ftp): Exchanged {
    match f.state
    case FTP_NEED_LOGIN =>
      if f.substate == LOGIN_REIN then Exchanged(REIN, "")
      else if f.substate == LOGIN_UID then Exchanged(USER, f.c.uid)
      else if f.substate == LOGIN_PASSWD then Exchanged(PASS, f.c.passwd)
      else if f.substate == LOGIN_ACCOUNT then Exchanged(ACCT, f.c.account)
      else Nothing
    case FTP_NEED_DCON =>
      if f.substate == SUB_FIRST && f.d.kind != '\0' && !f.d.pasv && !IsDir(f) then Exchanged(TYPE, [f.d.kind])
      else if f.substate == DCON_PASV then Exchanged(PASV, "")
      else if f.substate == DCON_PORT then Exchanged(PORT, "")
      else Nothing
    case FTP_NEED_SERVER =>
      if f.substate == SUB_FIRST && (f.sent || f.c.server == UNSURE) then Exchanged(SYST, "")
      else if f.substate == SERVER_PWD then Exchanged(PWD, "")
      else Nothing
    case FTP_NEED_DATA =>
      if f.substate == DATA_ACTION && f.d.offset <= |f.r.file| then Exchanged(TransferCommand(f), f.r.file[f.d.offset..])
      else if f.substate == DATA_CWD then Exchanged(CWD, f.d.segment)
      else Nothing
    case _ => Nothing
  }

  // Two arms read the connection without having sent anything.
  predicate Listens(f: Ftp) {
    || (f.state == FTP_NEED_LOGIN && f.substate == LOGIN_GREETING)
    || (f.state == FTP_NEED_DATA && f.substate == DATA_BODY && !f.d.active)
  }

  // A command, or what comes of waiting for its reply.
  function Dialogue(sent: bool, e: Env, cmd: Command, arg: string): seq<Event> {
    if !sent then [Cmd(cmd, arg)]
    else if e.status == HT_WOULD_BLOCK then []
    else if e.status == HT_LOADED then [Reply(e.code, e.code == 530 && e.already)]
    else [Lost]
  }

  // A reply that no command asked for.
  function Overheard(e: Env): seq<Event> {
    if e.status == HT_LOADED then [Reply(e.code, e.code == 530 && e.already)] else []
  }

  function Said(f: Ftp, e: Env): seq<Event> {
    match Current(f)
    case Exchanged(cmd, arg) => Dialogue(f.sent, e, cmd, arg)
    case Nothing => if Listens(f) then Overheard(e) else []
  }

  function Run(f: Ftp, es: seq<Env>): Ftp
    decreases |es|
  {
    if es == [] then f else Run(Step(f, es[0]), es[1..])
  }

  function Trace(f: Ftp, es: seq<Env>): seq<Event>
    decreases |es|
  {
    if es == [] then [] else Said(f, es[0]) + Trace(Step(f, es[0]), es[1..])
  }

  lemma {:induction false} RunSnoc(f: Ftp, es: seq<Env>, e: Env)
    ensures Run(f, es + [e]) == Step(Run(f, es), e)
    ensures Trace(f, es + [e]) == Trace(f, es) + Said(Run(f, es), e)
    decreases |es|
  {
    if es == [] {
      assert Run(Step(f, e), []) == Step(f, e);
    } else {
      RunSnoc(Step(f, es[0]), es[1..], e);
      assert (es + [e])[1..] == es[1..] + [e];
      assert Trace(f, es) == Said(f, es[0]) + Trace(Step(f, es[0]), es[1..]);
    }
  }
}
