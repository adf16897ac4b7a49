// Which commands the FTP client sends to a server that does what it is asked: exactly these, in this order,
// whatever waits there are in between.
module FTPScript {
  import opened Options
  import opened FTPMachine
  import opened FTPSession
  import opened FTPRetries
  import opened FTPEnds
  import opened FTPServes

  // The server, and what the user answers to the prompts.
  datatype World = World(
    uid: string,
    passwd: string,
    account: string,
    asksPassword: bool,  // USER is answered by 3xx
    asksAccount: bool,   // PASS is answered by 3xx
    passive: bool,       // PASV is answered by 227 with an address
    knowsSyst: bool,     // SYST is answered by 215
    syst: string,        // the texts of the replies to SYST and PWD
    pwd: string,
    walks: bool)         // the name is refused until the client has walked along it

  // What the world does to a command.
  predicate Replies(w: World, f: Ftp, cmd: Command, e: Env) {
    match cmd
    case REIN => Class(e.code) == 2 || e.code == 502
    case USER => Class(e.code) == if w.asksPassword then 3 else 2
    case PASS => Class(e.code) == (if w.asksAccount then 3 else 2) && e.account == Some(w.account)
    case PASV => if w.passive then e.code == 227 && e.address else e.code != 227 && e.listen
    case SYST => (e.code == 215 <==> w.knowsSyst) && e.reply == w.syst
    case PWD => Class(e.code) == 2 && e.reply == w.pwd
    case ACCT | TYPE | PORT | CWD => Class(e.code) == 2
    case LIST | NLST | RETR | STOR => if w.walks && !f.c.cwd then Class(e.code) == 5 else Accepts(e.code)
  }

  predicate Obliges(w: World, f: Ftp, e: Env) {
    && (f.sent && Current(f) != Nothing ==>
          e.status == HT_WOULD_BLOCK || (e.status == HT_LOADED && Replies(w, f, Current(f).cmd, e)))
    && Helps(f, e)
    && (f.substate == LOGIN_PROMPT ==> e.uid == w.uid && e.passwd == w.passwd)
    && (f.substate == DATA_CONNECT ==> e.status == HT_WOULD_BLOCK || e.status == HT_OK)
  }

  predicate AlwaysObliges(w: World, f: Ftp, es: seq<Env>)
    decreases |es|
  {
    es == [] || (Obliges(w, f, es[0]) && AlwaysObliges(w, Step(f, es[0]), es[1..]))
  }

  // The user has answers, and a name to walk along is not empty.
  predicate Sensible(w: World, r: Request) {
    w.uid != "" && w.passwd != "" && (w.walks ==> r.file != "")
  }

  // ---------------------------------------------------------------------------------------------
  // The script, from its end to its beginning

  function TransferOf(put: bool, kind: char): Command {
    if put then STOR else if kind == 'L' then LIST else if kind == 'N' then NLST else RETR
  }

  // The rest of a walk: a CWD for each segment, and the transfer of the last.
  function WalkScript(cmd: Command, rest: string): seq<Event>
    decreases |rest|
  {
    var k := Find(rest, '/');
    if k < |rest| then [Cmd(CWD, rest[..k])] + WalkScript(cmd, rest[k + 1..]) else [Cmd(cmd, rest)]
  }

  function RootOf(server: Server, uid: string): string {
    if server == VMS then "[" + uid + "]" else "/"
  }

  function TransferScript(w: World, r: Request, kind: char, server: Server, uid: string): seq<Event> {
    var cmd := TransferOf(r.put, kind);
    [Cmd(cmd, r.file)] +
      if w.walks && r.file != "" then [Cmd(CWD, RootOf(server, uid))] + WalkScript(cmd, r.file[1..]) else []
  }

  function SystTells(w: World): Server {
    if w.knowsSyst && w.syst != "" then SystGuess(w.syst, UNSURE) else UNSURE
  }

  // What the client takes the server to be when it has asked.
  function Guess(w: World, server: Server): Server {
    if server != UNSURE then server
    else if Unsure(SystTells(w)) then PwdGuess(w.pwd, SystTells(w))
    else SystTells(w)
  }

  function ListScript(w: World, r: Request, server: Server, uid: string): seq<Event> {
    TransferScript(w, r, ListKind(server), server, uid)
  }

  function InfoScript(w: World, r: Request, kind: char, server: Server, uid: string): seq<Event> {
    if kind != 'N' then TransferScript(w, r, kind, server, uid)
    else if server != UNSURE then ListScript(w, r, server, uid)
    else [Cmd(SYST, "")] + (PwdScript(w) + ListScript(w, r, Guess(w, server), uid))
  }

  function PwdScript(w: World): seq<Event> {
    if Unsure(SystTells(w)) then [Cmd(PWD, "")] else []
  }

  function PortScript(w: World, r: Request): seq<Event> {
    if !r.pasvMode then [Cmd(PORT, "")] else [Cmd(PASV, "")] + if w.passive then [] else [Cmd(PORT, "")]
  }

  function SetupScript(w: World, r: Request, kind: char, server: Server, uid: string): seq<Event> {
    (if kind == 'L' || kind == 'N' || kind == '\0' then [] else [Cmd(TYPE, [kind])])
      + PortScript(w, r) + InfoScript(w, r, kind, server, uid)
  }

  function PassScript(w: World, passwd: string): seq<Event> {
    [Cmd(PASS, passwd)] + if w.asksAccount then [Cmd(ACCT, w.account)] else []
  }

  // The user is asked where the name or a password that is wanted is missing, and then for both.
  function AskScript(w: World): seq<Event> {
    [Cmd(USER, w.uid)] + if w.asksPassword then PassScript(w, w.passwd) else []
  }

  function UserScript(w: World, uid: string, passwd: string): seq<Event> {
    if uid == "" then AskScript(w) else [Cmd(USER, uid)] + AfterUserScript(w, passwd)
  }

  function AfterUserScript(w: World, passwd: string): seq<Event> {
    if !w.asksPassword then [] else if passwd != "" then PassScript(w, passwd) else AskScript(w)
  }

  function UserInTheEnd(w: World, uid: string, passwd: string): string {
    if uid == "" || (w.asksPassword && passwd == "") then w.uid else uid
  }

  function Script(w: World, uid: string, passwd: string, server: Server, kind: char, r: Request): seq<Event> {
    (if r.reset then [Cmd(REIN, "")] else []) + UserScript(w, uid, passwd)
      + SetupScript(w, r, kind, server, UserInTheEnd(w, uid, passwd))
  }

  // ---------------------------------------------------------------------------------------------
  // What is left of the script in each state

  // The command of an arm is still to be sent.
  function Unless(sent: bool, cmd: Command, arg: string): seq<Event> {
    if sent then [] else [Cmd(cmd, arg)]
  }

  function SetupTodo(w: World, f: Ftp, uid: string): seq<Event> {
    SetupScript(w, f.r, f.d.kind, f.c.server, uid)
  }

  function LoginTodo(w: World, f: Ftp): seq<Event> {
    var user := UserScript(w, f.c.uid, f.c.passwd);
    var rest := SetupTodo(w, f, UserInTheEnd(w, f.c.uid, f.c.passwd));
    match f.substate
    case SUB_FIRST => Script(w, f.c.uid, f.c.passwd, f.c.server, f.d.kind, f.r)
    case LOGIN_REIN => Unless(f.sent, REIN, "") + (user + rest)
    case LOGIN_GREETING => user + rest
    case LOGIN_UID => Unless(f.sent, USER, f.c.uid) + (AfterUserScript(w, f.c.passwd) + rest)
    case LOGIN_PASSWD =>
      Unless(f.sent, PASS, f.c.passwd)
        + ((if w.asksAccount then [Cmd(ACCT, w.account)] else []) + SetupTodo(w, f, f.c.uid))
    case LOGIN_ACCOUNT => Unless(f.sent, ACCT, w.account) + SetupTodo(w, f, f.c.uid)
    case LOGIN_PROMPT => AskScript(w) + SetupTodo(w, f, w.uid)
    case _ => SetupTodo(w, f, f.c.uid)
  }

  function DconTodo(w: World, f: Ftp): seq<Event> {
    var info := InfoScript(w, f.r, f.d.kind, f.c.server, f.c.uid);
    match f.substate
    case SUB_FIRST => if f.sent then PortScript(w, f.r) + info else SetupTodo(w, f, f.c.uid)
    case DCON_SELECT => PortScript(w, f.r) + info
    case DCON_PASV => Unless(f.sent, PASV, "") + ((if w.passive then [] else [Cmd(PORT, "")]) + info)
    case DCON_PORT => Unless(f.sent, PORT, "") + info
    case _ => info
  }

  function ListTodo(w: World, f: Ftp, server: Server): seq<Event> {
    ListScript(w, f.r, server, f.c.uid)
  }

  function ServerTodo(w: World, f: Ftp): seq<Event> {
    match f.substate
    case SUB_FIRST =>
      if f.sent then PwdScript(w) + ListTodo(w, f, Guess(w, UNSURE))
      else InfoScript(w, f.r, 'N', f.c.server, f.c.uid)
    case SERVER_CHECK_SYST => PwdScript(w) + ListTodo(w, f, Guess(w, UNSURE))
    case SERVER_PWD => Unless(f.sent, PWD, "") + ListTodo(w, f, Guess(w, UNSURE))
    case SERVER_CHECK_PWD => ListTodo(w, f, Guess(w, UNSURE))
    case _ => ListTodo(w, f, f.c.server)
  }

  function WalkTodo(f: Ftp): seq<Event>
    requires f.d.offset <= |f.r.file|
  {
    WalkScript(TransferOf(f.r.put, f.d.kind), f.r.file[f.d.offset..])
  }

  function WholeWalk(f: Ftp): seq<Event> {
    if f.r.file == "" then []
    else [Cmd(CWD, RootOf(f.c.server, f.c.uid))] + WalkScript(TransferOf(f.r.put, f.d.kind), f.r.file[1..])
  }

  function DataTodo(w: World, f: Ftp): seq<Event>
    requires f.d.offset <= |f.r.file|
  {
    var cmd := TransferOf(f.r.put, f.d.kind);
    match f.substate
    case SUB_FIRST | DATA_CONNECT => TransferScript(w, f.r, f.d.kind, f.c.server, f.c.uid)
    case DATA_ACTION =>
      Unless(f.sent, cmd, f.r.file[f.d.offset..]) + if w.walks && !f.c.cwd then WholeWalk(f) else []
    case DATA_SEGMENT => if f.d.offset == 0 then WholeWalk(f) else WalkTodo(f)
    case DATA_CWD => Unless(f.sent, CWD, f.d.segment) + WalkTodo(f)
    case _ => []
  }

  function Todo(w: World, f: Ftp): seq<Event>
    requires f.d.offset <= |f.r.file|
  {
    match f.state
    case FTP_NEED_LOGIN => LoginTodo(w, f)
    case FTP_NEED_DCON => DconTodo(w, f)
    case FTP_NEED_SERVER => ServerTodo(w, f)
    case FTP_NEED_DATA => DataTodo(w, f)
    case _ => []
  }

  // The invariant

  predicate LoginOnScript(w: World, f: Ftp) {
    && (f.substate == LOGIN_UID ==> f.c.uid != "")
    && (f.substate == LOGIN_ACCOUNT ==> f.c.account == w.account)
  }

  predicate ServerOnScript(w: World, f: Ftp) {
    && f.d.kind == 'N'
    && (f.substate == SUB_FIRST && f.sent ==> f.c.server == UNSURE)
    && (f.substate == SERVER_CHECK_SYST ==> w.knowsSyst && f.c.reply == w.syst && f.c.server == UNSURE)
    && (f.substate in {SERVER_PWD, SERVER_CHECK_PWD} ==> f.c.server == SystTells(w) && Unsure(SystTells(w)))
    && (f.substate == SERVER_CHECK_PWD ==> f.c.reply == w.pwd)
  }

  predicate DataOnScript(w: World, f: Ftp) {
    && (f.substate in {DATA_SEGMENT, DATA_CWD} ==> f.r.file != "")
    && (f.substate == DATA_SEGMENT ==> (f.c.cwd <==> f.d.offset > 0))
    && (f.substate in {SUB_FIRST, DATA_CONNECT} ==> !f.c.cwd)
  }

  predicate OnScript(w: World, f: Ftp) {
    && Sane(f) && Sensible(w, f.r) && f.substate != SUB_ERROR && f.d.offset <= |f.r.file|
    && (f.state in {FTP_NEED_LOGIN, FTP_NEED_DCON, FTP_NEED_SERVER} ==> !f.c.cwd)
    && (f.state == FTP_NEED_DCON && f.substate in {SUB_FIRST, DCON_SELECT, DCON_PASV, DCON_PORT} ==> !f.d.pasv)
    && (f.state == FTP_NEED_LOGIN ==> LoginOnScript(w, f))
    && (f.state == FTP_NEED_SERVER ==> ServerOnScript(w, f))
    && (f.state == FTP_NEED_DATA ==> DataOnScript(w, f))
    && (Working(f) || f.state == FTP_SUCCESS)
  }

  // The commands before what follows them.
  function Prepended(said: seq<Event>, todo: seq<Event>): seq<Event> {
    if said != [] && said[0].Cmd? then [said[0]] + todo else todo
  }

  // The step g of f sends what it should.
  predicate KeepsTo(w: World, f: Ftp, e: Env, g: Ftp) {
    g.d.offset <= |g.r.file| && f.d.offset <= |f.r.file| && Todo(w, f) == Prepended(Said(f, e), Todo(w, g))
  }

  lemma Unsaid(a: seq<Event>)
    ensures [] + a == a
  {
  }

  lemma First(x: Event, a: seq<Event>, b: seq<Event>)
    ensures [x] + a + b == [x] + (a + b) && [x] + ([] + a) == [x] + a && [] + a == a
  {
  }

  lemma StartKeepsTo(w: World, f: Ftp, e: Env)
    requires OnScript(w, f) && Obliges(w, f, e) && f.state == FTP_NEED_LOGIN && f.substate == SUB_FIRST
    ensures KeepsTo(w, f, e, LoginStep(f, e))
  {
    var user := UserScript(w, f.c.uid, f.c.passwd);
    var rest := SetupTodo(w, f, UserInTheEnd(w, f.c.uid, f.c.passwd));
    First(Cmd(REIN, ""), user, rest);
    Unsaid(user);
  }

  lemma GreetingKeepsTo(w: World, f: Ftp, e: Env)
    requires OnScript(w, f) && Obliges(w, f, e) && f.state == FTP_NEED_LOGIN && f.substate == LOGIN_GREETING
    ensures KeepsTo(w, f, e, GreetingStep(f, e))
  {
    var rest := SetupTodo(w, f, UserInTheEnd(w, f.c.uid, f.c.passwd));
    First(Cmd(USER, f.c.uid), AfterUserScript(w, f.c.passwd), rest);
  }

  lemma ReinKeepsTo(w: World, f: Ftp, e: Env)
    requires OnScript(w, f) && Obliges(w, f, e) && f.state == FTP_NEED_LOGIN && f.substate == LOGIN_REIN
    ensures KeepsTo(w, f, e, LoginStep(f, e))
  {
    var user := UserScript(w, f.c.uid, f.c.passwd);
    var rest := SetupTodo(w, f, UserInTheEnd(w, f.c.uid, f.c.passwd));
    First(Cmd(REIN, ""), user + rest, []);
    First(Cmd(USER, f.c.uid), AfterUserScript(w, f.c.passwd), rest);
    Unsaid(user + rest);
  }

  lemma UserKeepsTo(w: World, f: Ftp, e: Env)
    requires f.d.offset <= |f.r.file| && f.state == FTP_NEED_LOGIN && f.substate == LOGIN_UID && f.c.uid != ""
    requires f.sent ==> e.status == HT_WOULD_BLOCK || (e.status == HT_LOADED && Replies(w, f, USER, e))
    ensures KeepsTo(w, f, e, LoginStep(f, e))
  {
    var rest := SetupTodo(w, f, UserInTheEnd(w, f.c.uid, f.c.passwd));
    var acct := if w.asksAccount then [Cmd(ACCT, w.account)] else [];
    First(Cmd(USER, f.c.uid), AfterUserScript(w, f.c.passwd) + rest, []);
    First(Cmd(PASS, f.c.passwd), acct, rest);
    Unsaid(AfterUserScript(w, f.c.passwd) + rest);
    Unsaid(rest);
  }

  lemma PassKeepsTo(w: World, f: Ftp, e: Env)
    requires OnScript(w, f) && Obliges(w, f, e) && f.state == FTP_NEED_LOGIN && f.substate == LOGIN_PASSWD
    ensures KeepsTo(w, f, e, PassStep(f, e))
  {
    var rest := SetupTodo(w, f, f.c.uid);
    var acct := if w.asksAccount then [Cmd(ACCT, w.account)] else [];
    First(Cmd(PASS, f.c.passwd), acct + rest, []);
    Unsaid(acct + rest);
    Unsaid(rest);
  }

  lemma AcctKeepsTo(w: World, f: Ftp, e: Env)
    requires OnScript(w, f) && Obliges(w, f, e) && f.state == FTP_NEED_LOGIN && f.substate == LOGIN_ACCOUNT
    ensures KeepsTo(w, f, e, LoginStep(f, e))
  {
    First(Cmd(ACCT, w.account), SetupTodo(w, f, f.c.uid), []);
    Unsaid(SetupTodo(w, f, f.c.uid));
  }

  lemma PromptKeepsTo(w: World, f: Ftp, e: Env)
    requires OnScript(w, f) && Obliges(w, f, e) && f.state == FTP_NEED_LOGIN && f.substate == LOGIN_PROMPT
    ensures KeepsTo(w, f, e, LoginStep(f, e))
  {
    var rest := SetupTodo(w, f, w.uid);
    First(Cmd(USER, w.uid), AfterUserScript(w, w.passwd), rest);
  }

  lemma LoginKeepsTo(w: World, f: Ftp, e: Env)
    requires OnScript(w, f) && Obliges(w, f, e) && f.state == FTP_NEED_LOGIN
    ensures KeepsTo(w, f, e, LoginStep(f, e))
  {
    match f.substate
    case SUB_FIRST => StartKeepsTo(w, f, e);
    case LOGIN_GREETING => GreetingKeepsTo(w, f, e);
    case LOGIN_REIN => ReinKeepsTo(w, f, e);
    case LOGIN_UID => UserKeepsTo(w, f, e);
    case LOGIN_PASSWD => PassKeepsTo(w, f, e);
    case LOGIN_ACCOUNT => AcctKeepsTo(w, f, e);
    case LOGIN_PROMPT => PromptKeepsTo(w, f, e);
    case _ => Unsaid(SetupTodo(w, f, f.c.uid));
  }

  lemma TypeKeepsTo(w: World, f: Ftp, e: Env)
    requires OnScript(w, f) && Obliges(w, f, e) && f.state == FTP_NEED_DCON && f.substate == SUB_FIRST
    ensures KeepsTo(w, f, e, TypeStep(f, e))
  {
    var info := InfoScript(w, f.r, f.d.kind, f.c.server, f.c.uid);
    First(Cmd(TYPE, [f.d.kind]), PortScript(w, f.r), info);
    Unsaid(PortScript(w, f.r));
  }

  lemma PasvKeepsTo(w: World, f: Ftp, e: Env)
    requires OnScript(w, f) && Obliges(w, f, e) && f.state == FTP_NEED_DCON && f.substate == DCON_PASV
    ensures KeepsTo(w, f, e, PasvStep(f, e))
  {
    var info := InfoScript(w, f.r, f.d.kind, f.c.server, f.c.uid);
    var port := if w.passive then [] else [Cmd(PORT, "")];
    First(Cmd(PASV, ""), port + info, []);
    Unsaid(port + info);
    Unsaid(info);
  }

  lemma PortKeepsTo(w: World, f: Ftp, e: Env)
    requires OnScript(w, f) && Obliges(w, f, e) && f.state == FTP_NEED_DCON && f.substate == DCON_PORT
    ensures KeepsTo(w, f, e, PortStep(f, e))
  {
    var info := InfoScript(w, f.r, f.d.kind, f.c.server, f.c.uid);
    First(Cmd(PORT, ""), info, []);
    Unsaid(info);
  }

  lemma SelectKeepsTo(w: World, f: Ftp, e: Env)
    requires f.d.offset <= |f.r.file| && !f.d.pasv && !f.sent && Helps(f, e)
    requires f.state == FTP_NEED_DCON && f.substate == DCON_SELECT
    ensures KeepsTo(w, f, e, DconStep(f, e))
  {
    var info := InfoScript(w, f.r, f.d.kind, f.c.server, f.c.uid);
    First(Cmd(PASV, ""), if w.passive then [] else [Cmd(PORT, "")], info);
  }

  lemma ConnectedKeepsTo(w: World, f: Ftp, e: Env)
    requires f.d.offset <= |f.r.file| && !f.sent && f.state == FTP_NEED_DCON && f.substate == SUB_SUCCESS
    ensures KeepsTo(w, f, e, DconStep(f, e))
  {
  }

  lemma DconKeepsTo(w: World, f: Ftp, e: Env)
    requires OnScript(w, f) && Obliges(w, f, e) && f.state == FTP_NEED_DCON
    ensures KeepsTo(w, f, e, DconStep(f, e))
  {
    match f.substate
    case SUB_FIRST => TypeKeepsTo(w, f, e);
    case DCON_PASV => PasvKeepsTo(w, f, e);
    case DCON_PORT => PortKeepsTo(w, f, e);
    case DCON_SELECT => SelectKeepsTo(w, f, e);
    case _ => ConnectedKeepsTo(w, f, e);
  }

  lemma SystKeepsTo(w: World, f: Ftp, e: Env)
    requires OnScript(w, f) && Obliges(w, f, e) && f.state == FTP_NEED_SERVER && f.substate == SUB_FIRST
    ensures KeepsTo(w, f, e, SystStep(f, e))
  {
    if f.sent {
      Unsaid(ListTodo(w, f, Guess(w, UNSURE)));
    }
  }

  lemma PwdKeepsTo(w: World, f: Ftp, e: Env)
    requires ServerOnScript(w, f) && f.d.offset <= |f.r.file| && f.state == FTP_NEED_SERVER && f.substate == SERVER_PWD
    requires f.sent ==> e.status == HT_WOULD_BLOCK || (e.status == HT_LOADED && Replies(w, f, PWD, e))
    ensures KeepsTo(w, f, e, ServerStep(f, e))
  {
    Unsaid(ListTodo(w, f, Guess(w, UNSURE)));
  }

  lemma CheckKeepsTo(w: World, f: Ftp, e: Env)
    requires OnScript(w, f) && Obliges(w, f, e) && f.state == FTP_NEED_SERVER && f.substate == SERVER_CHECK_SYST
    ensures KeepsTo(w, f, e, ServerStep(f, e))
  {
    Unsaid(ListTodo(w, f, Guess(w, UNSURE)));
  }

  lemma ServerKeepsTo(w: World, f: Ftp, e: Env)
    requires OnScript(w, f) && Obliges(w, f, e) && f.state == FTP_NEED_SERVER
    ensures KeepsTo(w, f, e, ServerStep(f, e))
  {
    match f.substate
    case SUB_FIRST => SystKeepsTo(w, f, e);
    case SERVER_CHECK_SYST => CheckKeepsTo(w, f, e);
    case SERVER_PWD => PwdKeepsTo(w, f, e);
    case _ =>
  }

  lemma ActionKeepsTo(w: World, f: Ftp, e: Env)
    requires OnScript(w, f) && Obliges(w, f, e) && f.state == FTP_NEED_DATA && f.substate == DATA_ACTION
    ensures KeepsTo(w, f, e, ActionStep(f, e))
  {
    var walk := if w.walks && !f.c.cwd then WholeWalk(f) else [];
    Unsaid(walk);
    if f.sent && e.status == HT_LOADED {
      ActionHeard(w, f, e);
    }
  }

  lemma ActionHeard(w: World, f: Ftp, e: Env)
    requires f.state == FTP_NEED_DATA && f.substate == DATA_ACTION && f.d.offset <= |f.r.file|
    requires f.sent && e.status == HT_LOADED && Replies(w, f, TransferCommand(f), e)
    requires !f.c.cwd ==> f.d.offset == 0
    ensures var g := ActionStep(f, e);
      && g.d.offset <= |g.r.file| && g.state == FTP_NEED_DATA
      && DataTodo(w, g) == if w.walks && !f.c.cwd then WholeWalk(f) else []
  {
  }

  lemma SegmentKeepsTo(w: World, f: Ftp, e: Env)
    requires OnScript(w, f) && Obliges(w, f, e) && f.state == FTP_NEED_DATA && f.substate == DATA_SEGMENT
    ensures KeepsTo(w, f, e, SegmentStep(f))
  {
    if f.d.offset > 0 {
      assert f.c.cwd;
      NextKeepsTo(w, f);
    }
  }

  lemma NextKeepsTo(w: World, f: Ftp)
    requires f.state == FTP_NEED_DATA && f.substate == DATA_SEGMENT && f.c.cwd && !f.sent
    requires 0 < f.d.offset <= |f.r.file|
    ensures SegmentStep(f).d.offset <= |f.r.file| && DataTodo(w, SegmentStep(f)) == WalkTodo(f)
    ensures SegmentStep(f).r == f.r && SegmentStep(f).state == FTP_NEED_DATA
  {
    var rest := f.r.file[f.d.offset..];
    var k := Find(rest, '/');
    if k < |rest| {
      assert rest[k + 1..] == f.r.file[f.d.offset + k + 1..];
    }
  }

  lemma CwdKeepsTo(w: World, f: Ftp, e: Env)
    requires OnScript(w, f) && Obliges(w, f, e) && f.state == FTP_NEED_DATA && f.substate == DATA_CWD
    ensures KeepsTo(w, f, e, CwdStep(f, e))
  {
    Unsaid(WalkTodo(f));
  }

  lemma TransferKeepsTo(w: World, f: Ftp, e: Env)
    requires OnScript(w, f) && Helps(f, e) && f.state == FTP_NEED_DATA
    requires f.substate == DATA_CONNECT ==> e.status == HT_WOULD_BLOCK || e.status == HT_OK
    requires f.substate in {SUB_FIRST, DATA_CONNECT, DATA_ACCEPT, DATA_STREAM, DATA_BODY, SUB_SUCCESS}
    ensures KeepsTo(w, f, e, DataStep(f, e))
  {
    if f.substate == DATA_BODY {
      BodySaysNothing(w, f, e);
    }
  }

  lemma BodySaysNothing(w: World, f: Ftp, e: Env)
    requires f.d.offset <= |f.r.file| && Helps(f, e) && f.state == FTP_NEED_DATA && f.substate == DATA_BODY
    ensures KeepsTo(w, f, e, BodyStep(f, e))
  {
  }

  lemma DataKeepsTo(w: World, f: Ftp, e: Env)
    requires OnScript(w, f) && Obliges(w, f, e) && f.state == FTP_NEED_DATA
    ensures KeepsTo(w, f, e, DataStep(f, e))
  {
    match f.substate {
      case DATA_ACTION => ActionKeepsTo(w, f, e);
      case DATA_SEGMENT => SegmentKeepsTo(w, f, e);
      case DATA_CWD => CwdKeepsTo(w, f, e);
      case _ => TransferKeepsTo(w, f, e);
    }
  }

  lemma LoginStaysOn(w: World, f: Ftp, e: Env)
    requires OnScript(w, f) && Obliges(w, f, e) && f.state == FTP_NEED_LOGIN
    ensures Sane(LoginStep(f, e)) ==> OnScript(w, LoginStep(f, e))
  {
  }

  lemma DconStaysOn(w: World, f: Ftp, e: Env)
    requires OnScript(w, f) && Obliges(w, f, e) && f.state == FTP_NEED_DCON
    ensures Sane(DconStep(f, e)) ==> OnScript(w, DconStep(f, e))
  {
  }

  lemma ServerStaysOn(w: World, f: Ftp, e: Env)
    requires OnScript(w, f) && Obliges(w, f, e) && f.state == FTP_NEED_SERVER
    ensures Sane(ServerStep(f, e)) ==> OnScript(w, ServerStep(f, e))
  {
  }

  lemma ActionStaysOn(w: World, f: Ftp, e: Env)
    requires OnScript(w, f) && Obliges(w, f, e) && f.state == FTP_NEED_DATA && f.substate == DATA_ACTION
    ensures Sane(ActionStep(f, e)) ==> OnScript(w, ActionStep(f, e))
  {
  }

  lemma WalkStaysOn(w: World, f: Ftp, e: Env)
    requires OnScript(w, f) && Obliges(w, f, e) && f.state == FTP_NEED_DATA && f.substate in {DATA_SEGMENT, DATA_CWD}
    ensures Sane(DataStep(f, e)) ==> OnScript(w, DataStep(f, e))
  {
  }

  lemma BodyStaysOn(w: World, f: Ftp, e: Env)
    requires OnScript(w, f) && Obliges(w, f, e) && f.state == FTP_NEED_DATA && f.substate == DATA_BODY
    ensures Sane(BodyStep(f, e)) ==> OnScript(w, BodyStep(f, e))
  {
  }

  lemma DataStaysOn(w: World, f: Ftp, e: Env)
    requires OnScript(w, f) && Obliges(w, f, e) && f.state == FTP_NEED_DATA
    ensures Sane(DataStep(f, e)) ==> OnScript(w, DataStep(f, e))
  {
    match f.substate
    case DATA_ACTION => ActionStaysOn(w, f, e);
    case DATA_SEGMENT => WalkStaysOn(w, f, e);
    case DATA_CWD => WalkStaysOn(w, f, e);
    case DATA_BODY => BodyStaysOn(w, f, e);
    case _ =>
  }

  lemma StepFollows(w: World, f: Ftp, e: Env)
    requires OnScript(w, f) && Obliges(w, f, e) && Working(f)
    ensures OnScript(w, Step(f, e)) && KeepsTo(w, f, e, Step(f, e))
  {
    StepFalls(f, e);
    match f.state {
      case FTP_NEED_LOGIN => LoginStaysOn(w, f, e); LoginKeepsTo(w, f, e);
      case FTP_NEED_DCON => DconStaysOn(w, f, e); DconKeepsTo(w, f, e);
      case FTP_NEED_SERVER => ServerStaysOn(w, f, e); ServerKeepsTo(w, f, e);
      case FTP_NEED_DATA => DataStaysOn(w, f, e); DataKeepsTo(w, f, e);
    }
  }

  // ---------------------------------------------------------------------------------------------
  // Runs

  // The commands of a trace, in order.
  function Commands(t: seq<Event>): seq<Event> {
    if t == [] then [] else (if t[0].Cmd? then [t[0]] else []) + Commands(t[1..])
  }

  lemma SaidFirst(f: Ftp, e: Env, t: seq<Event>)
    ensures Commands(Said(f, e) + t) == Prepended(Said(f, e), Commands(t))
  {
    var said := Said(f, e);
    if said == [] {
      assert said + t == t;
    } else {
      assert (said + t)[1..] == t;
    }
  }

  lemma PrependedTo(said: seq<Event>, a: seq<Event>, b: seq<Event>)
    ensures Prepended(said, a) + b == Prepended(said, a + b)
  {
  }

  lemma {:induction false} RunFollows(w: World, f: Ftp, es: seq<Env>)
    requires OnScript(w, f) && AlwaysObliges(w, f, es)
    ensures OnScript(w, Run(f, es))
    ensures Commands(Trace(f, es)) + Todo(w, Run(f, es)) == Todo(w, f)
    decreases |es|
  {
    if es == [] {
      Unsaid(Todo(w, f));
    } else {
      FollowsOn(w, f, es[0]);
      var g := Step(f, es[0]);
      var t := Trace(g, es[1..]);
      RunFollows(w, g, es[1..]);
      SaidFirst(f, es[0], t);
      PrependedTo(Said(f, es[0]), Commands(t), Todo(w, Run(g, es[1..])));
    }
  }

  lemma FollowsOn(w: World, f: Ftp, e: Env)
    requires OnScript(w, f) && Obliges(w, f, e)
    ensures OnScript(w, Step(f, e)) && KeepsTo(w, f, e, Step(f, e))
  {
    if Working(f) {
      StepFollows(w, f, e);
    } else {
      assert Step(f, e) == f && Said(f, e) == [];
    }
  }

  // To a server that obliges, the client sends the commands of the script, in their order and no others, and
  // all of them when it has succeeded, which in time it does.
  lemma FollowsScript(w: World, uid: string, passwd: string, server: Server, kind: char, r: Request, es: seq<Env>)
    requires Sensible(w, r) && AlwaysObliges(w, Start(uid, passwd, server, kind, r), es)
    ensures var f := Start(uid, passwd, server, kind, r); var script := Script(w, uid, passwd, server, kind, r);
      && Commands(Trace(f, es)) <= script
      && (Run(f, es).state == FTP_SUCCESS ==> Commands(Trace(f, es)) == script)
      && (|es| >= 101 + 3 * (if r.file == "" then 0 else Slashes(r.file[1..])) + Slacks(f, es)
          ==> Run(f, es).state == FTP_SUCCESS)
  {
    var f := Start(uid, passwd, server, kind, r);
    RunFollows(w, f, es);
    if Working(Run(f, es)) {
      RequestEnds(uid, passwd, server, kind, r, es);
    } else {
      assert Todo(w, Run(f, es)) == [];
    }
  }

  // ---------------------------------------------------------------------------------------------
  // Which server it is

  // The text of a reply to SYST: the first of these that is true decides, and otherwise nothing changes.
  lemma SystNames(reply: string, server: Server)
    ensures var machTen := reply == "UNIX Type: L8MAC-OSMachTen"; var unix := Contains(reply, "UNIX");
      && (machTen ==> SystGuess(reply, server) == MACHTEN)
      && (unix && !machTen ==> SystGuess(reply, server) == UNIX)
      && (!unix && "VMS" <= reply ==> SystGuess(reply, server) == VMS)
      && (!unix && "VM" <= reply && !("VMS" <= reply) ==> SystGuess(reply, server) == CMS)
      && (!unix && "DCTS" <= reply ==> SystGuess(reply, server) == DCTS)
      && (!unix && "MACOS Peter's Server" <= reply && !Contains(reply, "MAC-OS TCP/ConnectII")
          ==> SystGuess(reply, server) == PETER_LEWIS)
      && (!unix && "Windows_NT" <= reply && !Contains(reply, "MAC-OS TCP/ConnectII") ==> SystGuess(reply, server) == WINNT)
      && (!unix && !("VM" <= reply) && !("DCTS" <= reply) && Contains(reply, "MAC-OS TCP/ConnectII")
          ==> SystGuess(reply, server) == TCPC_UNSURE)
  {
    if reply == "UNIX Type: L8MAC-OSMachTen" {
      assert "UNIX" <= reply[0..];
    }
    assert "VM" <= reply || "VMS" <= reply ==> reply[0] == 'V';
    assert "DCTS" <= reply ==> reply[0] == 'D';
    assert "MACOS Peter's Server" <= reply ==> reply[0] == 'M';
    assert "Windows_NT" <= reply ==> reply[0] == 'W';
  }

  lemma {:induction false} FindAfter(a: string, ch: char, b: string)
    requires ch !in a
    ensures Find(a + [ch] + b, ch) == |a|
  {
    if a == "" {
      assert (a + [ch] + b)[0] == ch;
    } else {
      FindAfter(a[1..], ch, b);
      assert (a + [ch] + b)[1..] == a[1..] + [ch] + b;
    }
  }

  // The text of a reply to PWD that has a directory in double quotes.
  lemma PwdNames(a: string, dir: string, b: string, server: Server)
    requires '"' !in a && '"' !in dir
    ensures var guess := PwdGuess(a + ['"'] + (dir + ['"'] + b), server);
      if server == TCPC || server == TCPC_UNSURE then guess == if "/" <= dir then NCSA else TCPC
      else if "/" <= dir then guess == UNIX
      else if dir != "" && dir[|dir| - 1] == ']' then guess == VMS
      else guess == GENERIC
  {
    var rest := dir + ['"'] + b;
    FindAfter(a, '"', rest);
    FindAfter(dir, '"', b);
    assert (a + ['"'] + rest)[|a| + 1..] == rest;
    assert rest[..|dir|] == dir;
  }
}
