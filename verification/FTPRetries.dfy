// How often the FTP client tries again, and what it asks for when it does: every run makes at most one
// swap from PASV to PORT and one fallback to a directory, sends each preparing command at most once, and
// changes directory no more often than the path has segments.
module FTPRetries {
  import opened FTPMachine
  import opened FTPSession

  function Count(t: seq<Event>, c: Command): nat {
    if t == [] then 0 else (if t[0].Cmd? && t[0].cmd == c then 1 else 0) + Count(t[1..], c)
  }

  function Transfers(t: seq<Event>): nat {
    if t == [] then 0 else (if t[0].Cmd? && IsTransfer(t[0].cmd) then 1 else 0) + Transfers(t[1..])
  }

  // The number of steps that go from one phase to another.
  function Turns(f: Ftp, es: seq<Env>, a: Phase, b: Phase): nat
    decreases |es|
  {
    if es == [] then 0
    else (if f.state == a && Step(f, es[0]).state == b then 1 else 0) + Turns(Step(f, es[0]), es[1..], a, b)
  }

  predicate IsTransfer(c: Command) {
    c in {LIST, NLST, RETR, STOR}
  }

  function Slashes(s: string): nat {
    if s == "" then 0 else (if s[0] == '/' then 1 else 0) + Slashes(s[1..])
  }

  // ---------------------------------------------------------------------------------------------
  // What is left to do.  The invariant:

  predicate Sound(f: Ftp) {
    && (f.state == FTP_NEED_DATA && f.substate == DATA_CONNECT ==> f.d.pasv)
    && (f.state == FTP_NEED_LOGIN ==> !f.d.pasv)
    && (f.state == FTP_NEED_SERVER && f.substate == SUB_SUCCESS ==> !Unsure(f.c.server))
    && (f.d.offset > 0 ==> f.c.cwd || (f.state == FTP_NEED_DATA && f.substate == DATA_CWD && !f.sent))
    && (f.state == FTP_NEED_DATA && f.substate == DATA_CWD ==> f.d.offset > 0)
    && (f.state == FTP_NEED_DATA && f.substate == DATA_SEGMENT ==> !f.sent)
    && (f.state == FTP_NEED_DCON && f.substate == DCON_PASV ==> !f.d.pasv)
    && (f.r.file != "" ==> f.d.offset <= |f.r.file|)
    && (f.c.cwd ==> f.d.offset > 0)
  }

  predicate Working(f: Ftp) {
    f.state in {FTP_NEED_LOGIN, FTP_NEED_DCON, FTP_NEED_DATA, FTP_NEED_SERVER}
  }

  function TypeLeft(f: Ftp): nat {
    if f.state == FTP_NEED_LOGIN then 1
    else if f.state == FTP_NEED_DCON && f.substate == SUB_FIRST && !f.sent && !f.d.pasv then 1
    else 0
  }

  function PasvLeft(f: Ftp): nat {
    if f.state == FTP_NEED_LOGIN then 1
    else if f.state == FTP_NEED_DCON && f.substate in {SUB_FIRST, DCON_SELECT} && !f.d.pasv then 1
    else if f.state == FTP_NEED_DCON && f.substate == DCON_PASV && !f.sent then 1
    else 0
  }

  function PortLeft(f: Ftp): nat {
    if f.state == FTP_NEED_LOGIN then 1
    else if f.state == FTP_NEED_DCON && f.substate in {SUB_FIRST, DCON_SELECT, DCON_PASV} then 1
    else if f.state == FTP_NEED_DCON && f.substate == DCON_PORT then (if f.sent then 0 else 1)
    else if Working(f) && f.d.pasv && f.substate != SUB_ERROR then 1
    else if Working(f) && f.state != FTP_NEED_DCON && f.d.pasv then 1
    else 0
  }

  function SwapLeft(f: Ftp): nat {
    if f.state == FTP_NEED_LOGIN then 1
    else if f.state == FTP_NEED_DCON then
      if f.substate in {SUB_FIRST, DCON_SELECT} then (if f.d.pasv then 0 else 1)
      else if f.substate == DCON_PASV then 1
      else if f.substate == SUB_SUCCESS && f.d.pasv then 1
      else 0
    else if Working(f) && f.d.pasv then 1
    else 0
  }

  function FallbackLeft(f: Ftp): nat {
    if Working(f) && !IsDir(f) then 1 else 0
  }

  function SystLeft(f: Ftp): nat {
    if Working(f) && f.c.server == UNSURE && !(f.state == FTP_NEED_SERVER && (f.sent || f.substate != SUB_FIRST))
    then 1 else 0
  }

  function PwdLeft(f: Ftp): nat {
    if f.state == FTP_NEED_SERVER && f.substate == SUB_FIRST && f.sent then 1
    else if f.state == FTP_NEED_SERVER && f.substate == SERVER_CHECK_SYST then 1
    else if f.state == FTP_NEED_SERVER && f.substate == SERVER_PWD && !f.sent then 1
    else SystLeft(f)
  }

  function TransfersLeft(f: Ftp): nat {
    if !Working(f) then 0
    else
      (if f.c.cwd then 0 else 1) + FallbackLeft(f)
      + (if f.state != FTP_NEED_DATA then 1
         else if f.substate in {SUB_FIRST, DATA_CONNECT} || (f.substate == DATA_ACTION && !f.sent) then 1
         else if f.substate in {DATA_SEGMENT, DATA_CWD} then (if f.c.cwd then 1 else 0)
         else 0)
  }

  // The CWDs of a walk that has got to the offset.
  function WalkLeft(file: string, offset: nat): nat {
    if offset == 0 then 1 + (if file == "" then 0 else Slashes(file[1..]))
    else if offset <= |file| then Slashes(file[offset..])
    else 0
  }

  function Pending(f: Ftp): nat {
    if f.state == FTP_NEED_DATA && f.substate == DATA_CWD && !f.sent then 1 else 0
  }

  function CwdLeft(f: Ftp): nat {
    WalkLeft(f.r.file, f.d.offset) + Pending(f)
  }

  lemma LoginIsSound(f: Ftp, e: Env)
    requires InStep(f) && Sound(f) && f.state == FTP_NEED_LOGIN
    ensures InStep(LoginStep(f, e)) && Sound(LoginStep(f, e))
  {
  }

  lemma DconIsSound(f: Ftp, e: Env)
    requires InStep(f) && Sound(f) && f.state == FTP_NEED_DCON
    ensures InStep(DconStep(f, e)) && Sound(DconStep(f, e))
  {
  }

  lemma ServerIsSound(f: Ftp, e: Env)
    requires InStep(f) && Sound(f) && f.state == FTP_NEED_SERVER
    ensures InStep(ServerStep(f, e)) && Sound(ServerStep(f, e))
  {
  }

  lemma SegmentIsSound(f: Ftp)
    requires InStep(f) && Sound(f) && f.state == FTP_NEED_DATA && f.substate == DATA_SEGMENT
    ensures InStep(SegmentStep(f)) && Sound(SegmentStep(f))
  {
  }

  lemma CwdIsSound(f: Ftp, e: Env)
    requires InStep(f) && Sound(f) && f.state == FTP_NEED_DATA && f.substate == DATA_CWD
    ensures InStep(CwdStep(f, e)) && Sound(CwdStep(f, e))
  {
  }

  lemma ActionIsSound(f: Ftp, e: Env)
    requires InStep(f) && Sound(f) && f.state == FTP_NEED_DATA && f.substate == DATA_ACTION
    ensures InStep(ActionStep(f, e)) && Sound(ActionStep(f, e))
  {
  }

  lemma BodyIsSound(f: Ftp, e: Env)
    requires InStep(f) && Sound(f) && f.state == FTP_NEED_DATA && f.substate == DATA_BODY
    ensures InStep(BodyStep(f, e)) && Sound(BodyStep(f, e))
  {
  }

  lemma DataIsSound(f: Ftp, e: Env)
    requires InStep(f) && Sound(f) && f.state == FTP_NEED_DATA
    ensures InStep(DataStep(f, e)) && Sound(DataStep(f, e))
  {
    match f.substate
    case DATA_SEGMENT => SegmentIsSound(f);
    case DATA_CWD => CwdIsSound(f, e);
    case DATA_ACTION => ActionIsSound(f, e);
    case DATA_BODY => BodyIsSound(f, e);
    case _ =>
  }

  // ---------------------------------------------------------------------------------------------
  // Each step takes from what is left

  predicate Sends(f: Ftp) {
    Current(f) != Nothing && !f.sent
  }

  function Sent(f: Ftp, c: Command): nat {
    if Sends(f) && Current(f).cmd == c then 1 else 0
  }

  function Turned(f: Ftp, g: Ftp, a: Phase, b: Phase): nat {
    if f.state == a && g.state == b then 1 else 0
  }

  predicate SetupSpent(f: Ftp, g: Ftp) {
    && Sent(f, TYPE) + TypeLeft(g) <= TypeLeft(f)
    && Sent(f, PASV) + PasvLeft(g) <= PasvLeft(f)
    && Sent(f, PORT) + PortLeft(g) <= PortLeft(f)
    && Turned(f, g, FTP_NEED_DATA, FTP_NEED_DCON) + SwapLeft(g) <= SwapLeft(f)
  }

  predicate ServerSpent(f: Ftp, g: Ftp) {
    && Sent(f, SYST) + SystLeft(g) <= SystLeft(f)
    && Sent(f, PWD) + PwdLeft(g) <= PwdLeft(f)
    && Turned(f, g, FTP_NEED_DATA, FTP_NEED_SERVER) + FallbackLeft(g) <= FallbackLeft(f)
  }

  predicate TransfersSpent(f: Ftp, g: Ftp) {
    (if Sends(f) && IsTransfer(Current(f).cmd) then 1 else 0) + TransfersLeft(g) <= TransfersLeft(f)
  }

  // Every step except the one that takes a segment.
  predicate SamePlace(f: Ftp, g: Ftp) {
    g.d.offset == f.d.offset && g.r == f.r && Sent(f, CWD) + Pending(g) <= Pending(f)
  }

  lemma {:induction false} SlashFound(s: string)
    ensures Find(s, '/') < |s| ==> Slashes(s) == 1 + Slashes(s[Find(s, '/') + 1..])
  {
    if s != "" && s[0] != '/' {
      SlashFound(s[1..]);
      var k := Find(s[1..], '/');
      assert k < |s[1..]| ==> s[1..][k + 1..] == s[k + 2..];
    }
  }

  lemma LoginPrepares(f: Ftp, e: Env)
    requires InStep(f) && Sound(f) && f.state == FTP_NEED_LOGIN
    ensures SetupSpent(f, LoginStep(f, e)) && ServerSpent(f, LoginStep(f, e))
  {
  }

  lemma LoginTransfers(f: Ftp, e: Env)
    requires InStep(f) && Sound(f) && f.state == FTP_NEED_LOGIN
    ensures TransfersSpent(f, LoginStep(f, e))
  {
  }

  lemma LoginStays(f: Ftp, e: Env)
    requires f.state == FTP_NEED_LOGIN
    ensures SamePlace(f, LoginStep(f, e))
  {
  }

  lemma DconPrepares(f: Ftp, e: Env)
    requires InStep(f) && Sound(f) && f.state == FTP_NEED_DCON
    ensures SetupSpent(f, DconStep(f, e)) && ServerSpent(f, DconStep(f, e))
  {
  }

  lemma DconTransfers(f: Ftp, e: Env)
    requires InStep(f) && Sound(f) && f.state == FTP_NEED_DCON
    ensures TransfersSpent(f, DconStep(f, e))
  {
  }

  lemma DconStays(f: Ftp, e: Env)
    requires f.state == FTP_NEED_DCON
    ensures SamePlace(f, DconStep(f, e))
  {
  }

  lemma ServerPrepares(f: Ftp, e: Env)
    requires InStep(f) && Sound(f) && f.state == FTP_NEED_SERVER
    ensures SetupSpent(f, ServerStep(f, e)) && ServerSpent(f, ServerStep(f, e))
  {
  }

  lemma ServerTransfers(f: Ftp, e: Env)
    requires InStep(f) && Sound(f) && f.state == FTP_NEED_SERVER
    ensures TransfersSpent(f, ServerStep(f, e))
  {
  }

  lemma ServerStays(f: Ftp, e: Env)
    requires f.state == FTP_NEED_SERVER
    ensures SamePlace(f, ServerStep(f, e))
  {
  }

  lemma DataPreparesSetup(f: Ftp, e: Env)
    requires InStep(f) && Sound(f) && f.state == FTP_NEED_DATA
    ensures SetupSpent(f, DataStep(f, e))
  {
  }

  lemma DataPreparesServer(f: Ftp, e: Env)
    requires InStep(f) && Sound(f) && f.state == FTP_NEED_DATA
    ensures ServerSpent(f, DataStep(f, e))
  {
    if f.substate == DATA_ACTION {
      ActionPreparesServer(f, e);
    }
  }

  lemma ActionPreparesServer(f: Ftp, e: Env)
    requires InStep(f) && f.state == FTP_NEED_DATA && f.substate == DATA_ACTION
    ensures ServerSpent(f, ActionStep(f, e))
  {
  }

  lemma DataTransfers(f: Ftp, e: Env)
    requires InStep(f) && Sound(f) && f.state == FTP_NEED_DATA
    ensures TransfersSpent(f, DataStep(f, e))
  {
  }

  lemma DataStays(f: Ftp, e: Env)
    requires f.state == FTP_NEED_DATA && f.substate != DATA_SEGMENT
    ensures SamePlace(f, DataStep(f, e))
  {
  }

  lemma SegmentTaken(f: Ftp)
    requires Sound(f) && f.state == FTP_NEED_DATA && f.substate == DATA_SEGMENT
    ensures CwdLeft(SegmentStep(f)) <= CwdLeft(f)
  {
    if 0 < f.d.offset <= |f.r.file| {
      NextTaken(f);
    }
  }

  lemma NextTaken(f: Ftp)
    requires f.state == FTP_NEED_DATA && f.substate == DATA_SEGMENT && 0 < f.d.offset <= |f.r.file|
    ensures CwdLeft(SegmentStep(f)) <= CwdLeft(f)
  {
    var rest := f.r.file[f.d.offset..];
    var k := Find(rest, '/');
    SlashFound(rest);
    if k < |rest| {
      assert rest[k + 1..] == f.r.file[f.d.offset + k + 1..];
    }
  }

  lemma StepIsSound(f: Ftp, e: Env)
    requires InStep(f) && Sound(f)
    ensures InStep(Step(f, e)) && Sound(Step(f, e))
  {
    match f.state
    case FTP_NEED_LOGIN => LoginIsSound(f, e);
    case FTP_NEED_DCON => DconIsSound(f, e);
    case FTP_NEED_SERVER => ServerIsSound(f, e);
    case FTP_NEED_DATA => DataIsSound(f, e);
    case _ =>
  }

  lemma StepPrepares(f: Ftp, e: Env)
    requires InStep(f) && Sound(f)
    ensures SetupSpent(f, Step(f, e)) && ServerSpent(f, Step(f, e))
  {
    match f.state
    case FTP_NEED_LOGIN => LoginPrepares(f, e);
    case FTP_NEED_DCON => DconPrepares(f, e);
    case FTP_NEED_SERVER => ServerPrepares(f, e);
    case FTP_NEED_DATA => DataPreparesSetup(f, e); DataPreparesServer(f, e);
    case _ =>
  }

  lemma StepTransfers(f: Ftp, e: Env)
    requires InStep(f) && Sound(f)
    ensures TransfersSpent(f, Step(f, e))
  {
    match f.state
    case FTP_NEED_LOGIN => LoginTransfers(f, e);
    case FTP_NEED_DCON => DconTransfers(f, e);
    case FTP_NEED_SERVER => ServerTransfers(f, e);
    case FTP_NEED_DATA => DataTransfers(f, e);
    case _ =>
  }

  lemma StepStays(f: Ftp, e: Env)
    requires !(f.state == FTP_NEED_DATA && f.substate == DATA_SEGMENT)
    ensures SamePlace(f, Step(f, e))
  {
    match f.state
    case FTP_NEED_LOGIN => LoginStays(f, e);
    case FTP_NEED_DCON => DconStays(f, e);
    case FTP_NEED_SERVER => ServerStays(f, e);
    case FTP_NEED_DATA => DataStays(f, e);
    case _ =>
  }

  lemma StepWalks(f: Ftp, e: Env)
    requires Sound(f)
    ensures Sent(f, CWD) + CwdLeft(Step(f, e)) <= CwdLeft(f)
  {
    if f.state == FTP_NEED_DATA && f.substate == DATA_SEGMENT {
      SegmentTaken(f);
    } else {
      StepStays(f, e);
    }
  }

  // ---------------------------------------------------------------------------------------------
  // Runs

  lemma CountSaid(f: Ftp, e: Env, c: Command, t: seq<Event>)
    ensures Count(Said(f, e) + t, c) == Sent(f, c) + Count(t, c)
    ensures Transfers(Said(f, e) + t) == (if Sends(f) && IsTransfer(Current(f).cmd) then 1 else 0) + Transfers(t)
  {
    if Said(f, e) == [] {
      assert Said(f, e) + t == t;
    } else {
      assert (Said(f, e) + t)[1..] == t;
    }
  }

  predicate WithinSetup(f: Ftp, es: seq<Env>) {
    && Count(Trace(f, es), TYPE) <= TypeLeft(f)
    && Count(Trace(f, es), PASV) <= PasvLeft(f)
    && Count(Trace(f, es), PORT) <= PortLeft(f)
    && Turns(f, es, FTP_NEED_DATA, FTP_NEED_DCON) <= SwapLeft(f)
  }

  predicate WithinServer(f: Ftp, es: seq<Env>) {
    && Count(Trace(f, es), SYST) <= SystLeft(f)
    && Count(Trace(f, es), PWD) <= PwdLeft(f)
    && Turns(f, es, FTP_NEED_DATA, FTP_NEED_SERVER) <= FallbackLeft(f)
  }

  predicate WithinData(f: Ftp, es: seq<Env>) {
    && Count(Trace(f, es), CWD) <= CwdLeft(f)
    && Transfers(Trace(f, es)) <= TransfersLeft(f)
  }

  lemma {:induction false} RunSpends(f: Ftp, es: seq<Env>)
    requires InStep(f) && Sound(f)
    ensures WithinSetup(f, es) && WithinServer(f, es) && WithinData(f, es)
    decreases |es|
  {
    if es == [] {
    } else {
      var e := es[0];
      var g := Step(f, e);
      var t := Trace(g, es[1..]);
      StepIsSound(f, e);
      RunSpends(g, es[1..]);
      StepPrepares(f, e);
      StepTransfers(f, e);
      StepWalks(f, e);
      forall c
        ensures Count(Said(f, e) + t, c) == Sent(f, c) + Count(t, c)
      {
        CountSaid(f, e, c, t);
      }
      CountSaid(f, e, CWD, t);
    }
  }

  lemma BoundedRetries(uid: string, passwd: string, server: Server, kind: char, r: Request, es: seq<Env>)
    ensures var f := Start(uid, passwd, server, kind, r); var t := Trace(f, es);
      && Turns(f, es, FTP_NEED_DATA, FTP_NEED_DCON) <= 1
      && Turns(f, es, FTP_NEED_DATA, FTP_NEED_SERVER) <= (if IsDir(f) then 0 else 1)
      && Count(t, TYPE) <= 1 && Count(t, PASV) <= 1 && Count(t, PORT) <= 1
      && Count(t, SYST) <= 1 && Count(t, PWD) <= 1
      && Transfers(t) <= (if IsDir(f) then 2 else 3)
      && Count(t, CWD) <= 1 + (if r.file == "" then 0 else Slashes(r.file[1..]))
  {
    RunSpends(Start(uid, passwd, server, kind, r), es);
  }
}
