// What it means that the FTP client has succeeded: which transfer the server took on, that it said so when it
// was done, and that the data were read to their end.  A request that has fallen back from a file to a
// directory keeps what it noted of the file, and for it the last two need not hold.
module FTPOutcome {
  import opened Options
  import opened FTPMachine
  import opened FTPSession
  import opened FTPRetries
  import opened FTPServes

  // The server takes on a transfer.
  predicate TakesOn(a: Event, b: Event) {
    a.Cmd? && IsTransfer(a.cmd) && b.Reply? && Accepts(b.code)
  }

  // The transfer it took on last.
  function Taken(t: seq<Event>): Option<Command> {
    if |t| < 2 then None
    else if TakesOn(t[|t| - 2], t[|t| - 1]) then Some(t[|t| - 2].cmd)
    else Taken(t[..|t| - 1])
  }

  predicate IsDone(b: Event) {
    b.Reply? && Class(b.code) == 2
  }

  // Since then, there has been a 2xx.
  predicate Confirmed(t: seq<Event>) {
    if |t| < 2 then false
    else if TakesOn(t[|t| - 2], t[|t| - 1]) then IsDone(t[|t| - 1])
    else IsDone(t[|t| - 1]) || Confirmed(t[..|t| - 1])
  }

  // The code of the last reply.
  function LastCode(t: seq<Event>): nat {
    if t == [] then 0
    else if t[|t| - 1].Reply? then t[|t| - 1].code
    else LastCode(t[..|t| - 1])
  }

  // Whether the data connection has come to its end since the stream for the data was made.
  function DataRead(f: Ftp, e: Env, before: bool): bool {
    if f.state == FTP_NEED_DATA && f.substate == DATA_STREAM then false
    else if f.state == FTP_NEED_DATA && f.substate == DATA_BODY && f.d.active
            && e.status in {HT_LOADED, HT_CLOSED, HT_OK} then
      before || !f.r.put || e.status == HT_LOADED
    else before
  }

  function AllDataRead(f: Ftp, es: seq<Env>): bool
    decreases |es|
  {
    if es == [] then false
    else DataRead(Run(f, es[..|es| - 1]), es[|es| - 1], AllDataRead(f, es[..|es| - 1]))
  }

  // ---------------------------------------------------------------------------------------------
  // The invariant

  // The transfer has been taken on.
  predicate UnderWay(f: Ftp) {
    || (f.state == FTP_NEED_DATA && f.substate in {DATA_ACCEPT, DATA_STREAM, DATA_BODY, SUB_SUCCESS})
    || f.state == FTP_SUCCESS
  }

  predicate Finished(f: Ftp) {
    (f.state == FTP_NEED_DATA && f.substate == SUB_SUCCESS) || f.state == FTP_SUCCESS
  }

  // What matters of a trace.
  datatype Digest = Digest(last: Option<Event>, code: nat, taken: Option<Command>, confirmed: bool)

  function Digested(t: seq<Event>): Digest {
    Digest(if t == [] then None else Some(t[|t| - 1]), LastCode(t), Taken(t), Confirmed(t))
  }

  function Next(d: Digest, x: Event): Digest {
    var takes := d.last.Some? && TakesOn(d.last.value, x);
    Digest(Some(x), if x.Reply? then x.code else d.code, if takes then Some(d.last.value.cmd) else d.taken,
           if takes then IsDone(x) else d.last.Some? && (IsDone(x) || d.confirmed))
  }

  lemma NextIs(t: seq<Event>, x: Event)
    ensures Digested(t + [x]) == Next(Digested(t), x)
  {
    var u := t + [x];
    assert u[..|u| - 1] == t;
    if t != [] {
      assert u[|u| - 2] == t[|t| - 1];
    }
  }

  // For a request that has not fallen back: what the two flags stand for.
  predicate Noted(f: Ftp, d: Digest, read: bool) {
    && (f.state == FTP_NEED_DATA && f.substate == DATA_BODY ==>
      && (f.d.complete == 1 || f.d.complete >= 3 ==> read)
      && (f.d.complete >= 2 ==> f.r.put || d.confirmed))
    && (Finished(f) ==> read && (f.r.put || d.confirmed))
    && (f.state in {FTP_NEED_LOGIN, FTP_NEED_DCON, FTP_NEED_SERVER} ==> f.d.complete == 0)
    && (f.state == FTP_NEED_DATA && f.substate !in {DATA_BODY, SUB_SUCCESS, SUB_ERROR} ==> f.d.complete == 0)
  }

  // kind is what the request asked for at first.
  predicate FellBack(kind: char, f: Ftp) {
    kind != 'L' && kind != 'N' && IsDir(f)
  }

  predicate Told(kind: char, f: Ftp, d: Digest, read: bool) {
    f.c.repcode == d.code && Means(kind, f, d, read)
  }

  predicate Consistent(f: Ftp, d: Digest) {
    && (UnderWay(f) ==> d.taken == Some(TransferCommand(f)))
    && (UnderWay(f) && Class(d.code) == 2 ==> d.confirmed)
  }

  predicate Means(kind: char, f: Ftp, d: Digest, read: bool) {
    && Consistent(f, d)
    && (if kind == 'L' || kind == 'N' then IsDir(f) else f.d.kind == kind || IsDir(f))
    && (FellBack(kind, f) || Noted(f, d, read))
  }

  // The last event is the command that waits for its reply.
  predicate Asked(f: Ftp, d: Digest) {
    && InStep(f)
    && (f.sent && Current(f) != Nothing ==> d.last == Some(Cmd(Current(f).cmd, Current(f).arg)))
    && (!f.sent ==> !IsCmd(d.last))
    && (UnderWay(f) ==> d.last.Some?)
  }

  function After(f: Ftp, e: Env, d: Digest): Digest {
    if Said(f, e) == [] then d else Next(d, Said(f, e)[0])
  }

  // The code of the last reply is remembered.
  lemma LoginHeard(f: Ftp, e: Env, d: Digest)
    requires f.c.repcode == d.code && f.state == FTP_NEED_LOGIN
    ensures LoginStep(f, e).c.repcode == After(f, e, d).code
  {
  }

  lemma DconHeard(f: Ftp, e: Env, d: Digest)
    requires f.c.repcode == d.code && f.state == FTP_NEED_DCON
    ensures DconStep(f, e).c.repcode == After(f, e, d).code
  {
  }

  lemma ServerHeard(f: Ftp, e: Env, d: Digest)
    requires f.c.repcode == d.code && f.state == FTP_NEED_SERVER
    ensures ServerStep(f, e).c.repcode == After(f, e, d).code
  {
  }

  lemma DataHeard(f: Ftp, e: Env, d: Digest)
    requires f.c.repcode == d.code && f.state == FTP_NEED_DATA
    ensures DataStep(f, e).c.repcode == After(f, e, d).code
  {
  }

  predicate TellsOn(kind: char, f: Ftp, e: Env, g: Ftp, d: Digest, read: bool) {
    Means(kind, g, After(f, e, d), DataRead(f, e, read))
  }

  lemma LoginTold(kind: char, f: Ftp, e: Env, d: Digest, read: bool)
    requires Told(kind, f, d, read) && Asked(f, d) && f.state == FTP_NEED_LOGIN
    ensures TellsOn(kind, f, e, LoginStep(f, e), d, read)
  {
  }

  lemma DconTold(kind: char, f: Ftp, e: Env, d: Digest, read: bool)
    requires Told(kind, f, d, read) && Asked(f, d) && f.state == FTP_NEED_DCON
    ensures TellsOn(kind, f, e, DconStep(f, e), d, read)
  {
    if f.substate == DCON_PASV {
      PasvTold(kind, f, e, d, read);
    }
  }

  lemma PasvTold(kind: char, f: Ftp, e: Env, d: Digest, read: bool)
    requires Told(kind, f, d, read) && Asked(f, d) && f.state == FTP_NEED_DCON && f.substate == DCON_PASV
    ensures TellsOn(kind, f, e, PasvStep(f, e), d, read)
  {
  }

  lemma ServerTold(kind: char, f: Ftp, e: Env, d: Digest, read: bool)
    requires Told(kind, f, d, read) && Asked(f, d) && f.state == FTP_NEED_SERVER
    ensures TellsOn(kind, f, e, ServerStep(f, e), d, read)
  {
  }

  lemma ActionTold(kind: char, f: Ftp, e: Env, d: Digest, read: bool)
    requires Told(kind, f, d, read) && Asked(f, d) && f.state == FTP_NEED_DATA && f.substate == DATA_ACTION
    ensures TellsOn(kind, f, e, ActionStep(f, e), d, read)
  {
  }

  lemma BodyTold(kind: char, f: Ftp, e: Env, d: Digest, read: bool)
    requires Told(kind, f, d, read) && Asked(f, d) && f.state == FTP_NEED_DATA && f.substate == DATA_BODY
    ensures TellsOn(kind, f, e, BodyStep(f, e), d, read)
  {
    if e.status != HT_WOULD_BLOCK && !f.d.active {
      DoneTold(kind, f, e, d, read);
    }
  }

  lemma DoneTold(kind: char, f: Ftp, e: Env, d: Digest, read: bool)
    requires Told(kind, f, d, read) && Asked(f, d) && f.state == FTP_NEED_DATA && f.substate == DATA_BODY
    requires !f.d.active
    ensures TellsOn(kind, f, e, DoneStep(f, e), d, read)
  {
    DoneConsistent(f, e, d);
  }

  lemma DoneConsistent(f: Ftp, e: Env, d: Digest)
    requires Consistent(f, d) && Asked(f, d) && f.state == FTP_NEED_DATA && f.substate == DATA_BODY && !f.d.active
    ensures Consistent(DoneStep(f, e), After(f, e, d))
  {
  }

  // The arms that have nothing to do with the control connection.
  lemma QuietTold(kind: char, f: Ftp, e: Env, d: Digest, read: bool)
    requires Told(kind, f, d, read) && Asked(f, d) && f.state == FTP_NEED_DATA
    requires f.substate !in {DATA_ACTION, DATA_CWD, DATA_SEGMENT, DATA_BODY, SUB_ERROR}
    ensures TellsOn(kind, f, e, DataStep(f, e), d, read)
  {
    assert Said(f, e) == [];
  }

  lemma FailedTold(kind: char, f: Ftp, e: Env, d: Digest, read: bool)
    requires Told(kind, f, d, read) && Asked(f, d) && f.state == FTP_NEED_DATA && f.substate == SUB_ERROR
    ensures TellsOn(kind, f, e, DataStep(f, e), d, read)
  {
  }

  lemma SegmentTold(kind: char, f: Ftp, e: Env, d: Digest, read: bool)
    requires Told(kind, f, d, read) && f.state == FTP_NEED_DATA && f.substate == DATA_SEGMENT
    ensures TellsOn(kind, f, e, SegmentStep(f), d, read)
  {
  }

  lemma CwdTold(kind: char, f: Ftp, e: Env, d: Digest, read: bool)
    requires Told(kind, f, d, read) && Asked(f, d) && f.state == FTP_NEED_DATA && f.substate == DATA_CWD
    ensures TellsOn(kind, f, e, CwdStep(f, e), d, read)
  {
  }

  lemma DataTold(kind: char, f: Ftp, e: Env, d: Digest, read: bool)
    requires Told(kind, f, d, read) && Asked(f, d) && f.state == FTP_NEED_DATA
    ensures TellsOn(kind, f, e, DataStep(f, e), d, read)
  {
    match f.substate
    case DATA_ACTION => ActionTold(kind, f, e, d, read);
    case DATA_BODY => BodyTold(kind, f, e, d, read);
    case DATA_CWD => CwdTold(kind, f, e, d, read);
    case SUB_ERROR => FailedTold(kind, f, e, d, read);
    case DATA_SEGMENT => SegmentTold(kind, f, e, d, read);
    case _ => QuietTold(kind, f, e, d, read);
  }

  lemma StepTold(kind: char, f: Ftp, e: Env, d: Digest, read: bool)
    requires Told(kind, f, d, read) && Asked(f, d)
    ensures Told(kind, Step(f, e), After(f, e, d), DataRead(f, e, read))
  {
    match f.state
    case FTP_NEED_LOGIN => LoginTold(kind, f, e, d, read); LoginHeard(f, e, d);
    case FTP_NEED_DCON => DconTold(kind, f, e, d, read); DconHeard(f, e, d);
    case FTP_NEED_SERVER => ServerTold(kind, f, e, d, read); ServerHeard(f, e, d);
    case FTP_NEED_DATA => DataTold(kind, f, e, d, read); DataHeard(f, e, d);
    case _ =>
  }

  lemma {:induction false} RunTold(kind: char, f: Ftp, es: seq<Env>)
    requires Linked(f, NO_PAST) && Told(kind, f, Digested([]), false)
    ensures Told(kind, Run(f, es), Digested(Trace(f, es)), AllDataRead(f, es))
    decreases |es|
  {
    if es != [] {
      var front, last := es[..|es| - 1], es[|es| - 1];
      RunTold(kind, f, front);
      RunLinked(f, front);
      assert es == front + [last];
      AskedHere(f, front);
      StepTold(kind, Run(f, front), last, Digested(Trace(f, front)), AllDataRead(f, front));
      OneMore(f, front, last);
    }
  }

  lemma AskedHere(f: Ftp, es: seq<Env>)
    requires Linked(Run(f, es), Summary(Trace(f, es)))
    requires UnderWay(Run(f, es)) ==> Taken(Trace(f, es)).Some?
    ensures Asked(Run(f, es), Digested(Trace(f, es)))
  {
  }

  lemma OneMore(f: Ftp, es: seq<Env>, e: Env)
    ensures Run(f, es + [e]) == Step(Run(f, es), e)
    ensures Digested(Trace(f, es + [e])) == After(Run(f, es), e, Digested(Trace(f, es)))
    ensures AllDataRead(f, es + [e]) == DataRead(Run(f, es), e, AllDataRead(f, es))
  {
    var g, t := Run(f, es), Trace(f, es);
    RunSnoc(f, es, e);
    if Said(g, e) == [] {
      assert t + Said(g, e) == t;
    } else {
      assert Said(g, e) == [Said(g, e)[0]];
      NextIs(t, Said(g, e)[0]);
    }
    assert (es + [e])[..|es|] == es;
  }

  // ---------------------------------------------------------------------------------------------
  // The kind of listing

  predicate ListsInFull(server: Server) {
    server in {MACHTEN, UNIX, VMS, PETER_LEWIS, WINNT}
  }

  // Unless the request asked for LIST itself, the kind of a listing is what suits the server; and an upload
  // does not become a listing.
  predicate Suits(kind: char, f: Ftp) {
    && (f.state == FTP_NEED_SERVER ==> IsDir(f))
    && (kind != 'L' && f.d.kind == 'L' && f.state != FTP_NEED_SERVER ==> ListsInFull(f.c.server))
    && (kind != 'L' && f.state == FTP_NEED_SERVER && (f.sent || f.substate != SUB_FIRST) ==> f.d.kind == 'N')
    && (kind != 'L' && f.state == FTP_NEED_SERVER && f.d.kind == 'L' ==> ListsInFull(f.c.server))
    && (kind != 'L' && f.state in {FTP_NEED_DATA, FTP_SUCCESS} && f.d.kind == 'N' ==> !ListsInFull(f.c.server))
    && (f.r.put && kind != 'L' && kind != 'N' ==> f.d.kind == kind && f.state != FTP_NEED_SERVER)
  }

  lemma LoginSuits(kind: char, f: Ftp, e: Env)
    requires Suits(kind, f) && f.state == FTP_NEED_LOGIN
    ensures Suits(kind, LoginStep(f, e))
  {
  }

  lemma DconSuits(kind: char, f: Ftp, e: Env)
    requires Suits(kind, f) && InStep(f) && f.state == FTP_NEED_DCON
    ensures Suits(kind, DconStep(f, e))
  {
  }

  lemma ServerSuits(kind: char, f: Ftp, e: Env)
    requires Suits(kind, f) && f.state == FTP_NEED_SERVER
    ensures Suits(kind, ServerStep(f, e))
  {
  }

  lemma DataSuits(kind: char, f: Ftp, e: Env)
    requires Suits(kind, f) && InStep(f) && f.state == FTP_NEED_DATA
    ensures Suits(kind, DataStep(f, e))
  {
    if f.substate in {DATA_ACTION, DATA_CWD, DATA_SEGMENT, DATA_BODY} {
      DataOnlyMoves(f, e);
    }
  }

  lemma DataOnlyMoves(f: Ftp, e: Env)
    requires f.state == FTP_NEED_DATA && f.substate in {DATA_ACTION, DATA_CWD, DATA_SEGMENT, DATA_BODY}
    ensures var g := DataStep(f, e);
      g.d.kind == f.d.kind && g.c.server == f.c.server && g.r == f.r && g.state in {FTP_NEED_DATA, OUT_OF_RANGE}
  {
  }

  lemma StepSuits(kind: char, f: Ftp, e: Env)
    requires Suits(kind, f) && InStep(f)
    ensures Suits(kind, Step(f, e))
  {
    match f.state
    case FTP_NEED_LOGIN => LoginSuits(kind, f, e);
    case FTP_NEED_DCON => DconSuits(kind, f, e);
    case FTP_NEED_SERVER => ServerSuits(kind, f, e);
    case FTP_NEED_DATA => DataSuits(kind, f, e);
    case _ =>
  }

  lemma {:induction false} RunSuits(kind: char, f: Ftp, es: seq<Env>)
    requires Suits(kind, f) && InStep(f)
    ensures Suits(kind, Run(f, es)) && Run(f, es).r == f.r
    decreases |es|
  {
    if es != [] {
      StepSuits(kind, f, es[0]);
      StaysInStep(f, es[0]);
      SameRequest(f, es[0]);
      RunSuits(kind, Step(f, es[0]), es[1..]);
    }
  }

  lemma SameRequest(f: Ftp, e: Env)
    ensures Step(f, e).r == f.r
  {
    if !(f.state == FTP_NEED_DATA && f.substate == DATA_SEGMENT) {
      StepStays(f, e);
    }
  }

  // ---------------------------------------------------------------------------------------------
  // The result

  predicate Lists(cmd: Command) {
    cmd == LIST || cmd == NLST
  }

  // A request that asked for a file and got a directory instead.
  predicate GotDirectory(kind: char, cmd: Command) {
    Lists(cmd) && kind != 'L' && kind != 'N'
  }

  // What success means, from what has passed over the control connection and whether the data were read.
  predicate IsSuccess(kind: char, r: Request, server: Server, t: seq<Event>, read: bool) {
    && Taken(t).Some?
    && var cmd := Taken(t).value;
    && (cmd == STOR <==> r.put)
    && (!r.put && (kind == 'L' || kind == 'N') ==> Lists(cmd))
    && (kind != 'L' && Lists(cmd) ==> (cmd == LIST <==> ListsInFull(server)))
    && (!GotDirectory(kind, cmd) ==> read && (r.put || Confirmed(t)))
  }

  // Success comes only after a transfer command of the right kind that the server has taken on.  Unless a
  // file was asked for and a directory came instead, the data have been read, or sent, to their end, and the
  // server has said, after it took the transfer on, that it is done.
  lemma SuccessMeans(uid: string, passwd: string, server: Server, kind: char, r: Request, es: seq<Env>)
    requires Run(Start(uid, passwd, server, kind, r), es).state == FTP_SUCCESS
    ensures var f := Start(uid, passwd, server, kind, r);
      IsSuccess(kind, r, Run(f, es).c.server, Trace(f, es), AllDataRead(f, es))
  {
    var f := Start(uid, passwd, server, kind, r);
    RunTold(kind, f, es);
    RunSuits(kind, f, es);
  }

  // ---------------------------------------------------------------------------------------------
  // What a directory may lack

  ghost predicate Journey(f: Ftp, g: Ftp, read: bool) {
    exists es :: Run(f, es) == g && AllDataRead(f, es) == read
  }

  lemma Go(f: Ftp, g: Ftp, read: bool, e: Env) returns (h: Ftp, still: bool)
    requires Journey(f, g, read)
    ensures h == Step(g, e) && still == DataRead(g, e, read) && Journey(f, h, still)
  {
    h, still := Step(g, e), DataRead(g, e, read);
    var es :| Run(f, es) == g && AllDataRead(f, es) == read;
    RunSnoc(f, es, e);
    assert (es + [e])[..|es|] == es;
    assert Run(f, es + [e]) == h && AllDataRead(f, es + [e]) == still;
  }

  const READY := Env(HT_LOADED, 200, false, "", false, true, None, "", "", true)

  // A persistent connection to a server of a known kind, which is asked for a file.
  const FILE := Start("user", "passwd", GENERIC, 'I', Request(true, false, false, "/file"))

  predicate IsReady(g: Ftp, state: Phase, substate: Substate, d: Data) {
    g.state == state && g.substate == substate && !g.sent && g.d == d && g.r == FILE.r && g.c.server == GENERIC
  }

  lemma ToLogin() returns (g: Ftp)
    ensures Journey(FILE, g, false) && IsReady(g, FTP_NEED_DCON, SUB_FIRST, FILE.d)
  {
    var read;
    assert Run(FILE, []) == FILE && AllDataRead(FILE, []) == false;
    g, read := Go(FILE, FILE, false, READY);
    g, read := Go(FILE, g, read, READY);  // REIN
    g, read := Go(FILE, g, read, READY.(code := 500));
    g, read := Go(FILE, g, read, READY);
  }

  lemma ToPort() returns (g: Ftp)
    ensures Journey(FILE, g, false) && IsReady(g, FTP_NEED_DCON, DCON_PORT, FILE.d)
  {
    var read;
    g := ToLogin();
    g, read := Go(FILE, g, false, READY);  // TYPE
    g, read := Go(FILE, g, read, READY);
    g, read := Go(FILE, g, read, READY);
  }

  lemma ToData() returns (g: Ftp)
    ensures Journey(FILE, g, false) && IsReady(g, FTP_NEED_DATA, SUB_FIRST, FILE.d.(active := true))
  {
    var read;
    g := ToPort();
    g, read := Go(FILE, g, false, READY);
    g, read := Go(FILE, g, read, READY);
    g, read := Go(FILE, g, read, READY);
  }

  lemma ToAccept(g0: Ftp, read0: bool, d: Data) returns (g: Ftp)
    requires Journey(FILE, g0, read0) && IsReady(g0, FTP_NEED_DATA, SUB_FIRST, d)
    requires d.offset == 0 && !d.pasv
    ensures Journey(FILE, g, read0) && IsReady(g, FTP_NEED_DATA, DATA_ACCEPT, d) && g.c.repcode == 150
  {
    var read;
    g, read := Go(FILE, g0, read0, READY);
    g, read := Go(FILE, g, read, READY);
    g, read := Go(FILE, g, read, READY.(code := 150));
  }

  // From the choice of the data connection to the transfer.
  lemma ToBody(g0: Ftp, read0: bool, d: Data) returns (g: Ftp)
    requires Journey(FILE, g0, read0) && IsReady(g0, FTP_NEED_DATA, SUB_FIRST, d)
    requires d.offset == 0 && !d.pasv
    ensures Journey(FILE, g, false) && IsReady(g, FTP_NEED_DATA, DATA_BODY, d.(active := true)) && g.c.repcode == 150
  {
    var read;
    g := ToAccept(g0, read0, d);
    g, read := Go(FILE, g, read0, READY.(status := HT_OK));
    assert IsReady(g, FTP_NEED_DATA, DATA_STREAM, d) && g.c.repcode == 150;
    g, read := Go(FILE, g, read, READY);
  }

  // The data are not ready, and the next event is on the control connection: a reply.
  lemma Reads(g0: Ftp, read0: bool, d: Data, code: nat) returns (g: Ftp)
    requires Journey(FILE, g0, read0) && IsReady(g0, FTP_NEED_DATA, DATA_BODY, d) && d.active
    ensures Journey(FILE, g, read0)
    ensures g == DoneStep(g0.(d := d.(active := false)), READY.(code := code))
  {
    var read;
    g, read := Go(FILE, g0, read0, READY.(status := HT_WOULD_BLOCK, onData := false));
    assert g == g0.(d := d.(active := false));
    g, read := Go(FILE, g, read, READY.(code := code));
  }

  // Back to the same place for the directory, after the transfer of the file has failed.
  lemma ToDirectory(g0: Ftp, read0: bool, d: Data) returns (g: Ftp)
    requires Journey(FILE, g0, read0) && IsReady(g0, FTP_NEED_DATA, SUB_ERROR, d) && d.kind == 'I' && !d.streamError
    ensures Journey(FILE, g, read0) && IsReady(g, FTP_NEED_DATA, SUB_FIRST, d.(kind := 'N', active := true))
  {
    var read;
    g, read := Go(FILE, g0, read0, READY);
    g, read := Go(FILE, g, read, READY);
  }

  // The data come to their end.
  lemma DataEnd(g0: Ftp, read0: bool, d: Data) returns (g: Ftp)
    requires Journey(FILE, g0, read0) && IsReady(g0, FTP_NEED_DATA, DATA_BODY, d) && d.active
    ensures Journey(FILE, g, true)
    ensures var complete := WithBit(d.complete, 1);
      g == if complete >= 3 then g0.(substate := SUB_SUCCESS, d := d.(complete := complete))
           else g0.(d := d.(complete := complete, active := false))
  {
    var read;
    g, read := Go(FILE, g0, read0, READY.(status := HT_OK));
  }

  lemma Fails(g0: Ftp, read0: bool, d: Data) returns (g: Ftp)
    requires Journey(FILE, g0, read0) && IsReady(g0, FTP_NEED_DATA, DATA_BODY, d) && !d.active
    ensures Journey(FILE, g, read0) && IsReady(g, FTP_NEED_DATA, SUB_ERROR, d)
  {
    var read;
    g, read := Go(FILE, g0, read0, READY.(code := 426));
  }

  // The file is read, but the server says that it has failed.
  lemma FileRead() returns (g: Ftp, read: bool)
    ensures Journey(FILE, g, read) && IsReady(g, FTP_NEED_DATA, SUB_ERROR, FILE.d.(complete := 1))
  {
    g := ToData();
    g := ToBody(g, false, g.d);
    g := DataEnd(g, false, g.d);
    g := Fails(g, true, g.d);
    read := true;
  }

  // The listing counts as read because the file had been: its data connection is not looked at before the
  // server says that it is done.
  lemma ListingUnread()
    ensures exists es ::
      Run(FILE, es).state == FTP_SUCCESS && Taken(Trace(FILE, es)) == Some(NLST) && !AllDataRead(FILE, es)
  {
    var g, read := FileRead();
    g := ToDirectory(g, read, g.d);
    g := ToBody(g, read, g.d);
    g := Reads(g, false, g.d, 226);
    g, read := Go(FILE, g, false, READY);
    var es :| Run(FILE, es) == g && AllDataRead(FILE, es) == read;
    RunTold('I', FILE, es);
  }

  // The server says that the file is done, and then that it is not.
  lemma FileConfirmed() returns (g: Ftp, read: bool)
    ensures Journey(FILE, g, read) && IsReady(g, FTP_NEED_DATA, SUB_ERROR, FILE.d.(complete := 2))
  {
    g := ToData();
    g := ToBody(g, false, g.d);
    g := Reads(g, false, g.d, 226);
    g := Reads(g, false, g.d, 421);
    read := false;
  }

  lemma ListedInSilence() returns (g: Ftp)
    ensures Journey(FILE, g, true) && g.state == FTP_NEED_DATA && g.substate == SUB_SUCCESS && !g.sent
    ensures g.c.repcode == 150 && g.d.kind == 'N' && g.r == FILE.r
  {
    var read;
    g, read := FileConfirmed();
    g := ToDirectory(g, read, g.d);
    g := ToBody(g, read, g.d);
    g := DataEnd(g, false, g.d);
  }

  // And the listing counts as done because the file had been: nothing has been heard since it began.
  lemma ListingUnconfirmed()
    ensures exists es ::
      Run(FILE, es).state == FTP_SUCCESS && Taken(Trace(FILE, es)) == Some(NLST) && LastCode(Trace(FILE, es)) == 150
  {
    var g := ListedInSilence();
    var read;
    g, read := Go(FILE, g, true, READY);
    var es :| Run(FILE, es) == g && AllDataRead(FILE, es) == read;
    RunTold('I', FILE, es);
  }
}
