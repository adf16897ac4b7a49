// The FTP client of HTFTP.c: its four machines as methods that change the fields of ftp_ctrl and ftp_data
// in place.  A call executes one arm of the switch statement; FTPEvent goes round until it has to wait.
module HTFTP {
  import opened FTPMachine
  import opened FTPSession
  import opened FTPRetries
  import opened FTPWalk
  import opened FTPEnds
  import opened FTPServes
  import opened FTPOutcome
  import opened FTPScript
  import opened FTPData
  import opened FTPManners
  import opened Options

  class FtpClient {
    var state: Phase
    var substate: Substate
    var sent: bool
    var ctrl: Ctrl
    var data: Data
    const r: Request
    // what has passed over the control connection
    var log: seq<Event>

    ghost function View(): Ftp
      reads this
    {
      Ftp(state, substate, sent, ctrl, data, r)
    }

    // One step, and what it says.
    twostate predicate Did(e: Env)
      reads this
    {
      View() == Step(old(View()), e) && log == old(log) + Said(old(View()), e)
    }

    ghost predicate At(state: Phase, substate: Substate)
      reads this
    {
      this.state == state && this.substate == substate
    }

    constructor (uid: string, passwd: string, server: Server, kind: char, r: Request)
      ensures View() == Start(uid, passwd, server, kind, r) && log == []
    {
      this.r := r;
      state, substate, sent := FTP_NEED_LOGIN, SUB_FIRST, false;
      ctrl := Ctrl(uid, passwd, "", 0, "", server, false);
      data := Data(kind, false, 0, "", 0, false, false);
      log := [];
    }

    method SendCommand(c: Command, arg: string)
      modifies `log
      ensures log == old(log) + [Cmd(c, arg)]
    {
      log := log + [Cmd(c, arg)];
    }

    // HTHost_read on the control connection.  If it blocks, active says what the next event is for.
    method Read(e: Env) returns (status: Status)
      modifies `ctrl, `data, `log
      ensures status == e.status
      ensures ctrl == (if status == HT_LOADED then old(ctrl).(repcode := e.code, reply := e.reply) else old(ctrl))
      ensures data == (if status == HT_WOULD_BLOCK then old(data).(active := e.onData) else old(data))
      ensures log == old(log) +
        (if status == HT_LOADED then [Reply(e.code, e.code == 530 && e.already)]
         else if status != HT_WOULD_BLOCK && sent then [Lost]
         else [])
    {
      status := e.status;
      if status == HT_LOADED {
        ctrl := ctrl.(repcode := e.code, reply := e.reply);
        log := log + [Reply(e.code, e.code == 530 && e.already)];
      } else if status == HT_WOULD_BLOCK {
        data := data.(active := e.onData);
      } else if sent {
        log := log + [Lost];
      }
    }

    // HTFTPLogin

    method NeedGreeting(e: Env)
      requires At(FTP_NEED_LOGIN, LOGIN_GREETING) && !sent
      modifies this
      ensures View() == GreetingStep(old(View()), e) && log == old(log) + Overheard(e)
    {
      var status := Read(e);
      if status == HT_WOULD_BLOCK {
        return;
      } else if status == HT_LOADED && ctrl.repcode / 100 == 2 {
        substate := if ctrl.uid != "" then LOGIN_UID else LOGIN_PROMPT;
      } else {
        substate := SUB_ERROR;
      }
    }

    method NeedRein(e: Env)
      requires At(FTP_NEED_LOGIN, LOGIN_REIN)
      modifies this
      ensures View() == Exchange(old(View()), e, AfterRein(old(View()), e)) && log == old(log) + Dialogue(old(sent), e, REIN, "")
    {
      if !sent {
        SendCommand(REIN, "");
        sent := true;
      } else {
        var status := Read(e);
        if status == HT_WOULD_BLOCK {
          return;
        } else if status == HT_LOADED {
          if ctrl.repcode / 100 == 2 || ctrl.repcode == 502 {
            substate := if ctrl.uid != "" then LOGIN_UID else LOGIN_PROMPT;
          } else {
            substate := SUB_SUCCESS;  // hope the best
          }
        } else {
          substate := SUB_ERROR;
        }
        sent := false;
      }
    }

    method NeedUid(e: Env)
      requires At(FTP_NEED_LOGIN, LOGIN_UID)
      modifies this
      ensures View() == Exchange(old(View()), e, AfterUser(old(View()), e)) && log == old(log) + Dialogue(old(sent), e, USER, old(ctrl.uid))
    {
      if !sent {
        SendCommand(USER, ctrl.uid);
        sent := true;
      } else {
        var status := Read(e);
        if status == HT_WOULD_BLOCK {
          return;
        } else if status == HT_LOADED {
          var code := ctrl.repcode / 100;
          if code == 2 {
            substate := SUB_SUCCESS;
          } else if code == 3 {
            substate := if ctrl.passwd != "" then LOGIN_PASSWD else LOGIN_PROMPT;
          } else if ctrl.repcode == 530 {
            substate := if e.already then SUB_SUCCESS else LOGIN_PROMPT;
          } else {
            substate := SUB_ERROR;
          }
        } else {
          substate := SUB_ERROR;
        }
        sent := false;
      }
    }

    method NeedPasswd(e: Env)
      requires At(FTP_NEED_LOGIN, LOGIN_PASSWD)
      modifies this
      ensures View() == PassStep(old(View()), e) && log == old(log) + Dialogue(old(sent), e, PASS, old(ctrl.passwd))
    {
      if !sent {
        SendCommand(PASS, ctrl.passwd);
        sent := true;
      } else {
        var status := Read(e);
        if status == HT_WOULD_BLOCK {
          return;
        } else if status == HT_LOADED {
          var code := ctrl.repcode / 100;
          if code == 2 {
            substate := SUB_SUCCESS;
          } else if code == 3 && e.account.Some? {
            ctrl := ctrl.(account := e.account.value);
            substate := LOGIN_ACCOUNT;
          } else if ctrl.repcode == 530 {
            substate := LOGIN_PROMPT;
          } else {
            substate := SUB_ERROR;
          }
        } else {
          substate := SUB_ERROR;
        }
        sent := false;
      }
    }

    method NeedAccount(e: Env)
      requires At(FTP_NEED_LOGIN, LOGIN_ACCOUNT)
      modifies this
      ensures View() == Exchange(old(View()), e, Positive(e, SUB_SUCCESS)) && log == old(log) + Dialogue(old(sent), e, ACCT, old(ctrl.account))
    {
      if !sent {
        SendCommand(ACCT, ctrl.account);
        sent := true;
      } else {
        var status := Read(e);
        if status == HT_WOULD_BLOCK {
          return;
        } else if status == HT_LOADED {
          substate := if ctrl.repcode / 100 == 2 then SUB_SUCCESS else SUB_ERROR;
        } else {
          substate := SUB_ERROR;
        }
        sent := false;
      }
    }

    method HTFTPLogin(e: Env)
      requires state == FTP_NEED_LOGIN && InStep(View())
      modifies this
      ensures Did(e)
    {
      match substate
      case SUB_FIRST =>
        substate := if r.reset then LOGIN_REIN else LOGIN_GREETING;
      case LOGIN_GREETING => NeedGreeting(e);
      case LOGIN_REIN => NeedRein(e);
      case LOGIN_UID => NeedUid(e);
      case LOGIN_PASSWD => NeedPasswd(e);
      case LOGIN_ACCOUNT => NeedAccount(e);
      case LOGIN_PROMPT =>
        ctrl := ctrl.(uid := e.uid, passwd := e.passwd);
        substate := if ctrl.uid != "" && ctrl.passwd != "" then LOGIN_UID else SUB_ERROR;
      case SUB_SUCCESS =>
        substate, state := SUB_FIRST, FTP_NEED_DCON;
      case SUB_ERROR =>
        substate, state := SUB_FIRST, FTP_ERROR;
      case _ =>
    }

    // HTFTPDataConnection

    method NeedType(e: Env)
      requires At(FTP_NEED_DCON, SUB_FIRST)
      modifies this
      ensures Did(e)
    {
      if data.kind == '\0' || data.pasv || data.kind == 'N' || data.kind == 'L' {
        substate := DCON_SELECT;
        return;
      }
      if !sent {
        SendCommand(TYPE, [data.kind]);
        sent := true;
      } else {
        var status := Read(e);
        if status == HT_WOULD_BLOCK {
          return;
        } else if status == HT_LOADED {
          substate := if ctrl.repcode / 100 == 2 then DCON_SELECT else SUB_ERROR;
        } else {
          substate := SUB_ERROR;
        }
        sent := false;
      }
    }

    method NeedPasv(e: Env)
      requires At(FTP_NEED_DCON, DCON_PASV)
      modifies this
      ensures View() == PasvStep(old(View()), e) && log == old(log) + Dialogue(old(sent), e, PASV, "")
    {
      if !sent {
        SendCommand(PASV, "");
        sent := true;
      } else {
        var status := Read(e);
        if status == HT_WOULD_BLOCK {
          return;
        } else if status == HT_LOADED {
          if ctrl.repcode == 227 {
            if !e.address {
              substate := SUB_ERROR;
              return;  // and sent stays set
            }
            data := data.(pasv := true);
            substate := SUB_SUCCESS;
          } else {
            substate := if e.listen then DCON_PORT else SUB_ERROR;
          }
        } else {
          substate := SUB_ERROR;
        }
        sent := false;
      }
    }

    method NeedPort(e: Env)
      requires At(FTP_NEED_DCON, DCON_PORT)
      modifies this
      ensures View() == PortStep(old(View()), e) && log == old(log) + Dialogue(old(sent), e, PORT, "")
    {
      if !sent {
        SendCommand(PORT, "");
        sent := true;
      } else {
        var status := Read(e);
        if status == HT_WOULD_BLOCK {
          return;
        } else if status == HT_LOADED {
          data := data.(pasv := false);
          substate := if ctrl.repcode / 100 == 2 then SUB_SUCCESS else SUB_ERROR;
        } else {
          substate := SUB_ERROR;
        }
        sent := false;
      }
    }

    method HTFTPDataConnection(e: Env)
      requires state == FTP_NEED_DCON && InStep(View())
      modifies this
      ensures Did(e)
    {
      match substate
      case SUB_FIRST => NeedType(e);
      case DCON_SELECT =>
        if r.pasvMode && !data.pasv {
          substate := DCON_PASV;
        } else {
          substate := if e.listen then DCON_PORT else SUB_ERROR;
        }
      case DCON_PASV => NeedPasv(e);
      case DCON_PORT => NeedPort(e);
      case SUB_SUCCESS =>
        substate := SUB_FIRST;
        if data.kind == 'N' {
          state := FTP_NEED_SERVER;
        } else {
          data := data.(active := e.onData);
          state := FTP_NEED_DATA;
        }
      case SUB_ERROR =>
        substate, state := SUB_FIRST, FTP_ERROR;
      case _ =>
    }

    // HTFTPServerInfo

    method NeedSyst(e: Env)
      requires At(FTP_NEED_SERVER, SUB_FIRST)
      modifies this
      ensures Did(e)
    {
      if !sent && ctrl.server != UNSURE {
        data := data.(kind := ListKind(ctrl.server));
        data := data.(active := e.onData);
        state := FTP_NEED_DATA;
        return;
      }
      if !sent {
        SendCommand(SYST, "");
        sent := true;
      } else {
        var status := Read(e);
        if status == HT_WOULD_BLOCK {
          return;
        } else if status == HT_LOADED {
          substate := if ctrl.repcode == 215 then SERVER_CHECK_SYST else SERVER_PWD;
        } else {
          substate := SUB_ERROR;
        }
        sent := false;
      }
    }

    method NeedPwd(e: Env)
      requires At(FTP_NEED_SERVER, SERVER_PWD)
      modifies this
      ensures View() == Exchange(old(View()), e, Positive(e, SERVER_CHECK_PWD)) && log == old(log) + Dialogue(old(sent), e, PWD, "")
    {
      if !sent {
        SendCommand(PWD, "");
        sent := true;
      } else {
        var status := Read(e);
        if status == HT_WOULD_BLOCK {
          return;
        } else if status == HT_LOADED {
          substate := if ctrl.repcode / 100 == 2 then SERVER_CHECK_PWD else SUB_ERROR;
        } else {
          substate := SUB_ERROR;
        }
        sent := false;
      }
    }

    method HTFTPServerInfo(e: Env)
      requires state == FTP_NEED_SERVER && InStep(View())
      modifies this
      ensures Did(e)
    {
      match substate
      case SUB_FIRST => NeedSyst(e);
      case SERVER_CHECK_SYST =>
        if ctrl.reply == "" {
          substate := SERVER_PWD;
        } else {
          ctrl := ctrl.(server := SystGuess(ctrl.reply, ctrl.server));
          substate := if Unsure(ctrl.server) then SERVER_PWD else SUB_SUCCESS;
        }
      case SERVER_PWD => NeedPwd(e);
      case SERVER_CHECK_PWD =>
        ctrl := ctrl.(server := PwdGuess(ctrl.reply, ctrl.server));
        substate := SUB_SUCCESS;
      case SUB_SUCCESS =>
        data := data.(kind := ListKind(ctrl.server));
        substate := SUB_FIRST;
        data := data.(active := e.onData);
        state := FTP_NEED_DATA;
      case SUB_ERROR =>
        ctrl := ctrl.(server := GENERIC);
        substate := SUB_FIRST;
        data := data.(active := e.onData);
        state := FTP_NEED_DATA;
      case _ =>
    }

    // HTFTPGetData

    method NeedAction(e: Env)
      requires At(FTP_NEED_DATA, DATA_ACTION)
      modifies this
      ensures View() == ActionStep(old(View()), e) && log == old(log) + Said(old(View()), e)
    {
      if data.offset > |r.file| {
        state := OUT_OF_RANGE;
        return;
      }
      if !sent {
        SendCommand(if r.put then STOR else if data.kind == 'L' then LIST else if data.kind == 'N' then NLST else RETR, r.file[data.offset..]);
        sent := true;
      } else {
        var status := Read(e);
        if status == HT_WOULD_BLOCK {
          return;
        } else if status == HT_LOADED {
          var code := ctrl.repcode;
          if code == 125 || code == 150 || code == 225 {
            substate := if data.pasv then DATA_STREAM else DATA_ACCEPT;
          } else if code / 100 == 5 && !ctrl.cwd {
            substate := DATA_SEGMENT;
          } else {
            if code == 550 {
              data := data.(streamError := true);
            }
            substate := SUB_ERROR;
          }
        } else {
          substate := SUB_ERROR;
        }
        sent := false;
      }
    }

    method NeedSegment(e: Env)
      requires At(FTP_NEED_DATA, DATA_SEGMENT)
      modifies this
      ensures View() == SegmentStep(old(View())) && log == old(log)
    {
      if data.offset == 0 {
        data := data.(segment := if ctrl.server == VMS then "[" + ctrl.uid + "]" else "/");
        data := data.(offset := 1);
        substate := DATA_CWD;
      } else if data.offset > |r.file| {
        state := OUT_OF_RANGE;
      } else {
        var k := Find(r.file[data.offset..], '/');
        if k < |r.file| - data.offset {
          data := data.(segment := r.file[data.offset..][..k]);
          data := data.(offset := data.offset + k + 1);
          substate := DATA_CWD;
        } else {
          substate := DATA_ACTION;
        }
      }
    }

    method NeedCwd(e: Env)
      requires At(FTP_NEED_DATA, DATA_CWD)
      modifies this
      ensures View() == CwdStep(old(View()), e) && log == old(log) + Dialogue(old(sent), e, CWD, old(data.segment))
    {
      if !sent {
        SendCommand(CWD, data.segment);
        ctrl := ctrl.(cwd := true);
        sent := true;
      } else {
        var status := Read(e);
        if status == HT_WOULD_BLOCK {
          return;
        }
        substate := if status == HT_LOADED && ctrl.repcode / 100 == 2 then DATA_SEGMENT else SUB_ERROR;
        sent := false;
      }
    }

    method NeedBody(e: Env)
      requires At(FTP_NEED_DATA, DATA_BODY) && !sent
      modifies this
      ensures View() == BodyStep(old(View()), e) && log == old(log) + (if old(data.active) then [] else Overheard(e))
    {
      if data.active && r.put {
        if e.status == HT_LOADED {
          data := data.(complete := 3);
          substate := SUB_SUCCESS;
        } else if e.status == HT_OK || e.status == HT_WOULD_BLOCK {
          data := data.(active := e.onData);
        } else {
          data := data.(streamError := true);
          substate := SUB_ERROR;
        }
      } else if data.active {
        if e.status == HT_WOULD_BLOCK {
          data := data.(active := e.onData);
        } else if e.status == HT_ERROR {
          data := data.(streamError := true);
          substate := SUB_ERROR;
        } else {
          data := data.(complete := WithBit(data.complete, 1));
          if data.complete >= 3 {
            substate := SUB_SUCCESS;
          } else {
            data := data.(active := false);
          }
        }
      } else {
        ControlDone(e);
      }
    }

    // The reply that ends the transfer.
    method ControlDone(e: Env)
      requires At(FTP_NEED_DATA, DATA_BODY) && !sent && !data.active
      modifies this
      ensures View() == DoneStep(old(View()), e) && log == old(log) + Overheard(e)
    {
      var status := Read(e);
      if status == HT_WOULD_BLOCK {
        return;
      } else if (status == HT_LOADED || status == HT_CLOSED) && ctrl.repcode / 100 == 2 {
        data := data.(complete := WithBit(data.complete, 2));
        if data.complete >= 3 {
          substate := SUB_SUCCESS;
        } else {
          data := data.(active := true);
        }
      } else {
        substate := SUB_ERROR;
      }
    }

    method HTFTPGetData(e: Env)
      requires state == FTP_NEED_DATA && InStep(View())
      modifies this
      ensures Did(e)
    {
      match substate
      case SUB_FIRST =>
        substate := if data.pasv then DATA_CONNECT else DATA_ACTION;
      case DATA_CONNECT =>
        if e.status == HT_WOULD_BLOCK {
          data := data.(active := e.onData);
        } else if e.status == HT_OK {
          substate := DATA_ACTION;
        } else {
          substate, state := SUB_FIRST, FTP_NEED_DCON;  // swap to PORT on the fly
        }
      case DATA_ACCEPT =>
        if e.status == HT_WOULD_BLOCK {
          data := data.(active := e.onData);
        } else {
          substate := if e.status == HT_OK then DATA_STREAM else SUB_ERROR;
        }
      case DATA_ACTION => NeedAction(e);
      case DATA_SEGMENT => NeedSegment(e);
      case DATA_CWD => NeedCwd(e);
      case DATA_STREAM =>
        data := data.(active := true);
        substate := DATA_BODY;
      case DATA_BODY => NeedBody(e);
      case SUB_SUCCESS =>
        substate, state := SUB_FIRST, FTP_SUCCESS;
      case SUB_ERROR =>
        substate := SUB_FIRST;
        if r.put || data.kind == 'L' || data.kind == 'N' || data.streamError {
          state := FTP_ERROR;
        } else {
          data := data.(kind := ListKind(ctrl.server));
          state := FTP_NEED_SERVER;  // try a directory instead?
        }
      case _ =>
    }

    // FTPEvent, once round its loop.
    method Once(e: Env)
      requires InStep(View())
      modifies this
      ensures Did(e) && InStep(View())
    {
      StaysInStep(View(), e);
      match state
      case FTP_NEED_LOGIN => HTFTPLogin(e);
      case FTP_NEED_DCON => HTFTPDataConnection(e);
      case FTP_NEED_SERVER => HTFTPServerInfo(e);
      case FTP_NEED_DATA => HTFTPGetData(e);
      case _ =>
    }

    // FTPEvent, over all the calls that the request takes.
    method FTPEvent(es: seq<Env>)
      requires InStep(View())
      modifies this
      ensures View() == Run(old(View()), es) && InStep(View())
      ensures log == old(log) + Trace(old(View()), es)
    {
      var i := 0;
      assert es[..0] == [];
      while i < |es|
        invariant 0 <= i <= |es| && InStep(View())
        invariant View() == Run(old(View()), es[..i]) && log == old(log) + Trace(old(View()), es[..i])
      {
        Once(es[i]);
        assert es[..i + 1] == es[..i] + [es[i]];
        RunSnoc(old(View()), es[..i], es[i]);
        i := i + 1;
      }
      assert es[..i] == es;
    }
  }

  // What the conversations of all requests have in common: the order of the commands, how many of each
  // there are, and that the walk along the path to the file rejoins to it.
  ghost predicate WellSpoken(kind: char, r: Request, log: seq<Event>) {
    && AllInOrder(log)
    && (LoginFirst(log) <==> !HopesForTheBest(log))
    && (!r.reset ==> LoginFirst(log))
    && FewOfEach(kind, log)
    && Count(log, CWD) <= 1 + (if r.file == "" then 0 else Slashes(r.file[1..]))
    && Rejoins(r.file, log)
    && (forall i :: 0 <= i < |log| ==> Heeds(Summary(log[..i]), log[i]))
  }

  ghost predicate FewOfEach(kind: char, log: seq<Event>) {
    && Count(log, TYPE) <= 1 && Count(log, PASV) <= 1 && Count(log, PORT) <= 1
    && Count(log, SYST) <= 1 && Count(log, PWD) <= 1
    && Transfers(log) <= (if kind == 'L' || kind == 'N' then 2 else 3)
  }

  ghost predicate Rejoins(file: string, log: seq<Event>) {
    forall i :: 0 <= i < |log| && log[i].Cmd? && IsTransfer(log[i].cmd) ==>
      && Along(file, Cwds(log[..i]), log[i].arg)
      && (Answered(log, i, CWD, 2) ==> '/' !in log[i].arg)
  }

  lemma AllWellSpoken(uid: string, passwd: string, server: Server, kind: char, r: Request, es: seq<Env>)
    ensures WellSpoken(kind, r, Trace(Start(uid, passwd, server, kind, r), es))
  {
    var t := Trace(Start(uid, passwd, server, kind, r), es);
    forall i | 0 <= i < |t| && t[i].Cmd?
      ensures InOrder(t, i)
    {
      CommandOrder(uid, passwd, server, kind, r, es, i);
    }
    LoginComesFirst(uid, passwd, server, kind, r, es);
    if !r.reset {
      NewConnectionsLogIn(uid, passwd, server, kind, r, es);
    }
    BoundedRetries(uid, passwd, server, kind, r, es);
    forall i | 0 <= i < |t| && t[i].Cmd? && IsTransfer(t[i].cmd)
      ensures Along(r.file, Cwds(t[..i]), t[i].arg) && (Answered(t, i, CWD, 2) ==> '/' !in t[i].arg)
    {
      WalkRejoins(uid, passwd, server, kind, r, es, i);
    }
    forall i | 0 <= i < |t|
      ensures Heeds(Summary(t[..i]), t[i])
    {
      if t[i].Cmd? {
        NoPushing(uid, passwd, server, kind, r, es, i);
      }
    }
  }

  // Enough steps for any request of this length.
  ghost function Bound(f: Ftp, es: seq<Env>): nat {
    101 + 3 * (if f.r.file == "" then 0 else Slashes(f.r.file[1..])) + Slacks(f, es)
  }

  // A request from the beginning, over whatever happens: what has passed over its connection is well
  // spoken; the client has read past the end of no name but the empty one; it is still at work only within
  // the bound on its steps; if it has succeeded, so has the transfer; it does not fail without a cause; and
  // a server that obliges gets exactly the commands of the script.
  method HTLoadFTP(uid: string, passwd: string, server: Server, kind: char, r: Request, es: seq<Env>)
    returns (client: FtpClient)
    ensures fresh(client) && client.View() == Run(Start(uid, passwd, server, kind, r), es)
    ensures WellSpoken(kind, r, client.log)
    ensures client.state == OUT_OF_RANGE ==> r.file == ""
    ensures Working(client.View()) ==> |es| < Bound(Start(uid, passwd, server, kind, r), es)
    ensures client.state == FTP_SUCCESS ==>
      && IsSuccess(kind, r, client.ctrl.server, client.log, AllDataRead(Start(uid, passwd, server, kind, r), es))
      && Opened(Start(uid, passwd, server, kind, r), es) == if Agreed(client.log) == Some(PASV) then ByConnect else ByAccept
    ensures AllGoesWell(Start(uid, passwd, server, kind, r), es) && !Working(client.View()) ==> client.state == FTP_SUCCESS
    ensures forall w :: Sensible(w, r) && AlwaysObliges(w, Start(uid, passwd, server, kind, r), es) ==>
      && Commands(client.log) <= Script(w, uid, passwd, server, kind, r)
      && (client.state == FTP_SUCCESS ==> Commands(client.log) == Script(w, uid, passwd, server, kind, r))
  {
    client := new FtpClient(uid, passwd, server, kind, r);
    client.FTPEvent(es);
    assert client.log == Trace(Start(uid, passwd, server, kind, r), es);
    AllWellSpoken(uid, passwd, server, kind, r, es);
    WhatComesOfIt(uid, passwd, server, kind, r, es);
  }

  lemma WhatComesOfIt(uid: string, passwd: string, server: Server, kind: char, r: Request, es: seq<Env>)
    ensures var f := Start(uid, passwd, server, kind, r); var g, t := Run(f, es), Trace(f, es);
      && (g.state == OUT_OF_RANGE ==> r.file == "")
      && (Working(g) ==> |es| < Bound(f, es))
      && (g.state == FTP_SUCCESS ==>
            && IsSuccess(kind, r, g.c.server, t, AllDataRead(f, es))
            && Opened(f, es) == if Agreed(t) == Some(PASV) then ByConnect else ByAccept)
      && (AllGoesWell(f, es) && !Working(g) ==> g.state == FTP_SUCCESS)
      && (forall w :: Sensible(w, r) && AlwaysObliges(w, f, es) ==>
            && Commands(t) <= Script(w, uid, passwd, server, kind, r)
            && (g.state == FTP_SUCCESS ==> Commands(t) == Script(w, uid, passwd, server, kind, r)))
  {
    var f := Start(uid, passwd, server, kind, r);
    RunsOffTheEnd(uid, passwd, server, kind, r);
    if Working(Run(f, es)) {
      RequestEnds(uid, passwd, server, kind, r, es);
    }
    if Run(f, es).state == FTP_SUCCESS {
      SuccessMeans(uid, passwd, server, kind, r, es);
      RightChannel(uid, passwd, server, kind, r, es);
    }
    if AllGoesWell(f, es) {
      GoesWellEndsWell(uid, passwd, server, kind, r, es);
    }
    forall w | Sensible(w, r) && AlwaysObliges(w, f, es)
      ensures Commands(Trace(f, es)) <= Script(w, uid, passwd, server, kind, r)
      ensures Run(f, es).state == FTP_SUCCESS ==> Commands(Trace(f, es)) == Script(w, uid, passwd, server, kind, r)
    {
      FollowsScript(w, uid, passwd, server, kind, r, es);
    }
  }
}
