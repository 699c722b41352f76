/** The content of an upload, from what the client sent: every turn that finds something to read adds the
    first 8192 bytes of it, in order. */
module Upload {
  import opened Text
  import opened Protocol
  import opened Session
  import opened SessionSafety
  import UploadPath

  /** What one turn reads. */
  function Piece(e: Env): string {
    if |e.input| <= 8192 then e.input else e.input[..8192]
  }

  /** What the turns read, one after the other. */
  function Sent(es: seq<Env>): string {
    if es == [] then "" else Sent(es[..|es| - 1]) + Piece(es[|es| - 1])
  }

  lemma SentNext(es: seq<Env>, e: Env)
    ensures Sent(es + [e]) == Sent(es) + Piece(e)
  {
    assert (es + [e])[..|es|] == es;
  }

  lemma SentOnce(e: Env)
    ensures Sent([e]) == Piece(e)
  {
    assert [e][..0] == [];
  }

  lemma SentNothing(a: string)
    ensures a + Sent([]) == a
  {
  }

  /** The pieces stand in the order of the turns. */
  lemma {:induction false} SentInOrder(a: seq<Env>, b: seq<Env>)
    ensures Sent(a + b) == Sent(a) + Sent(b)
  {
    hide Sent, Piece;
    if b == [] {
      assert a + b == a;
      SentNothing(Sent(a));
    } else {
      var front, last := b[..|b| - 1], b[|b| - 1];
      assert b == front + [last] && a + b == (a + front) + [last];
      SentInOrder(a, front);
      SentNext(a + front, last);
      SentNext(front, last);
      Regroup(Sent(a), Sent(front), Piece(last));
    }
  }

  predicate Sends(e: Env) {
    !e.readFails && e.input != ""
  }

  predicate IsReceiving(s: State, file: seq<string>, written: string) {
    s.active && s.transfer == Receiving && s.upload == Writing(file, written)
  }

  lemma ReceiveStep(s: State, e: Env, file: seq<string>, written: string)
    requires IsReceiving(s, file, written) && Sends(e)
    ensures IsReceiving(Turn(s, e), file, written + Piece(e))
    ensures Turn(s, e).log == s.log + [Received(Piece(e))]
  {
    assert e.input[..|e.input|] == e.input;
  }

  lemma Longer(w: string, es: seq<Env>, e: Env)
    ensures w + Sent(es + [e]) == w + Sent(es) + Piece(e)
  {
    SentNext(es, e);
    hide Sent, Piece;
    Regroup(w, Sent(es), Piece(e));
  }

  ghost predicate LogsPieces(log: seq<Output>, before: seq<Output>, es: seq<Env>) {
    && |log| == |before| + |es| && log[..|before|] == before
    && forall i :: 0 <= i < |es| ==> log[|before| + i] == Received(Piece(es[i]))
  }

  lemma LogsMore(log: seq<Output>, before: seq<Output>, es: seq<Env>, e: Env)
    requires LogsPieces(log, before, es)
    ensures LogsPieces(log + [Received(Piece(e))], before, es + [e])
  {
    hide Piece;
    var more := log + [Received(Piece(e))];
    assert more[..|before|] == log[..|before|];
    forall i | 0 <= i < |es + [e]| ensures more[|before| + i] == Received(Piece((es + [e])[i])) {
      assert i < |es| ==> more[|before| + i] == log[|before| + i];
    }
  }

  lemma NothingLogged(log: seq<Output>)
    ensures LogsPieces(log, log, [])
  {
  }

  lemma ReceivesMore(s: State, log: seq<Output>, es: seq<Env>, e: Env, file: seq<string>, written: string)
    requires IsReceiving(s, file, written + Sent(es)) && LogsPieces(s.log, log, es) && Sends(e)
    ensures IsReceiving(Turn(s, e), file, written + Sent(es + [e])) && LogsPieces(Turn(s, e).log, log, es + [e])
  {
    hide IsReceiving, Sends, Turn, Piece, LogsPieces, Sent;
    ReceiveStep(s, e, file, written + Sent(es));
    Longer(written, es, e);
    LogsMore(s.log, log, es, e);
  }

  /** Turns that find something to read add just that to the file, and the log says so. */
  lemma {:induction false} ReceivesAll(s: State, es: seq<Env>, file: seq<string>, written: string)
    requires IsReceiving(s, file, written) && forall e :: e in es ==> Sends(e)
    ensures IsReceiving(Run(s, es), file, written + Sent(es)) && LogsPieces(Run(s, es).log, s.log, es)
  {
    hide IsReceiving, Sends, Turn, Piece, LogsPieces, Sent;
    if es == [] {
      NothingLogged(s.log);
      SentNothing(written);
    } else {
      var before, e := es[..|es| - 1], es[|es| - 1];
      assert es == before + [e];
      ReceivesAll(s, before, file, written);
      ReceivesMore(Run(s, before), s.log, before, e, file, written);
    }
  }

  lemma ReceivingTurn(s: State, e: Env)
    requires s.active && s.transfer == Receiving
    ensures Turn(s, e).transfer == Receiving ==> Sends(e)
  {
  }

  lemma SendingTurn(s: State, e: Env)
    requires s.active && s.transfer == Sending
    ensures Turn(s, e).transfer != Receiving
  {
  }

  lemma SendingContinues(s: State, e: Env)
    requires s.transfer == Sending
    ensures Continue(s, e).0.transfer != Receiving
  {
  }

  predicate NewlyOpen(s: State) {
    s.transfer == Receiving ==> s.upload.Writing? && s.upload.written == ""
  }

  lemma SayKeepsUpload(s: State, text: string, accepted: bool)
    ensures Say(s, text, accepted).0.transfer == s.transfer && Say(s, text, accepted).0.upload == s.upload
  {
  }

  lemma StartsOpen(s: State, moduleName: string, path: string, e: Env)
    requires s.transfer == Idle
    ensures var (t, started) := StartUpload(s, moduleName, path, e);
            if started == Yes then t.upload.Writing? && t.upload.written == "" else t.transfer == Idle
    ensures var (t, started) := StartDownload(s, moduleName, path, e);
            t.transfer == if started == Yes then Sending else Idle
  {
    hide UploadPath.TempFile;
  }

  lemma DispatchBegins(s: State, m: Message, reply: string, e: Env)
    requires s.transfer == Idle
    ensures NewlyOpen(Dispatch(s, m, reply, e).0)
  {
    hide Contains, Continue, StartUpload, StartDownload, Say;
    StartsOpen(s, m.moduleName, m.path, e);
    var up, down := StartUpload(s, m.moduleName, m.path, e).0, StartDownload(s, m.moduleName, m.path, e).0;
    if down.transfer == Sending {
      SendingContinues(down, e);
    }
    SayKeepsUpload(s, reply, e.says);
    SayKeepsUpload(down, reply, e.says);
    SayKeepsUpload(up, reply, e.says);
    SayKeepsUpload(Say(up, reply, e.says).0, reply, e.saysAgain);
  }

  lemma IdleTurn(s: State, e: Env)
    requires s.active && s.transfer == Idle
    ensures NewlyOpen(Turn(s, e))
  {
    hide Contains, MessageOf, FormatError, HandleReply, Dispatch;
    var m := MessageOf(e.input[..Min(REQUEST_MAX, |e.input|)]);
    DispatchBegins(HandleState(s, m, e), m, HandleReply(s, m, e), e);
  }

  /** One turn of a session: where an active upload comes from. */
  lemma UploadTurn(s: State, e: Env)
    requires Turn(s, e).active && Turn(s, e).transfer == Receiving
    ensures s.active
    ensures s.transfer == Receiving ==> Sends(e)
    ensures s.transfer != Receiving ==> Turn(s, e).upload.Writing? && Turn(s, e).upload.written == ""
  {
    hide Process, Sends;
    if s.active {
      match s.transfer
      case Idle => IdleTurn(s, e);
      case Receiving => ReceivingTurn(s, e);
      case Sending => SendingTurn(s, e);
    }
  }

  lemma SentMore(es: seq<Env>, k: nat)
    requires k < |es|
    ensures Sent(es[k..]) == Sent(es[k..|es| - 1]) + Piece(es[|es| - 1])
  {
    assert es[k..] == es[k..|es| - 1] + [es[|es| - 1]];
    hide Sent, Piece;
    SentNext(es[k..|es| - 1], es[|es| - 1]);
  }

  /** The upload that is open began with turn `k`. */
  ghost predicate BeganWith(s: State, es: seq<Env>, k: nat) {
    && 0 < k <= |es| && Run(s, es[..k - 1]).transfer != Receiving && Run(s, es[..k]).transfer == Receiving
    && Run(s, es[..k]).upload.Writing?
  }

  lemma BeganEarlier(s: State, es: seq<Env>, n: nat, k: nat)
    requires n <= |es| && BeganWith(s, es[..n], k)
    ensures BeganWith(s, es, k) && es[..n][..k] == es[..k] && es[..n][k..] == es[k..n]
  {
    assert es[..n][..k] == es[..k] && es[..n][..k - 1] == es[..k - 1];
  }

  lemma BeganNow(s: State, es: seq<Env>)
    requires es != [] && Run(s, es[..|es| - 1]).transfer != Receiving
    requires Run(s, es).transfer == Receiving && Run(s, es).upload.Writing?
    ensures BeganWith(s, es, |es|)
    ensures Run(s, es[..|es|]) == Run(s, es) && es[|es|..] == []
  {
    assert es[..|es|] == es;
  }

  /** At every point of every run at which an upload is being received, its file holds what the client has
      sent since the turn that began it. */
  lemma {:induction false} UploadIsSent(config: Config, modules: Modules, es: seq<Env>) returns (k: nat)
    requires var s := Run(Fresh(config, modules), es); s.active && s.transfer == Receiving
    ensures var s0 := Fresh(config, modules);
            && BeganWith(s0, es, k)
            && Run(s0, es).upload == Writing(Run(s0, es[..k]).upload.file, Sent(es[k..]))
  {
    var s0, n := Fresh(config, modules), |es| - 1;
    var s := Run(s0, es[..n]);
    RunLast(s0, es);
    UploadTurn(s, es[n]);
    if s.transfer == Receiving {
      k := UploadIsSent(config, modules, es[..n]);
      BeganEarlier(s0, es, n, k);
      hide Run, Sent, Sends, Piece, BeganWith, Turn;
      ReceiveStep(s, es[n], s.upload.file, s.upload.written);
      SentMore(es, k);
    } else {
      hide Turn;
      k := |es|;
      BeganNow(s0, es);
    }
  }

  lemma RunLast(s: State, es: seq<Env>)
    ensures es != [] ==> Run(s, es) == Turn(Run(s, es[..|es| - 1]), es[|es| - 1])
  {
    hide Turn;
  }

  /** At the end of the client's data the file is closed and the upload announced; the names of module and
      path are cleared before they would be needed for the final name, so the file keeps its temporary one.
      When reading fails the session ends without a word. */
  lemma UploadEnds(s: State, e: Env, file: seq<string>, written: string)
    requires IsReceiving(s, file, written) && s.open && (e.readFails || e.input == "")
    ensures var ended := s.(upload := NoUpload, download := NoDownload, transfer := Idle, transferModule := "",
                            transferPath := "", remaining := 0, sent := 0);
            Turn(s, e) == if e.readFails then ended.(active := false, open := false)
                          else ended.(log := s.log + [Uploaded])
  {
  }
}
