/** The outcome of one download, for every sequence of write results. */
module Download {
  import opened Session

  /** Turns given to the session while it is sending. */
  function Drive(s: State, es: seq<Env>): State
    decreases |es|
  {
    if es == [] || s.transfer != Sending then s else Drive(Continue(s, es[0]).0, es[1..])
  }

  function Chunks(size: nat): nat {
    (size + CHUNK - 1) / CHUNK
  }

  function Completions(log: seq<Output>): nat {
    if log == [] then 0 else Completions(log[..|log|-1]) + if log[|log|-1] == Completed then 1 else 0
  }

  lemma CompletionsAppend(log: seq<Output>, o: Output)
    ensures Completions(log + [o]) == Completions(log) + if o == Completed then 1 else 0
  {
    assert (log + [o])[..|log|] == log;
  }

  /** Every write that the rest of the file needs is accepted in full. */
  ghost predicate FullWrites(es: seq<Env>, unread: nat) {
    Chunks(unread) <= |es|
    && forall i :: 0 <= i < Chunks(unread) ==> es[i].accepted >= Min(CHUNK, unread - CHUNK * i)
  }

  predicate IsSending(s: State) {
    s.active && s.open && s.transfer == Sending && s.download.Reading?
    && s.sent + s.remaining == |s.download.file| && s.sent <= s.download.position <= |s.download.file|
  }

  /** One turn either ends the download or reads one more chunk; it completes the download
      exactly when that chunk was the last, was accepted in full, and no earlier byte was lost. */
  lemma SendStep(s: State, e: Env)
    requires IsSending(s)
    ensures var t := Continue(s, e).0;
            var unread := Unread(s.download);
            var lost := s.download.position - s.sent;
            var full := unread > 0 && e.accepted >= Min(CHUNK, unread);
            && (Completions(t.log) == Completions(s.log) + if full && lost == 0 && unread <= CHUNK then 1 else 0)
            && (t.transfer == Idle || IsSending(t))
            && (t.transfer == Sending ==> unread > 0 && Unread(t.download) == unread - Min(CHUNK, unread))
            && (t.transfer == Sending ==>
                  t.download.position - t.sent == lost + Min(CHUNK, unread) - Min(e.accepted, Min(CHUNK, unread)))
            && (full && (lost > 0 || unread > CHUNK) ==> t.transfer == Sending)
  {
    hide Completions;
    var count := Min(Min(CHUNK, s.remaining), Unread(s.download));
    if count != 0 && e.accepted >= 0 {
      var o := Data(Slice(s.download, Min(e.accepted, count)));
      CompletionsAppend(s.log, o);
      CompletionsAppend(s.log + [o], Completed);
    }
  }

  lemma ChunksStep(unread: nat)
    requires unread > 0
    ensures Chunks(unread) == 1 + Chunks(unread - Min(CHUNK, unread))
    ensures unread <= CHUNK ==> Chunks(unread) == 1
  {
  }

  lemma FullWritesStep(es: seq<Env>, unread: nat)
    requires es != [] && unread > CHUNK
    ensures FullWrites(es, unread) <==> es[0].accepted >= CHUNK && FullWrites(es[1..], unread - CHUNK)
  {
    ChunksStep(unread);
    var rest := unread - CHUNK;
    assert forall i :: 0 <= i < Chunks(rest) && i + 1 < |es| ==> es[1..][i] == es[i + 1];
    if es[0].accepted >= CHUNK && FullWrites(es[1..], rest) {
      forall i | 0 <= i < Chunks(unread) ensures es[i].accepted >= Min(CHUNK, unread - CHUNK * i) {
        assert i > 0 ==> es[1..][i - 1] == es[i];
      }
    }
    if FullWrites(es, unread) {
      assert es[0].accepted >= Min(CHUNK, unread - CHUNK * 0);
      forall i | 0 <= i < Chunks(rest) ensures es[1..][i].accepted >= Min(CHUNK, rest - CHUNK * i) {
        assert es[i + 1].accepted >= Min(CHUNK, unread - CHUNK * (i + 1));
      }
    }
  }

  lemma FullWritesLast(es: seq<Env>, unread: nat)
    requires |es| >= Chunks(unread) && 0 < unread <= CHUNK
    ensures FullWrites(es, unread) <==> es[0].accepted >= unread
  {
    if FullWrites(es, unread) {
      assert es[0].accepted >= Min(CHUNK, unread - CHUNK * 0);
    }
  }

  lemma {:induction false} DriveOutcome(s: State, es: seq<Env>)
    requires IsSending(s) && |es| > Chunks(Unread(s.download))
    ensures var t := Drive(s, es);
            var unread := Unread(s.download);
            && t.transfer == Idle
            && Completions(t.log) == Completions(s.log)
                 + if s.download.position == s.sent && unread > 0 && FullWrites(es, unread) then 1 else 0
    decreases |es|
  {
    hide FullWrites, Continue, Chunks, Completions;
    var unread := Unread(s.download);
    var t := Continue(s, es[0]).0;
    SendStep(s, es[0]);
    if unread > 0 {
      ChunksStep(unread);
      if unread > CHUNK {
        FullWritesStep(es, unread);
      } else {
        FullWritesLast(es, unread);
      }
    }
    if t.transfer == Sending {
      DriveOutcome(t, es[1..]);
    }
  }

  /** Every download ends within one turn more than the chunks of its file, and it announces
      completion exactly when the file is not empty and every write took all that it was
      offered. A single short write loses bytes for good; an empty file never completes. */
  lemma DownloadCompletesIff(s: State, moduleName: string, path: string, opening: Env, es: seq<Env>)
    requires s.active && s.open
    requires StartDownload(s, moduleName, path, opening).1 == Yes
    requires |es| > Chunks(|opening.content|)
    ensures var t := Drive(StartDownload(s, moduleName, path, opening).0, es);
            && t.transfer == Idle
            && (Completions(t.log) == Completions(s.log) + 1 <==>
                opening.content != "" && FullWrites(es, |opening.content|))
            && Completions(t.log) <= Completions(s.log) + 1
  {
    hide Completions, Drive, FullWrites, Chunks;
    var s1 := StartDownload(s, moduleName, path, opening).0;
    CompletionsAppend(s.log, DownloadBegan(opening.content));
    DriveOutcome(s1, es);
  }

  lemma FirstFull(es: seq<Env>, unread: nat)
    requires unread > 0 && FullWrites(es, unread)
    ensures |es| >= Chunks(unread) >= 1 && es[0].accepted >= Min(CHUNK, unread)
  {
    assert es[0].accepted >= Min(CHUNK, unread - CHUNK * 0);
  }

  lemma {:induction false} FullWritesAdvance(s: State, es: seq<Env>, k: nat)
    requires IsSending(s) && s.download.position == s.sent
    requires Unread(s.download) > 0 && FullWrites(es, Unread(s.download)) && k <= Chunks(Unread(s.download))
    ensures Drive(s, es[..k]).transfer == if k < Chunks(Unread(s.download)) then Sending else Idle
    decreases |es|
  {
    hide FullWrites, Chunks, Completions;
    FirstFull(es, Unread(s.download));
    var unread := Unread(s.download);
    if k > 0 {
      SendStep(s, es[0]);
      ChunksStep(unread);
      var t := Continue(s, es[0]).0;
      assert es[..k][1..] == es[1..][..k - 1];
      if unread > CHUNK {
        FullWritesStep(es, unread);
        FullWritesAdvance(t, es[1..], k - 1);
      } else {
        FullWritesLast(es, unread);
      }
    }
  }

  /** With full writes a file that is not empty takes exactly as many turns as it has chunks. */
  lemma FullWritesTakeChunks(s: State, moduleName: string, path: string, opening: Env, es: seq<Env>, k: nat)
    requires s.active && s.open && opening.content != ""
    requires StartDownload(s, moduleName, path, opening).1 == Yes
    requires FullWrites(es, |opening.content|) && k <= Chunks(|opening.content|)
    ensures Drive(StartDownload(s, moduleName, path, opening).0, es[..k]).transfer == Idle
            <==> k == Chunks(|opening.content|)
  {
    FullWritesAdvance(StartDownload(s, moduleName, path, opening).0, es, k);
  }

  /** One turn of a download: of the next 8192 bytes, or what is left, the socket takes the first `accepted`;
      the rest of them is passed over. A negative result, or nothing left to read, ends the session. */
  lemma SendTurn(s: State, e: Env)
    requires IsSending(s)
    ensures var file, at := s.download.file, s.download.position;
            var count := Min(Min(8192, s.remaining), |file| - at);
            var ended := s.(upload := NoUpload, download := NoDownload, transfer := Idle, transferModule := "",
                            transferPath := "", remaining := 0, sent := 0);
            if count == 0 || e.accepted < 0 then Turn(s, e) == ended.(active := false, open := false)
            else
              var n := Min(e.accepted, count);
              var log := s.log + [Data(file[at..at + n])];
              Turn(s, e) == if n == s.remaining then ended.(log := log + [Completed])
                            else s.(download := Reading(file, at + count), sent := s.sent + n,
                                    remaining := s.remaining - n, log := log)
  {
    assert s.download.position <= |s.download.file|;
    assert s.download.file[s.download.position..s.download.position] == "";
  }
}
