/** Whether an operator whose login was granted reads the answer first, or an alert. */
module FirstAnswer {
  import opened Handlers
  import opened LockOrder
  import opened OperatorTable
  import opened SafeRuns
  import opened Streams
  import opened ClientLines
  import opened Broadcasts
  import opened Requests
  import AlertListing
  import ConcreteRuns
  import Decimals
  import Forwarding
  import A = AlertEngine

  // ---------- what was sent stays ----------

  predicate SameChunk(a: Chunk, b: Chunk) {
    a.text == b.text && (a.AlertLine? <==> b.AlertLine?)
  }

  ghost predicate Grows(a: seq<Chunk>, b: seq<Chunk>) {
    |a| <= |b| && forall k :: 0 <= k < |a| ==> SameChunk(a[k], b[k])
  }

  lemma OwnGrows(s: State, t: nat, inp: Input)
    requires CanRun(s, t, inp) && !s.conns[t].pc.AlertSend? && StreamOk(s.conns[t])
    ensures Grows(s.conns[t].chunks, Step(s, t, inp).conns[t].chunks)
  {
    if s.conns[t].pc.Sending? {
      SendingConnIs(s, t, inp);
    }
  }

  lemma StepGrows(s: State, u: nat, inp: Input, t: nat)
    requires TableInv(s) && ServesOpen(s) && CanRun(s, u, inp) && StreamOk(s.conns[u]) && t < |s.conns|
    ensures t < |Step(s, u, inp).conns| && Grows(s.conns[t].chunks, Step(s, u, inp).conns[t].chunks)
  {
    StepFrame(s, u, inp);
    if s.conns[u].pc.AlertSend? {
      AlertedConns(s, u, inp, t);
    } else if u == t {
      OwnGrows(s, t, inp);
    } else {
      OthersQuiet(s, u, inp);
    }
  }

  /** In every safe run what a connection was sent stays in its place. */
  lemma {:induction false} ChunksStay(thresholds: seq<A.Threshold>, moves: seq<Move>, n: nat, t: nat)
    requires SafeRun(thresholds, moves) && n <= |moves| && LegalRun(thresholds, moves[..n])
    requires t < |Reached(thresholds, moves[..n]).conns|
    ensures t < |Reached(thresholds, moves).conns|
    ensures Grows(Reached(thresholds, moves[..n]).conns[t].chunks, Reached(thresholds, moves).conns[t].chunks)
  {
    if n == |moves| {
      assert moves[..n] == moves;
    } else {
      var front := moves[..|moves| - 1];
      assert front[..n] == moves[..n];
      SafePrefix(thresholds, moves);
      ChunksStay(thresholds, front, n, t);
      LocksReached(thresholds, front);
      TableReached(thresholds, front);
      SafeReached(thresholds, front);
      StreamsReached(thresholds, front);
      var s := Reached(thresholds, front);
      match moves[|moves| - 1]
      case Accept(fd) => assert Accepted(s, fd).conns[t] == s.conns[t];
      case Run(u, inp) => StepGrows(s, u, inp, t);
    }
  }

  // ---------- before the first answer ----------

  lemma {:induction false} OnlyAlerts(chunks: seq<Chunk>)
    requires Responses(chunks) == 0
    ensures |Texts(chunks)| == |chunks| && forall k :: 0 <= k < |chunks| ==> chunks[k].AlertLine?
  {
    if chunks != [] {
      OnlyAlerts(chunks[..|chunks| - 1]);
    }
  }

  lemma {:induction false} OnceInLogins(logins: seq<nat>, t: nat, i: nat, j: nat)
    requires i < |logins| && j < |logins| && logins[i] == logins[j] == t && Times(logins, t) <= 1
    ensures i == j
  {
    var n := |logins| - 1;
    if i != j {
      if i < n && j < n {
        OnceInLogins(logins[..n], t, i, j);
      } else {
        TimesIn(logins[..n], t, if i < n then i else j);
      }
    }
  }

  /** The operator's slot is its only one. */
  lemma OnlySlot(thresholds: seq<A.Threshold>, moves: seq<Move>, s: State, i: nat)
    requires SafeRun(thresholds, moves) && s == Reached(thresholds, moves) && i < |s.table.slots| <= |s.table.logins|
    requires s.table.logins[i] < |s.conns| && Received(thresholds, moves, s.table.logins[i]) == [Login(true)]
    requires |s.table.slots| == |s.table.since| == |s.table.until|
    ensures OnlySegment(s, i)
  {
    var t := s.table.logins[i];
    LoginsReceived(thresholds, moves, s, t);
    assert [Login(true)][..0] == [];
    forall j | 0 <= j < |s.table.slots| && s.table.logins[j] == t ensures j == i {
      OnceInLogins(s.table.logins, t, i, j);
    }
  }

  /** Before the answer to its first request, a granted login, an operator was sent nothing if and only if no
      broadcast concerned its slot. */
  lemma NothingSentIff(thresholds: seq<A.Threshold>, moves: seq<Move>, s: State, i: nat)
    requires SafeRun(thresholds, moves) && s == Reached(thresholds, moves) && i < |s.table.slots| <= |s.table.logins|
    requires s.table.logins[i] < |s.conns| && Received(thresholds, moves, s.table.logins[i]) == [Login(true)]
    requires s.conns[s.table.logins[i]].pc.RespondWait? && s.conns[s.table.logins[i]].fd > 0
    ensures |s.table.slots| == |s.table.since| == |s.table.until|
    ensures var chunks := s.conns[s.table.logins[i]].chunks;
            && (chunks == [] <==> s.table.since[i] == EndOf(s, i))
            && forall k :: 0 <= k < |chunks| ==> chunks[k].AlertLine?
  {
    var t := s.table.logins[i];
    SentSegmentIff(thresholds, moves, s, i);
    OnlySlot(thresholds, moves, s, i);
    AnsweredOnce(thresholds, moves, t);
    assert [Login(true)][..0] == [];
    OnlyAlerts(s.conns[t].chunks);
  }

  lemma {:induction false} SafeUpTo(thresholds: seq<A.Threshold>, moves: seq<Move>, n: nat)
    requires SafeRun(thresholds, moves) && n <= |moves|
    ensures SafeRun(thresholds, moves[..n])
  {
    if n == |moves| {
      assert moves[..n] == moves;
    } else {
      SafePrefix(thresholds, moves);
      SafeUpTo(thresholds, moves[..|moves| - 1], n);
      assert moves[..|moves| - 1][..n] == moves[..n];
    }
  }

  // ---------- what the client reads first ----------

  lemma {:induction false} FirstContent(chunks: seq<Chunk>)
    requires chunks != [] && forall k :: 0 <= k < |chunks| ==> Complete(chunks[k])
    ensures Contents(chunks) != [] && Complete(chunks[0]) && Contents(chunks)[0] == Content(chunks[0].text)
  {
    var n := |chunks| - 1;
    assert Complete(chunks[n]);
    if n > 0 {
      FirstContent(chunks[..n]);
    }
  }

  lemma AlertIsNotOk(thresholds: seq<A.Threshold>, moves: seq<Move>, t: nat)
    requires LegalRun(thresholds, moves) && t < |Reached(thresholds, moves).conns|
    requires var chunks := Reached(thresholds, moves).conns[t].chunks;
             chunks != [] && Complete(chunks[0]) && chunks[0].AlertLine?
    ensures !("OK" <= Content(Reached(thresholds, moves).conns[t].chunks[0].text))
  {
    var s := Reached(thresholds, moves);
    var text := s.conns[t].chunks[0].text;
    AlertLinesAreBroadcasts(thresholds, moves, t);
    Forwarding.AlertsOnlyReached(thresholds, moves);
    assert text in s.table.broadcasts;
    Forwarding.ContentStarts(text);
    assert Content(text)[0] == "ALERTA"[0] == 'A' && "OK"[0] == 'O';
  }

  lemma OkIsOk(text: string)
    requires OneLine(text) && "OK" <= text
    ensures "OK" <= Content(text)
  {
    assert text[0] == 'O' && text[1] == 'K';
    assert text[|text| - 2] == text[|text| - 2..][0] == '\r';
    assert |text| - 2 >= 2;
    assert Content(text)[..2] == text[..2];
  }

  /** The answer to a granted login is started in move n. */
  ghost predicate AnswersLogin(thresholds: seq<A.Threshold>, moves: seq<Move>, n: nat, i: nat, inp: Input) {
    && SafeRun(thresholds, moves) && n < |moves| && LegalRun(thresholds, moves[..n])
    && var s := Reached(thresholds, moves[..n]);
       && i < |s.table.slots| <= |s.table.logins| && s.table.logins[i] < |s.conns|
       && |s.table.slots| == |s.table.since| == |s.table.until|
       && var t := s.table.logins[i];
          && Received(thresholds, moves[..n], t) == [Login(true)] && s.conns[t].fd > 0
          && s.conns[t].pc.RespondWait? && moves[n] == Run(t, inp) && OneLine(inp.response) && "OK" <= inp.response
  }

  lemma AnswerStarts(s: State, t: nat, inp: Input)
    requires CanRun(s, t, inp) && s.conns[t].pc.RespondWait?
    ensures t < |Step(s, t, inp).conns| && Step(s, t, inp).conns[t].chunks == s.conns[t].chunks + [Response(inp.response, 0)]
  {
  }

  /** What the connection was sent first, at the end of the run. */
  lemma FirstChunk(thresholds: seq<A.Threshold>, moves: seq<Move>, n: nat, i: nat, inp: Input)
    requires AnswersLogin(thresholds, moves, n, i, inp)
    ensures var s := Reached(thresholds, moves[..n]); var t := s.table.logins[i];
            && t < |Reached(thresholds, moves).conns|
            && var chunks := Reached(thresholds, moves).conns[t].chunks;
               && chunks != []
               && (s.table.since[i] == EndOf(s, i) ==> SameChunk(Response(inp.response, 0), chunks[0]))
               && (s.table.since[i] != EndOf(s, i) ==> chunks[0].AlertLine?)
  {
    PrefixLegal(thresholds, moves, n + 1);
    SafeUpTo(thresholds, moves, n);
    var s := Reached(thresholds, moves[..n]);
    var t := s.table.logins[i];
    NothingSentIff(thresholds, moves[..n], s, i);
    assert moves[..n + 1][..n] == moves[..n];
    AnswerStarts(s, t, inp);
    ChunksStay(thresholds, moves, n + 1, t);
  }

  /** In every safe run, under any interleaving: an operator that logs in first, is granted and answered OK,
      and receives whole lines, reads the answer as its first line if and only if no broadcast concerned its
      slot before the answer was started; else the first line is an alert, and the client gives up. */
  lemma AnswerReadFirstIff(thresholds: seq<A.Threshold>, moves: seq<Move>, n: nat, i: nat, inp: Input)
    requires AnswersLogin(thresholds, moves, n, i, inp)
    requires var t := Reached(thresholds, moves[..n]).table.logins[i];
             && t < |Reached(thresholds, moves).conns|
             && var chunks := Reached(thresholds, moves).conns[t].chunks;
                forall k :: 0 <= k < |chunks| ==> Complete(chunks[k])
    ensures var s := Reached(thresholds, moves[..n]);
            var lines := Lines(Reached(thresholds, moves).conns[s.table.logins[i]].wire);
            lines != [] && ("OK" <= lines[0] <==> s.table.since[i] == EndOf(s, i))
  {
    var s := Reached(thresholds, moves[..n]);
    var t := s.table.logins[i];
    var c := Reached(thresholds, moves).conns[t];
    FirstChunk(thresholds, moves, n, i, inp);
    ClientReadsLines(thresholds, moves, t);
    FirstContent(c.chunks);
    if s.table.since[i] == EndOf(s, i) {
      OkIsOk(inp.response);
    } else {
      AlertIsNotOk(thresholds, moves, t);
    }
  }

  // ---------- a run ----------

  lemma AlertFits()
    ensures |AlertBody("T1", "temperature", 31.0, "C")| <= 253
  {
    ThirtyOne();
  }

  lemma ThirtyOne()
    ensures |Decimals.Print(31.0, 2)| <= 10
  {
    AlertListing.ZeroCents();
    assert Decimals.Units(3100, 2) == 31.0;
    Decimals.PrintUnits(3100, 2);
    assert Decimals.Quotient(3100, 100) == 31 && Decimals.Remainder(3100, 100) == 0;
    assert |Decimals.Natural(3)| == 1;
  }

  lemma AlertIsLine()
    ensures OneLine(ConcreteRuns.MSG) && "ALERTA" <= Content(ConcreteRuns.MSG)
  {
    assert NoEnd("T1") && NoEnd("temperature") && NoEnd("C");
    AlertFits();
    AlertIsLineIff("T1", "temperature", 31.0, "C");
    Forwarding.AlertTextStarts("T1", "temperature", 31.0, "C");
    Forwarding.ContentStarts(ConcreteRuns.MSG);
  }

  /** The client was sent one line, an alert, where it waits for OK. */
  ghost predicate ReadsAlert(wire: string) {
    var lines := Lines(wire);
    |lines| == 1 && "ALERTA" <= lines[0] && !("OK" <= lines[0])
  }

  lemma AlertIsRead()
    ensures ReadsAlert(ConcreteRuns.MSG)
  {
    AlertIsLine();
    LineFirst(ConcreteRuns.MSG, "");
    assert ConcreteRuns.MSG + "" == ConcreteRuns.MSG && Lines("") == [];
    assert Content(ConcreteRuns.MSG)[0] == "ALERTA"[0] == 'A' && "OK"[0] == 'O';
  }

  /** A client whose login was granted, in a run in which every connection logs in once, reads an alert where
      it waits for OK. */
  lemma GrantedReadsAlert(fd: nat, other: nat)
    requires fd > 0 && other != fd
    ensures exists moves :: LogsInOnce(ConcreteRuns.HOT, moves)
              && var s := Reached(ConcreteRuns.HOT, moves);
                 && |s.conns| == 2 && s.conns[0].fd == fd && ReadsAlert(s.conns[0].wire)
                 && Count(Received(ConcreteRuns.HOT, moves, 0), Login(true)) == 1
  {
    ConcreteRuns.AlertBeforeAnswer(fd, other);
    var moves :| LogsInOnce(ConcreteRuns.HOT, moves)
                 && ConcreteRuns.Early(Reached(ConcreteRuns.HOT, moves), fd, ConcreteRuns.MSG);
    var s := Reached(ConcreteRuns.HOT, moves);
    LoginsReceived(ConcreteRuns.HOT, moves, s, 0);
    assert s.table.logins[..0] == [];
    AlertIsRead();
  }
}
