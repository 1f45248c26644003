/** The filter process itself: session objects that the daemon's events
    update in place, the table of sessions, and the stream of lines written
    back to the daemon.  Every method is proved to do what the functions of
    `Events`, `Codec` and `Translator` say. */
module Filter {
  import opened Text
  import opened Codec
  import opened Wrappers
  import opened Translator
  import opened Events

  const DatalineKind: string := "filter-dataline"
  const ResultKind: string := "filter-result"

  /** The state kept for one SMTP session. */
  class Session {
    const id: string
    var rdns: string
    var src: string
    var heloName: string
    var userName: string
    var mtaName: string
    var tx: Tx

    /** A session as link-connect creates it: only the id is set. */
    constructor (id: string)
      ensures View() == NewSession(id)
    {
      this.id := id;
      rdns, src, heloName, userName, mtaName := "", "", "", "", "";
      tx := EmptyTx;
    }

    /** The session's fields as a value. */
    function View(): SessionView
      reads this
    {
      SessionView(id, rdns, src, heloName, userName, mtaName, tx)
    }

    method LinkConnect(params: seq<string>) returns (ok: bool)
      modifies this
      ensures ok == OnLinkConnect(old(View()), params).Some?
      ensures View() == if ok then OnLinkConnect(old(View()), params).value else old(View())
    {
      ok := |params| == 4;
      if ok {
        rdns := params[0];
        src := params[2];
      }
    }

    method LinkGreeting(params: seq<string>) returns (ok: bool)
      modifies this
      ensures ok == OnLinkGreeting(old(View()), params).Some?
      ensures View() == if ok then OnLinkGreeting(old(View()), params).value else old(View())
    {
      ok := |params| == 1;
      if ok {
        mtaName := params[0];
      }
    }

    method LinkIdentify(params: seq<string>) returns (ok: bool)
      modifies this
      ensures ok == OnLinkIdentify(old(View()), params).Some?
      ensures View() == if ok then OnLinkIdentify(old(View()), params).value else old(View())
    {
      ok := |params| == 2;
      if ok {
        heloName := params[1];
      }
    }

    method LinkAuth(params: seq<string>) returns (ok: bool)
      modifies this
      ensures ok == OnLinkAuth(old(View()), params).Some?
      ensures View() == if ok then OnLinkAuth(old(View()), params).value else old(View())
    {
      ok := |params| == 2;
      if ok && params[1] == "pass" {
        userName := params[0];
      }
    }

    method TxReset(params: seq<string>) returns (ok: bool)
      modifies this
      ensures ok == OnTxReset(old(View()), params).Some?
      ensures View() == if ok then OnTxReset(old(View()), params).value else old(View())
    {
      ok := |params| == 1;
      if ok {
        tx := EmptyTx;
      }
    }

    method TxBegin(params: seq<string>) returns (ok: bool)
      modifies this
      ensures ok == OnTxBegin(old(View()), params).Some?
      ensures View() == if ok then OnTxBegin(old(View()), params).value else old(View())
    {
      ok := |params| == 1;
      if ok {
        tx := tx.(msgid := params[0]);
      }
    }

    method TxMail(version: string, params: seq<string>) returns (ok: bool)
      modifies this
      ensures ok == OnTxMail(version, old(View()), params).Some?
      ensures View() == if ok then OnTxMail(version, old(View()), params).value else old(View())
    {
      ok := |params| >= 3;
      if ok {
        var status, address := Envelope(version, params).0, Envelope(version, params).1;
        if status == "ok" {
          tx := tx.(mailFrom := address);
        }
      }
    }

    method TxRcpt(version: string, params: seq<string>) returns (ok: bool)
      modifies this
      ensures ok == OnTxRcpt(version, old(View()), params).Some?
      ensures View() == if ok then OnTxRcpt(version, old(View()), params).value else old(View())
    {
      ok := |params| >= 3;
      if ok {
        var status, address := Envelope(version, params).0, Envelope(version, params).1;
        if status == "ok" {
          tx := tx.(rcptTo := tx.rcptTo + [address]);
        }
      }
    }

    /** data-line: `query` carries the token when the line ends the data
        and the analysis is to start. */
    method DataLine(params: seq<string>) returns (ok: bool, query: Option<string>)
      modifies this
      ensures ok == OnDataLine(old(View()), params).Some?
      ensures View() == if ok then OnDataLine(old(View()), params).value else old(View())
      ensures query.Some? <==> ok && DataLineText(params) == "."
      ensures query.Some? ==> query.value == params[0]
    {
      query := None;
      ok := |params| >= 2;
      if ok {
        var token, line := params[0], Join(params[1..], "|");
        if line == "." {
          query := Some(token);
        } else {
          tx := tx.(message := tx.message + [TrimPrefix(line, ".")]);
        }
      }
    }
  }

  /** An analysis to run: started by the end of a message's data, for the
      session and under the data-line's token. */
  datatype Pending = Pending(session: Session, token: string)

  /** The filter: its sessions by id, the protocol version of the last
      input line, and every line written to the daemon so far. */
  class Filter {
    var sessions: map<string, Session>
    var version: string
    var output: seq<string>

    constructor ()
      ensures sessions == map[] && output == [] && Valid()
    {
      sessions := map[];
      version := "";
      output := [];
    }

    /** Each session is filed under its own id, so distinct ids are distinct
        objects. */
    predicate Valid()
      reads this`sessions
    {
      forall k | k in sessions :: sessions[k].id == k
    }

    /** The sessions' fields by id. */
    function Registry(): map<string, SessionView>
      reads this`sessions, sessions.Values
    {
      map k | k in sessions :: sessions[k].View()
    }

    // -------------------------------------------------------------------
    // Output

    /** produceOutput: one framed line. */
    method Produce(kind: string, id: string, token: string, payload: string)
      modifies this`output
      ensures output == old(output) + [Frame(version, kind, id, token, payload)]
    {
      var head := if LegacyFraming(version) then kind + "|" + token + "|" + id else kind + "|" + id + "|" + token;
      output := output + [head + "|" + payload];
    }

    /** writeLine: a message line, dot-stuffed. */
    method WriteLine(id: string, token: string, line: string)
      modifies this`output
      ensures output == old(output) + [Frame(version, DatalineKind, id, token, Escape(line))]
    {
      var prefix := if HasPrefix(line, ".") then "." else "";
      Produce(DatalineKind, id, token, prefix + line);
      assert prefix + line == Escape(line);
    }

    /** writeHeader: one line per `\n`-segment of the value, the name on
        the first. */
    method WriteHeader(id: string, token: string, h: string, t: string)
      modifies this`output
      ensures output == old(output) + Frames(version, DatalineKind, id, token, HeaderLines(h, t))
    {
      var parts := Split(t, '\n');
      var i := 0;
      while i < |parts|
        invariant 0 <= i <= |parts|
        invariant output == old(output) + Frames(version, DatalineKind, id, token, HeaderLines(h, t)[..i])
      {
        if i == 0 {
          Produce(DatalineKind, id, token, h + ": " + parts[0]);
        } else {
          Produce(DatalineKind, id, token, parts[i]);
        }
        SentOne(version, DatalineKind, id, token, old(output), HeaderLines(h, t)[..i], HeaderLines(h, t)[i]);
        assert HeaderLines(h, t)[..i] + [HeaderLines(h, t)[i]] == HeaderLines(h, t)[..i + 1];
        i := i + 1;
      }
      assert HeaderLines(h, t)[..i] == HeaderLines(h, t);
    }

    /** flushMessage: the message as received, re-stuffed, and the
        terminator. */
    method FlushMessage(id: string, token: string, message: seq<string>)
      modifies this`output
      ensures output == old(output) + Frames(version, DatalineKind, id, token, EscapeAll(message) + ["."])
    {
      var i := 0;
      while i < |message|
        invariant 0 <= i <= |message|
        invariant output == old(output) + Frames(version, DatalineKind, id, token, EscapeAll(message)[..i])
      {
        WriteLine(id, token, message[i]);
        SentOne(version, DatalineKind, id, token, old(output), EscapeAll(message)[..i], EscapeAll(message)[i]);
        assert EscapeAll(message)[..i] + [EscapeAll(message)[i]] == EscapeAll(message)[..i + 1];
        i := i + 1;
      }
      assert EscapeAll(message)[..i] == EscapeAll(message);
      Produce(DatalineKind, id, token, ".");
      SentOne(version, DatalineKind, id, token, old(output), EscapeAll(message), ".");
    }

    /** rspamdTempFail: the transaction is deferred and the message goes
        back unchanged. */
    method TempFail(s: Session, token: string)
      modifies this`output, s`tx
      ensures s.tx == old(s.tx).(action := "tempfail", response := "server internal error")
      ensures output == old(output) + Frames(version, DatalineKind, s.id, token, EscapeAll(old(s.tx.message)) + ["."])
    {
      s.tx := s.tx.(action := "tempfail", response := "server internal error");
      FlushMessage(s.id, token, s.tx.message);
    }

    // -------------------------------------------------------------------
    // The rewritten message

    /** The DKIM-Signature headers of the verdict. */
    method WriteDkim(id: string, token: string, d: DkimField)
      modifies this`output
      ensures output == old(output) + Frames(version, DatalineKind, id, token, DkimLines(d))
    {
      match d
      case NoSignature =>
      case Signature(t) =>
        if t != "" {
          WriteHeader(id, token, "DKIM-Signature", t);
        }
      case Signatures(es) =>
        var i := 0;
        while i < |es|
          invariant 0 <= i <= |es|
          invariant output == old(output) + Frames(version, DatalineKind, id, token, SignatureListLines(es[..i]))
        {
          if es[i].Some? && es[i].value != "" {
            WriteHeader(id, token, "DKIM-Signature", es[i].value);
          }
          SentMore(version, DatalineKind, id, token, old(output), SignatureListLines(es[..i]), SignatureLines(es[i]));
          assert es[..i + 1][..i] == es[..i];
          i := i + 1;
        }
        assert es[..i] == es;
    }

    /** The spam headers of an `add header` verdict, with the symbols
        sorted and folded into `tests=[...]` lines. */
    method WriteSpam(id: string, token: string, v: Verdict, order: MapOrder)
      requires IterationOf(order, v)
      modifies this`output
      ensures output == old(output) + Frames(version, DatalineKind, id, token, SpamLines(v, order))
    {
      if v.action == AddHeader {
        var score := "X-Spam-Score: " + v.score + " / " + v.requiredScore;
        Produce(DatalineKind, id, token, "X-Spam: yes");
        Produce(DatalineKind, id, token, score);
        SentTwo(version, DatalineKind, id, token, old(output), "X-Spam: yes", score);
        WriteStatus(id, token, v, order);
        SentMore(version, DatalineKind, id, token, old(output), SpamHeaders(v), StatusLines(v, order));
      }
    }

    /** X-Spam-Status and the folded list, when there are symbols. */
    method WriteStatus(id: string, token: string, v: Verdict, order: MapOrder)
      requires IterationOf(order, v)
      modifies this`output
      ensures output == old(output) + Frames(version, DatalineKind, id, token, StatusLines(v, order))
    {
      if |v.symbols| != 0 {
        var status := "X-Spam-Status: Yes, score=" + v.scoreFixed + " required=" + v.requiredFixed;
        Produce(DatalineKind, id, token, status);
        SentFirst(version, DatalineKind, id, token, old(output), status);
        WriteTests(id, token, v, order);
        SentMore(version, DatalineKind, id, token, old(output), [status], TestsLines(SymbolItems(v, order)));
      }
    }

    /** The folding loop over the symbols in sorted order: the buffer
        holds the open line and is flushed before a symbol that would take
        it past the budget. */
    method WriteTests(id: string, token: string, v: Verdict, order: MapOrder)
      requires IterationOf(order, v)
      modifies this`output
      ensures output == old(output) + Frames(version, DatalineKind, id, token, TestsLines(SymbolItems(v, order)))
    {
      var names := SortStrings(order.symbols);
      assert forall k | 0 <= k < |names| :: names[k] in v.symbols by {
        SortedNamesEnumerate(v, order);
      }
      WriteFolded(id, token, names, v.symbols);
      assert SymbolItems(v, order) == Symbols(names, v.symbols);
    }

    method WriteFolded(id: string, token: string, names: seq<string>, scores: map<string, string>)
      requires forall k | 0 <= k < |names| :: names[k] in scores
      modifies this`output
      ensures output == old(output) + Frames(version, DatalineKind, id, token, TestsLines(Symbols(names, scores)))
    {
      var buf := "tests=[";
      var i := 0;
      assert Symbols(names, scores)[..0] == [];
      while i < |names|
        invariant 0 <= i <= |names|
        invariant buf == OpenLine(Fold(Symbols(names, scores)[..i]))
        invariant output == old(output) + Frames(version, DatalineKind, id, token, FlushedLines(Fold(Symbols(names, scores)[..i])))
      {
        var sym := names[i] + "=" + scores[names[i]];
        FoldTurn(Symbols(names, scores), i);
        ghost var flushed := FlushedLines(Fold(Symbols(names, scores)[..i]));
        ghost var open := buf;
        if |buf| > 0 && |sym| + |buf| > Budget {
          Produce(DatalineKind, id, token, "\t" + buf);
          SentOne(version, DatalineKind, id, token, old(output), flushed, "\t" + buf);
          buf := "";
        } else {
          assert flushed + [] == flushed;
        }
        if |buf| > 0 && i > 0 {
          buf := buf + ", ";
        }
        buf := buf + sym;
        assert buf == NextBuffer(open, sym, i);
        i := i + 1;
      }
      assert Symbols(names, scores)[..i] == Symbols(names, scores);
      Produce(DatalineKind, id, token, "\t" + buf + "]");
      SentOne(version, DatalineKind, id, token, old(output), FlushedLines(Fold(Symbols(names, scores))), "\t" + buf + "]");
    }

    /** The headers the verdict adds: plain ones in map order as they are
        met, then the structured ones collected on the way, in the fixed
        order. */
    method WriteAddedHeaders(id: string, token: string, v: Verdict, order: MapOrder)
      requires IterationOf(order, v)
      modifies this`output
      ensures output == old(output) + Frames(version, DatalineKind, id, token, AddedLines(v, order))
    {
      if |v.add| == 0 {
        assert v.add.Keys == {};
        NoAddedHeaders(v, order);
        return;
      }
      var auth := WritePlain(id, token, v, order);
      assert Agrees(v, auth, AuthOrder) by {
        forall j | 0 <= j < |AuthOrder| ensures Lookup(auth, AuthOrder[j]) == AuthValue(v, AuthOrder[j]) {
          AuthSeen(v, order, auth, AuthOrder[j]);
        }
      }
      if |auth| > 0 {
        WriteAuth(id, token, v, auth, AuthOrder);
      } else {
        assert Frames(version, DatalineKind, id, token, AuthLines(v)) == [] by {
          NoAuthLines(v, AuthOrder);
        }
      }
      SentMore(version, DatalineKind, id, token, old(output), PlainLines(v, order.add), AuthLines(v));
    }

    /** The collected structured headers in the order of `hdrs`, skipping
        the empty ones. */
    method WriteAuth(id: string, token: string, v: Verdict, auth: map<string, string>, hdrs: seq<string>)
      requires Agrees(v, auth, hdrs)
      modifies this`output
      ensures output == old(output) + Frames(version, DatalineKind, id, token, AuthLinesFrom(v, hdrs))
    {
      var k := 0;
      while k < |hdrs|
        invariant 0 <= k <= |hdrs|
        invariant output == old(output) + Frames(version, DatalineKind, id, token, AuthLinesFrom(v, hdrs[..k]))
      {
        var h := hdrs[k];
        assert Lookup(auth, h) == AuthValue(v, h);
        AuthLinesSnoc(v, hdrs, k);
        if Lookup(auth, h) != "" {
          WriteHeader(id, token, h, Lookup(auth, h));
          SentMore(version, DatalineKind, id, token, old(output), AuthLinesFrom(v, hdrs[..k]), HeaderLines(h, Lookup(auth, h)));
          assert AuthOf(v, h) == HeaderLines(h, Lookup(auth, h));
        } else {
          assert AuthOf(v, h) == [];
          assert AuthLinesFrom(v, hdrs[..k]) + [] == AuthLinesFrom(v, hdrs[..k]);
        }
        k := k + 1;
      }
      assert hdrs[..k] == hdrs;
    }

    /** The loop over the added headers in map order: plain ones are
        written, structured ones with a string value are collected. */
    method WritePlain(id: string, token: string, v: Verdict, order: MapOrder) returns (auth: map<string, string>)
      requires IterationOf(order, v)
      modifies this`output
      ensures output == old(output) + Frames(version, DatalineKind, id, token, PlainLines(v, order.add))
      ensures Collected(v, order, auth)
    {
      auth := map[];
      var i := 0;
      assert order.add[..0] == [];
      while i < |order.add|
        invariant 0 <= i <= |order.add|
        invariant output == old(output) + Frames(version, DatalineKind, id, token, PlainLines(v, order.add[..i]))
        invariant CollectedFrom(v, order.add[..i], auth)
      {
        var h := order.add[i];
        assert order.add[..i + 1] == order.add[..i] + [h];
        match v.add[h] {
          case Structured(value) =>
            if h != "" && value.Some? {
              CollectAdd(v, order.add[..i], auth, h);
              auth := auth[h := value.value];
            } else {
              CollectSkip(v, order.add[..i], auth, h);
            }
          case Plain(t) =>
            WriteHeader(id, token, h, t);
            CollectSkip(v, order.add[..i], auth, h);
          case Unusable =>
            CollectSkip(v, order.add[..i], auth, h);
        }
        SentMore(version, DatalineKind, id, token, old(output), PlainLines(v, order.add[..i]), PlainOf(v, h));
        PlainLinesSnoc(v, order.add, i);
        i := i + 1;
      }
      assert order.add[..i] == order.add;
    }

    /** Whether the line starts a header of the remove set. */
    method MatchesRemoved(remove: set<string>, line: string) returns (found: bool)
      ensures found == Removed(remove, line)
    {
      found := false;
      var rest := remove;
      while rest != {} && !found
        invariant rest <= remove
        invariant found ==> Removed(remove, line)
        invariant !found ==> forall h | h in remove - rest :: !HasPrefix(line, h + ":")
        decreases |rest|
      {
        var h :| h in rest;
        if HasPrefix(line, h + ":") {
          found := true;
        }
        rest := rest - {h};
      }
    }

    /** The replay loop over the original message. */
    method Replay(id: string, token: string, v: Verdict, message: seq<string>)
      modifies this`output
      ensures output == old(output) + Frames(version, DatalineKind, id, token, ReplayFrom(v, ReplayStart, message))
    {
      var inhdr, rmhdr := true, false;
      var i := 0;
      assert message[..0] == [];
      while i < |message|
        invariant 0 <= i <= |message|
        invariant ReplayState(inhdr, rmhdr) == ReplayEnd(v, ReplayStart, message[..i])
        invariant output == old(output) + Frames(version, DatalineKind, id, token, ReplayFrom(v, ReplayStart, message[..i]))
      {
        var line := message[i];
        ReplayPrefix(v, message, i);
        ghost var prev := ReplayFrom(v, ReplayStart, message[..i]);
        if line == "" {
          inhdr := false;
          rmhdr := false;
        }
        if inhdr && rmhdr && (HasPrefix(line, "\t") || HasPrefix(line, " ")) {
          assert prev + [] == prev;
        } else {
          rmhdr := false;
          var removed := false;
          if inhdr && |v.remove| > 0 {
            removed := MatchesRemoved(v.remove, line);
          }
          if removed {
            rmhdr := true;
            assert prev + [] == prev;
          } else if v.action == RewriteSubject && inhdr && HasPrefix(line, "Subject: ") {
            Produce(DatalineKind, id, token, "Subject: " + v.subject);
            SentOne(version, DatalineKind, id, token, old(output), prev, "Subject: " + v.subject);
          } else {
            WriteLine(id, token, line);
            SentOne(version, DatalineKind, id, token, old(output), prev, Escape(line));
          }
        }
        i := i + 1;
      }
      assert message[..i] == message;
    }

    /** rspamdQuery after the answer: the transaction's new disposition and
        the lines sent back for the message. */
    method Query(s: Session, token: string, outcome: Outcome, order: MapOrder)
      requires outcome.Answered? ==> IterationOf(order, outcome.verdict)
      modifies this`output, s`tx
      ensures var (action, response) := Decide(outcome, old(s.tx.action), old(s.tx.response));
        s.tx == old(s.tx).(action := action, response := response)
      ensures output == old(output) + Frames(version, DatalineKind, s.id, token, Answer(outcome, old(s.tx.message), order))
    {
      match outcome
      case LocalFailure =>
        TempFail(s, token);
      case Answered(v) =>
        if v.action == "reject" || v.action == "soft reject" {
          s.tx := s.tx.(action := v.action, response := v.smtpMessage);
          FlushMessage(s.id, token, s.tx.message);
        } else {
          WriteRewrite(s.id, token, v, s.tx.message, order);
        }
    }

    /** The rewritten message of a pass-class verdict: signatures, spam
        headers, added headers, the replayed message and the terminator. */
    method WriteRewrite(id: string, token: string, v: Verdict, message: seq<string>, order: MapOrder)
      requires IterationOf(order, v)
      modifies this`output
      ensures output == old(output) + Frames(version, DatalineKind, id, token, Rewrite(v, message, order))
    {
      WriteDkim(id, token, v.dkim);
      WriteSpam(id, token, v, order);
      SentMore(version, DatalineKind, id, token, old(output), DkimLines(v.dkim), SpamLines(v, order));
      WriteAddedHeaders(id, token, v, order);
      SentMore(version, DatalineKind, id, token, old(output), DkimLines(v.dkim) + SpamLines(v, order), AddedLines(v, order));
      Replay(id, token, v, message);
      SentMore(version, DatalineKind, id, token, old(output),
        DkimLines(v.dkim) + SpamLines(v, order) + AddedLines(v, order), ReplayFrom(v, ReplayStart, message));
      Produce(DatalineKind, id, token, ".");
      SentOne(version, DatalineKind, id, token, old(output),
        DkimLines(v.dkim) + SpamLines(v, order) + AddedLines(v, order) + ReplayFrom(v, ReplayStart, message), ".");
    }

    // -------------------------------------------------------------------
    // Handlers that touch the filter

    /** link-disconnect: the session is forgotten. */
    method LinkDisconnect(s: Session, params: seq<string>) returns (ok: bool)
      modifies this`sessions
      ensures ok == (|params| == 0)
      ensures sessions == if ok then old(sessions) - {s.id} else old(sessions)
    {
      ok := |params| == 0;
      if ok {
        sessions := sessions - {s.id};
      }
    }

    /** The report handlers other than link-disconnect, by phase. */
    method Report(s: Session, phase: string, params: seq<string>) returns (ok: bool)
      modifies s
      ensures ok == OnReport(version, phase, old(s.View()), params).Some?
      ensures s.View() == if ok then OnReport(version, phase, old(s.View()), params).value else old(s.View())
    {
      if phase == "link-connect" {
        ok := s.LinkConnect(params);
      } else if phase == "link-greeting" {
        ok := s.LinkGreeting(params);
      } else if phase == "link-identify" {
        ok := s.LinkIdentify(params);
      } else if phase == "link-auth" {
        ok := s.LinkAuth(params);
      } else if phase == "tx-reset" {
        ok := s.TxReset(params);
      } else if phase == "tx-begin" {
        ok := s.TxBegin(params);
      } else if phase == "tx-mail" {
        ok := s.TxMail(version, params);
      } else if phase == "tx-rcpt" {
        ok := s.TxRcpt(version, params);
      } else {
        ok := false;
      }
    }

    /** link-connect files a fresh session under its id, replacing any
        session of that id. */
    method Install(id: string) returns (s: Session)
      requires Valid()
      modifies this`sessions
      ensures fresh(s) && sessions == old(sessions)[id := s] && Valid()
      ensures Registry() == old(Registry())[id := NewSession(id)]
    {
      s := new Session(id);
      sessions := sessions[id := s];
    }

    /** One input line: split into atoms, the version recorded, and the
        line handed to the handlers of its stream.  A failure is where the
        filter would exit. */
    method Dispatch(line: string) returns (r: Result<Option<Pending>, Fatal>)
      requires Valid()
      modifies this, sessions.Values
      ensures Valid()
      ensures Route(line, old(Registry())).Failure? <==> r.Failure?
      ensures r.Failure? ==> Route(line, old(Registry())).error == r.error
      ensures r.Success? ==>
        |Split(line, '|')| >= 6
        && Performs(r.value, Route(line, old(Registry())).value, old(output), Split(line, '|')[5])
      ensures |Split(line, '|')| >= 6 ==> version == Split(line, '|')[1]
      ensures |Split(line, '|')| < 6 ==> sessions == old(sessions)
      ensures |Split(line, '|')| >= 6 ==>
        var atoms := Split(line, '|');
        Kept((atoms[0] == "report" || atoms[0] == "filter") && atoms[4] == "link-connect", atoms[5])
    {
      var atoms := Split(line, '|');
      if |atoms| < 6 {
        return Failure(MissingAtoms);
      }
      version := atoms[1];
      if atoms[0] == "report" {
        r := Trigger(false, atoms);
      } else if atoms[0] == "filter" {
        r := Trigger(true, atoms);
      } else {
        r := Failure(InvalidStream);
      }
    }

    /** The state after a successful step is the one the step describes:
        the sessions' fields, the lines written, and the analysis to start:
        the session `id` names, filed under that id, and the token. */
    predicate Performs(p: Option<Pending>, step: Step, before: seq<string>, id: string)
      reads this, sessions.Values
    {
      && Registry() == step.registry
      && output == before + step.emitted
      && (p.Some? <==> step.query.Some?)
      && (p.Some? ==> && p.value.token == step.query.value
                      && id in sessions && p.value.session == sessions[id]
                      && p.value.session.id == id)
    }

    /** The session objects stay filed under their ids, so an analysis
        holding one still reaches the session a later line names: every
        session is the object filed before under the same id, except
        that link-connect files a fresh one under its own id. */
    twostate predicate Kept(connect: bool, id: string)
      reads this
    {
      forall k | k in sessions ::
        if connect && k == id then fresh(sessions[k])
        else k in old(sessions) && sessions[k] == old(sessions)[k]
    }

    /** trigger: install the session on link-connect, look the session up,
        then run the stream's handler for the phase. */
    method Trigger(filtering: bool, atoms: seq<string>) returns (r: Result<Option<Pending>, Fatal>)
      requires |atoms| >= 6 && Valid() && version == atoms[1]
      modifies this`sessions, this`output, sessions.Values
      ensures Valid()
      ensures Events.Trigger(filtering, atoms, old(Registry())).Failure? <==> r.Failure?
      ensures r.Failure? ==> Events.Trigger(filtering, atoms, old(Registry())).error == r.error
      ensures r.Success? ==> Performs(r.value, Events.Trigger(filtering, atoms, old(Registry())).value, old(output), atoms[5])
      ensures Kept(atoms[4] == "link-connect", atoms[5])
    {
      var phase, id, params := atoms[4], atoms[5], atoms[6..];
      if phase == "link-connect" {
        var installed := Install(id);
      }
      if id !in sessions {
        return Failure(InvalidSession);
      }
      var s := sessions[id];
      if phase !in (if filtering then FilterPhases else ReportPhases) {
        return Failure(InvalidPhase);
      }
      if filtering {
        r := RunFilter(s, phase, params);
      } else {
        r := RunReport(s, phase, params);
      }
    }

    /** The report handlers for a registered session. */
    method RunReport(s: Session, phase: string, params: seq<string>) returns (r: Result<Option<Pending>, Fatal>)
      requires Valid() && s.id in sessions && sessions[s.id] == s
      modifies this`sessions, s
      ensures Valid()
      ensures ReportStep(version, phase, s.id, params, old(Registry())).Failure? <==> r.Failure?
      ensures r.Failure? ==> ReportStep(version, phase, s.id, params, old(Registry())).error == r.error
      ensures r.Success? ==> Performs(r.value, ReportStep(version, phase, s.id, params, old(Registry())).value, old(output), s.id)
      ensures sessions == old(sessions) || sessions == old(sessions) - {s.id}
    {
      var ok: bool;
      if phase == "link-disconnect" {
        ok := LinkDisconnect(s, params);
      } else {
        ok := Report(s, phase, params);
        OneChanged(s);
      }
      r := if ok then Success(None) else Failure(InvalidInput);
    }

    /** The filter handlers for a registered session: data-line and
        commit. */
    method RunFilter(s: Session, phase: string, params: seq<string>) returns (r: Result<Option<Pending>, Fatal>)
      requires Valid() && s.id in sessions && sessions[s.id] == s
      modifies this`output, s
      ensures Valid()
      ensures FilterStep(version, phase, s.id, params, old(Registry())).Failure? <==> r.Failure?
      ensures r.Failure? ==> FilterStep(version, phase, s.id, params, old(Registry())).error == r.error
      ensures r.Success? ==> Performs(r.value, FilterStep(version, phase, s.id, params, old(Registry())).value, old(output), s.id)
      ensures sessions == old(sessions)
    {
      var ok: bool;
      if phase == "data-line" {
        var query;
        ok, query := s.DataLine(params);
        r := if !ok then Failure(InvalidInput) else if query.Some? then Success(Some(Pending(s, query.value))) else Success(None);
      } else {
        ok := Commit(s, params);
        r := if ok then Success(None) else Failure(InvalidInput);
      }
      OneChanged(s);
    }

    /** Only the session `s` changed since `old`: the registry differs in
        its entry alone. */
    twostate lemma OneChanged(s: Session)
      requires old(Valid()) && sessions == old(sessions)
      requires s.id in sessions && sessions[s.id] == s
      requires forall k | k in sessions && k != s.id :: unchanged(sessions[k])
      ensures Registry() == old(Registry())[s.id := s.View()]
    {
    }

    /** commit: the one `filter-result` line for the transaction. */
    method Commit(s: Session, params: seq<string>) returns (ok: bool)
      modifies this`output, s`tx
      ensures ok == (|params| == 2)
      ensures !ok ==> output == old(output) && s.tx == old(s.tx)
      ensures ok ==>
        var (payload, kept) := CommitReply(old(s.tx.action), old(s.tx.response));
        && s.tx == old(s.tx).(response := kept)
        && output == old(output) + [Frame(version, ResultKind, s.id, params[0], payload)]
    {
      ok := |params| == 2;
      if !ok {
        return;
      }
      var token := params[0];
      if s.tx.action == "tempfail" {
        if s.tx.response == "" {
          s.tx := s.tx.(response := "server internal error");
        }
        Produce(ResultKind, s.id, token, "reject|421 " + s.tx.response);
      } else if s.tx.action == "reject" {
        if s.tx.response == "" {
          s.tx := s.tx.(response := "message rejected");
        }
        Produce(ResultKind, s.id, token, "reject|550 " + s.tx.response);
      } else if s.tx.action == "soft reject" {
        if s.tx.response == "" {
          s.tx := s.tx.(response := "try again later");
        }
        Produce(ResultKind, s.id, token, "reject|451 " + s.tx.response);
      } else {
        Produce(ResultKind, s.id, token, "proceed");
      }
    }
  }


  /** Go's map index: the zero value for a missing key. */
  function Lookup(m: map<string, string>, k: string): string {
    if k in m then m[k] else ""
  }

  /** `auth` agrees with the verdict on every header of `hdrs`. */
  predicate Agrees(v: Verdict, auth: map<string, string>, hdrs: seq<string>) {
    forall j | 0 <= j < |hdrs| :: Lookup(auth, hdrs[j]) == AuthValue(v, hdrs[j])
  }

  /** A structured header with a string value, under a non-empty name. */
  predicate Collectable(v: Verdict, h: string) {
    h in v.add && h != "" && v.add[h].Structured? && v.add[h].value.Some?
  }

  /** `auth` holds exactly the values of the collectable headers among
      `names`. */
  predicate CollectedFrom(v: Verdict, names: seq<string>, auth: map<string, string>) {
    && (forall k | k in auth :: k in names && auth[k] == AuthValue(v, k) && k != "")
    && (forall j | 0 <= j < |names| && Collectable(v, names[j]) :: names[j] in auth)
  }

  predicate Collected(v: Verdict, order: MapOrder, auth: map<string, string>) {
    CollectedFrom(v, order.add, auth)
  }

  lemma CollectAdd(v: Verdict, names: seq<string>, auth: map<string, string>, h: string)
    requires CollectedFrom(v, names, auth) && Collectable(v, h)
    ensures CollectedFrom(v, names + [h], auth[h := v.add[h].value.value])
  {
  }

  lemma CollectSkip(v: Verdict, names: seq<string>, auth: map<string, string>, h: string)
    requires CollectedFrom(v, names, auth) && !Collectable(v, h)
    ensures CollectedFrom(v, names + [h], auth)
  {
  }

  /** Whether the structured value of `h` was collected, in terms of the
      verdict. */
  lemma AuthSeen(v: Verdict, order: MapOrder, auth: map<string, string>, h: string)
    requires IterationOf(order, v) && Collected(v, order, auth)
    requires h != ""
    ensures Lookup(auth, h) == AuthValue(v, h)
  {
    if Collectable(v, h) {
      EnumeratesMultiset(order.add, v.add.Keys);
      assert h in multiset(order.add);
    }
  }

  // ---------------------------------------------------------------------
  // Start-up

  const ConfigReady: string := "config|ready"

  /** skipConfig: consume input lines up to and including the first
      `config|ready`.  `next` is the position of the scanner afterwards;
      without that line the input runs out and the filter exits. */
  method SkipConfig(input: seq<string>) returns (found: bool, next: nat)
    ensures found <==> ConfigReady in input
    ensures found ==> 0 < next <= |input| && input[next - 1] == ConfigReady && ConfigReady !in input[..next - 1]
    ensures !found ==> next == |input|
  {
    next := 0;
    while next < |input|
      invariant 0 <= next <= |input|
      invariant ConfigReady !in input[..next]
    {
      var line := input[next];
      next := next + 1;
      if line == ConfigReady {
        assert input[..next] == input[..next - 1] + [line];
        return true, next;
      }
      assert input[..next] == input[..next - 1] + [line];
    }
    assert input[..next] == input;
    found := false;
  }

  /** The line registering one event of a stream. */
  function Register(stream: string, phase: string): string {
    "register|" + stream + "|smtp-in|" + phase
  }

  /** filterInit: one registration per report event and per filter event,
      each stream in its map's order, then `register|ready`. */
  method FilterInit(reports: seq<string>, filters: seq<string>) returns (lines: seq<string>)
    requires Enumerates(reports, ReportPhases) && Enumerates(filters, FilterPhases)
    ensures |lines| == |ReportPhases| + |FilterPhases| + 1
    ensures lines[|lines| - 1] == "register|ready"
    ensures forall p :: Register("report", p) in lines <==> p in ReportPhases
    ensures forall p :: Register("filter", p) in lines <==> p in FilterPhases
  {
    lines := [];
    var i := 0;
    while i < |reports|
      invariant 0 <= i <= |reports| && |lines| == i
      invariant forall j | 0 <= j < i :: lines[j] == Register("report", reports[j])
    {
      lines := lines + [Register("report", reports[i])];
      i := i + 1;
    }
    i := 0;
    while i < |filters|
      invariant 0 <= i <= |filters| && |lines| == |reports| + i
      invariant forall j | 0 <= j < |reports| :: lines[j] == Register("report", reports[j])
      invariant forall j | 0 <= j < i :: lines[|reports| + j] == Register("filter", filters[j])
    {
      lines := lines + [Register("filter", filters[i])];
      i := i + 1;
    }
    lines := lines + ["register|ready"];
    RegistrationsListed(lines, reports, filters);
  }

  /** Which phases the registration lines name. */
  lemma RegistrationsListed(lines: seq<string>, reports: seq<string>, filters: seq<string>)
    requires Enumerates(reports, ReportPhases) && Enumerates(filters, FilterPhases)
    requires |lines| == |reports| + |filters| + 1 && lines[|lines| - 1] == "register|ready"
    requires forall j | 0 <= j < |reports| :: lines[j] == Register("report", reports[j])
    requires forall j | 0 <= j < |filters| :: lines[|reports| + j] == Register("filter", filters[j])
    ensures forall p :: Register("report", p) in lines <==> p in ReportPhases
    ensures forall p :: Register("filter", p) in lines <==> p in FilterPhases
  {
    EnumeratesMultiset(reports, ReportPhases);
    EnumeratesMultiset(filters, FilterPhases);
    forall p ensures Register("report", p) in lines <==> p in ReportPhases {
      if p in ReportPhases {
        assert p in multiset(reports);
        var j :| 0 <= j < |reports| && reports[j] == p;
        assert lines[j] == Register("report", p);
      }
      if Register("report", p) in lines {
        var k :| 0 <= k < |lines| && lines[k] == Register("report", p);
        RegisterInjective("report", p, lines, k, reports, filters);
      }
    }
    forall p ensures Register("filter", p) in lines <==> p in FilterPhases {
      if p in FilterPhases {
        assert p in multiset(filters);
        var j :| 0 <= j < |filters| && filters[j] == p;
        assert lines[|reports| + j] == Register("filter", p);
      }
      if Register("filter", p) in lines {
        var k :| 0 <= k < |lines| && lines[k] == Register("filter", p);
        RegisterInjective("filter", p, lines, k, reports, filters);
      }
    }
  }

  /** A registration line found in the list names a phase of its own
      stream. */
  lemma RegisterInjective(stream: string, p: string, lines: seq<string>, k: nat,
                          reports: seq<string>, filters: seq<string>)
    requires stream == "report" || stream == "filter"
    requires Enumerates(reports, ReportPhases) && Enumerates(filters, FilterPhases)
    requires |lines| == |reports| + |filters| + 1 && lines[|lines| - 1] == "register|ready"
    requires forall j | 0 <= j < |reports| :: lines[j] == Register("report", reports[j])
    requires forall j | 0 <= j < |filters| :: lines[|reports| + j] == Register("filter", filters[j])
    requires k < |lines| && lines[k] == Register(stream, p)
    ensures stream == "report" ==> p in ReportPhases
    ensures stream == "filter" ==> p in FilterPhases
  {
    if k == |lines| - 1 {
      assert false;
    } else if k < |reports| {
      RegisterParts(stream, p, "report", reports[k]);
    } else {
      RegisterParts(stream, p, "filter", filters[k - |reports|]);
    }
  }

  /** A registration line determines its stream and its phase. */
  lemma RegisterParts(a: string, p: string, b: string, q: string)
    requires |a| == |b|
    requires Register(a, p) == Register(b, q)
    ensures a == b && p == q
  {
    var n := 9 + |a|;
    assert Register(a, p)[9..n] == a;
    assert Register(b, q)[9..n] == b;
    assert Register(a, p)[n + 9..] == p;
    assert Register(b, q)[n + 9..] == q;
  }
}
