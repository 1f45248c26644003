/** What each event of the daemon's stream does to the state the filter
    keeps for one SMTP session.  A function returns None where the filter
    gives up on its input (a parameter count it does not expect): the
    process then exits.  The `Filter` module's methods update a session
    object exactly as these functions say. */
module Events {
  import opened Text
  import opened Codec
  import opened Wrappers
  import opened Translator

  /** The transaction in progress: queue id, envelope, the message lines
      received so far (unescaped) and the disposition the analysis chose. */
  datatype Tx = Tx(
    msgid: string,
    mailFrom: string,
    rcptTo: seq<string>,
    message: seq<string>,
    action: string,
    response: string)

  const EmptyTx: Tx := Tx("", "", [], [], "", "")

  /** The fields of a session: its id, the client's reverse DNS name and
      address, HELO name, authenticated user, the server's name, and the
      transaction. */
  datatype SessionView = SessionView(
    id: string,
    rdns: string,
    src: string,
    heloName: string,
    userName: string,
    mtaName: string,
    tx: Tx)

  /** The state of a session just created for a `link-connect` event. */
  function NewSession(id: string): SessionView {
    SessionView(id, "", "", "", "", "", EmptyTx)
  }

  // ---------------------------------------------------------------------
  // Report events

  /** link-connect: `<rdns>|<fcrdns>|<src>|<dest>`. */
  function OnLinkConnect(st: SessionView, params: seq<string>): Option<SessionView> {
    if |params| != 4 then None else Some(st.(rdns := params[0], src := params[2]))
  }

  /** link-greeting: `<hostname>`, the server's own name. */
  function OnLinkGreeting(st: SessionView, params: seq<string>): Option<SessionView> {
    if |params| != 1 then None else Some(st.(mtaName := params[0]))
  }

  /** link-identify: `<method>|<helo name>`. */
  function OnLinkIdentify(st: SessionView, params: seq<string>): Option<SessionView> {
    if |params| != 2 then None else Some(st.(heloName := params[1]))
  }

  /** link-auth: `<user>|<result>`; the user is recorded only on `pass`. */
  function OnLinkAuth(st: SessionView, params: seq<string>): Option<SessionView> {
    if |params| != 2 then None
    else if params[1] != "pass" then Some(st)
    else Some(st.(userName := params[0]))
  }

  /** tx-reset: `<msgid>`; the transaction is forgotten. */
  function OnTxReset(st: SessionView, params: seq<string>): Option<SessionView> {
    if |params| != 1 then None else Some(st.(tx := EmptyTx))
  }

  /** tx-begin: `<msgid>`. */
  function OnTxBegin(st: SessionView, params: seq<string>): Option<SessionView> {
    if |params| != 1 then None else Some(st.(tx := st.tx.(msgid := params[0])))
  }

  /** tx-mail: the sender is recorded when its status is `ok`. */
  function OnTxMail(version: string, st: SessionView, params: seq<string>): Option<SessionView> {
    if |params| < 3 then None
    else
      var (status, address) := Envelope(version, params);
      if status != "ok" then Some(st) else Some(st.(tx := st.tx.(mailFrom := address)))
  }

  /** tx-rcpt: an accepted recipient is appended. */
  function OnTxRcpt(version: string, st: SessionView, params: seq<string>): Option<SessionView> {
    if |params| < 3 then None
    else
      var (status, address) := Envelope(version, params);
      if status != "ok" then Some(st) else Some(st.(tx := st.tx.(rcptTo := st.tx.rcptTo + [address])))
  }

  /** The report events that change one session in place, by phase name;
      None for a fatal parameter count or a phase that is not one of them. */
  function OnReport(version: string, phase: string, st: SessionView, params: seq<string>): Option<SessionView> {
    if phase == "link-connect" then OnLinkConnect(st, params)
    else if phase == "link-greeting" then OnLinkGreeting(st, params)
    else if phase == "link-identify" then OnLinkIdentify(st, params)
    else if phase == "link-auth" then OnLinkAuth(st, params)
    else if phase == "tx-reset" then OnTxReset(st, params)
    else if phase == "tx-begin" then OnTxBegin(st, params)
    else if phase == "tx-mail" then OnTxMail(version, st, params)
    else if phase == "tx-rcpt" then OnTxRcpt(version, st, params)
    else None
  }

  // ---------------------------------------------------------------------
  // data-line

  /** data-line: `<token>|<line>`.  The lone `.` ends the message and
      starts the analysis (the state is unchanged); any other line is
      unescaped and appended. */
  function OnDataLine(st: SessionView, params: seq<string>): Option<SessionView> {
    if |params| < 2 then None
    else
      var text := DataLineText(params);
      if text == "." then Some(st)
      else Some(st.(tx := st.tx.(message := st.tx.message + [Unescape(text)])))
  }

  /** The data-line parameters the daemon sends for one line of text. */
  function DataLineParams(token: string, text: string): seq<string> {
    [token] + Split(text, '|')
  }

  /** A run of data-line events carrying `texts`, one after the other. */
  function FeedData(st: SessionView, token: string, texts: seq<string>): Option<SessionView>
    decreases |texts|
  {
    if |texts| == 0 then Some(st)
    else match OnDataLine(st, DataLineParams(token, texts[0]))
      case None => None
      case Some(st') => FeedData(st', token, texts[1..])
  }

  // ---------------------------------------------------------------------
  // Properties

  /** Only the four-parameter form of link-connect is accepted, and it
      records the reverse name and the source address, nothing else. */
  lemma ConnectRecordsPeer(st: SessionView, params: seq<string>)
    ensures OnLinkConnect(st, params).Some? <==> |params| == 4
    ensures OnLinkConnect(st, params).Some? ==>
      var st' := OnLinkConnect(st, params).value;
      st'.rdns == params[0] && st'.src == params[2]
      && st'.(rdns := st.rdns, src := st.src) == st
  {
  }

  /** A failed authentication leaves the session untouched; a successful
      one records the user and nothing else. */
  lemma AuthRecordedOnPass(st: SessionView, user: string, result: string)
    ensures var st' := OnLinkAuth(st, [user, result]);
      && st'.Some?
      && (st'.value != st ==> result == "pass" && st'.value.userName == user)
      && (result == "pass" ==> st'.value == st.(userName := user))
  {
  }

  /** Whatever the transaction held, tx-reset leaves none of it, and the
      session's own fields are kept. */
  lemma ResetForgets(st: SessionView, msgid: string)
    ensures var st' := OnTxReset(st, [msgid]).value;
      st'.tx == EmptyTx && st'.(tx := st.tx) == st
      && |st'.tx.rcptTo| == 0 && |st'.tx.message| == 0
  {
  }

  /** The sender the daemon announces is recorded verbatim in either
      parameter layout, even when it holds `|`. */
  lemma MailFromRoundTrip(version: string, st: SessionView, msgid: string, address: string)
    ensures var params := if LegacyEnvelope(version) then [msgid] + Split(address, '|') + ["ok"]
                          else [msgid, "ok"] + Split(address, '|');
      && OnTxMail(version, st, params) == Some(st.(tx := st.tx.(mailFrom := address)))
  {
    if LegacyEnvelope(version) {
      EnvelopeLegacy(version, msgid, address, "ok");
    } else {
      EnvelopeCurrent(version, msgid, address, "ok");
    }
  }

  /** A sender whose status is not `ok` is ignored. */
  lemma RejectedMailIgnored(version: string, st: SessionView, msgid: string, address: string, status: string)
    requires status != "ok"
    ensures var params := if LegacyEnvelope(version) then [msgid] + Split(address, '|') + [status]
                          else [msgid, status] + Split(address, '|');
      && OnTxMail(version, st, params) == Some(st)
      && OnTxRcpt(version, st, params) == Some(st)
  {
    if LegacyEnvelope(version) {
      EnvelopeLegacy(version, msgid, address, status);
    } else {
      EnvelopeCurrent(version, msgid, address, status);
    }
  }

  /** An accepted recipient is appended after those already recorded. */
  lemma RcptAppends(version: string, st: SessionView, msgid: string, address: string)
    ensures var params := if LegacyEnvelope(version) then [msgid] + Split(address, '|') + ["ok"]
                          else [msgid, "ok"] + Split(address, '|');
      var st' := OnTxRcpt(version, st, params);
      && st'.Some?
      && st'.value.tx.rcptTo == st.tx.rcptTo + [address]
      && st'.value.(tx := st'.value.tx.(rcptTo := st.tx.rcptTo)) == st
  {
    if LegacyEnvelope(version) {
      EnvelopeLegacy(version, msgid, address, "ok");
    } else {
      EnvelopeCurrent(version, msgid, address, "ok");
    }
  }

  /** A data-line event whose text holds `|` still appends the exact line. */
  lemma DataLineVerbatimText(st: SessionView, token: string, text: string)
    requires text != "."
    ensures OnDataLine(st, DataLineParams(token, text))
         == Some(st.(tx := st.tx.(message := st.tx.message + [Unescape(text)])))
  {
    assert DataLineParams(token, text)[1..] == Split(text, '|');
    JoinSplit(text, '|');
  }

  /** The round trip through the daemon: feeding the dot-stuffed lines of a
      message appends exactly that message to the transaction, and the
      session's other state is kept. */
  lemma {:induction false} FeedMessage(st: SessionView, token: string, message: seq<string>)
    ensures FeedData(st, token, EscapeAll(message)) == Some(Appended(st, message))
    decreases |message|
  {
    if |message| > 0 {
      FeedOne(st, token, message);
      FeedMessage(Appended(st, message[..1]), token, message[1..]);
      assert Appended(Appended(st, message[..1]), message[1..]) == Appended(st, message) by {
        assert st.tx.message + message[..1] + message[1..] == st.tx.message + message;
      }
    } else {
      assert st.tx.message + message == st.tx.message;
    }
  }

  /** The session with `lines` appended to the transaction's message. */
  function Appended(st: SessionView, lines: seq<string>): SessionView {
    st.(tx := st.tx.(message := st.tx.message + lines))
  }

  /** The first stuffed line appends the line it stands for. */
  lemma FeedOne(st: SessionView, token: string, message: seq<string>)
    requires |message| > 0
    ensures FeedData(st, token, EscapeAll(message))
         == FeedData(Appended(st, message[..1]), token, EscapeAll(message[1..]))
  {
    var texts := EscapeAll(message);
    assert texts[1..] == EscapeAll(message[1..]);
    EscapeRoundTrip(message[0]);
    DataLineVerbatimText(st, token, texts[0]);
    assert message[..1] == [message[0]];
  }

  /** The end-of-data line leaves the session as it was. */
  lemma EndOfDataKeeps(st: SessionView, token: string)
    ensures OnDataLine(st, DataLineParams(token, ".")) == Some(st)
  {
    assert DataLineParams(token, ".")[1..] == Split(".", '|');
    JoinSplit(".", '|');
  }

  // ---------------------------------------------------------------------
  // Dispatch of one input line

  /** Why the filter gives up on its input and exits. */
  datatype Fatal = MissingAtoms | InvalidStream | InvalidSession | InvalidPhase | InvalidInput

  /** The events registered on the report stream and on the filter stream. */
  const ReportPhases: set<string> :=
    {"link-connect", "link-disconnect", "link-greeting", "link-identify", "link-auth",
     "tx-reset", "tx-begin", "tx-mail", "tx-rcpt"}
  const FilterPhases: set<string> := {"data-line", "commit"}

  /** The parameter counts each handler accepts. */
  predicate ArityOk(phase: string, n: nat) {
    match phase
    case "link-connect" => n == 4
    case "link-disconnect" => n == 0
    case "link-greeting" => n == 1
    case "link-identify" => n == 2
    case "link-auth" => n == 2
    case "tx-reset" => n == 1
    case "tx-begin" => n == 1
    case "tx-mail" => n >= 3
    case "tx-rcpt" => n >= 3
    case "data-line" => n >= 2
    case "commit" => n == 2
    case _ => false
  }

  /** What one accepted line does: the sessions afterwards, the lines
      written back to the daemon, and the token of an analysis to start. */
  datatype Step = Step(registry: map<string, SessionView>, emitted: seq<string>, query: Option<string>)

  /** One input line: split on `|`; at least six atoms (stream, version,
      timestamp, subsystem, phase, session id); the stream selects the
      handler table. */
  function Route(line: string, registry: map<string, SessionView>): Result<Step, Fatal> {
    var atoms := Split(line, '|');
    if |atoms| < 6 then Failure(MissingAtoms)
    else if atoms[0] == "report" then Trigger(false, atoms, registry)
    else if atoms[0] == "filter" then Trigger(true, atoms, registry)
    else Failure(InvalidStream)
  }

  /** A line of a known stream: link-connect first installs a fresh session
      under its id; then the session must exist, and the phase must be one
      of the stream's. */
  function Trigger(filtering: bool, atoms: seq<string>, registry: map<string, SessionView>): Result<Step, Fatal>
    requires |atoms| >= 6
  {
    var version, phase, id, params := atoms[1], atoms[4], atoms[5], atoms[6..];
    var reg := if phase == "link-connect" then registry[id := NewSession(id)] else registry;
    if id !in reg then Failure(InvalidSession)
    else if phase !in (if filtering then FilterPhases else ReportPhases) then Failure(InvalidPhase)
    else if !filtering then ReportStep(version, phase, id, params, reg)
    else FilterStep(version, phase, id, params, reg)
  }

  /** A report event for a registered session. */
  function ReportStep(version: string, phase: string, id: string, params: seq<string>,
                      reg: map<string, SessionView>): Result<Step, Fatal>
    requires id in reg
  {
    if phase == "link-disconnect" then
      if |params| != 0 then Failure(InvalidInput) else Success(Step(reg - {id}, [], None))
    else
      match OnReport(version, phase, reg[id], params)
      case None => Failure(InvalidInput)
      case Some(st) => Success(Step(reg[id := st], [], None))
  }

  /** A filter event (data-line or commit) for a registered session. */
  function FilterStep(version: string, phase: string, id: string, params: seq<string>,
                      reg: map<string, SessionView>): Result<Step, Fatal>
    requires id in reg
  {
    if phase == "data-line" then
      match OnDataLine(reg[id], params)
      case None => Failure(InvalidInput)
      case Some(st) =>
        Success(Step(reg[id := st], [], if DataLineText(params) == "." then Some(params[0]) else None))
    else
      if |params| != 2 then Failure(InvalidInput)
      else
        var st := reg[id];
        var (payload, kept) := CommitReply(st.tx.action, st.tx.response);
        Success(Step(reg[id := st.(tx := st.tx.(response := kept))],
                     [Frame(version, "filter-result", id, params[0], payload)], None))
  }

  /** Whatever sessions exist, a line fails with MissingAtoms exactly when
      it has fewer than six atoms, and with InvalidStream exactly when its
      stream is neither report nor filter. */
  lemma MalformedLineFatal(line: string, registry: map<string, SessionView>)
    ensures Route(line, registry) == Failure(MissingAtoms) <==> |Split(line, '|')| < 6
    ensures Route(line, registry) == Failure(InvalidStream)
        <==> |Split(line, '|')| >= 6 && Split(line, '|')[0] != "report" && Split(line, '|')[0] != "filter"
  {
  }

  /** An event for a session id that is not registered is fatal, except
      link-connect, which registers it. */
  lemma UnknownSessionFatal(filtering: bool, atoms: seq<string>, registry: map<string, SessionView>)
    requires |atoms| >= 6
    requires atoms[4] != "link-connect" && atoms[5] !in registry
    ensures Trigger(filtering, atoms, registry) == Failure(InvalidSession)
  {
  }

  /** For a registered session (or a link-connect), the line is accepted
      exactly when the phase belongs to the stream and the parameter count
      is the handler's; otherwise the failure names which. */
  lemma HandlerArity(filtering: bool, atoms: seq<string>, registry: map<string, SessionView>)
    requires |atoms| >= 6
    requires atoms[4] == "link-connect" || atoms[5] in registry
    ensures var phase, n := atoms[4], |atoms| - 6;
      && (phase !in (if filtering then FilterPhases else ReportPhases) <==> Trigger(filtering, atoms, registry) == Failure(InvalidPhase))
      && (Trigger(filtering, atoms, registry).Success? <==>
            phase in (if filtering then FilterPhases else ReportPhases) && ArityOk(phase, n))
  {
  }

  /** link-connect replaces whatever the id held by a fresh session holding
      the peer's names, and leaves every other session alone. */
  lemma ConnectInstallsFresh(atoms: seq<string>, registry: map<string, SessionView>)
    requires |atoms| == 10 && atoms[4] == "link-connect"
    ensures var r := Trigger(false, atoms, registry);
      && r.Success?
      && r.value.registry == registry[atoms[5] := NewSession(atoms[5]).(rdns := atoms[6], src := atoms[8])]
      && r.value.emitted == [] && r.value.query == None
  {
  }

  /** link-disconnect forgets the session and nothing else. */
  lemma DisconnectRemoves(atoms: seq<string>, registry: map<string, SessionView>)
    requires |atoms| == 6 && atoms[4] == "link-disconnect" && atoms[5] in registry
    ensures var r := Trigger(false, atoms, registry);
      && r.Success?
      && r.value.registry == registry - {atoms[5]}
      && atoms[5] !in r.value.registry
  {
  }

  /** An accepted line changes at most the session it names, and only
      link-connect adds and link-disconnect removes a session. */
  lemma OthersUntouched(filtering: bool, atoms: seq<string>, registry: map<string, SessionView>)
    requires |atoms| >= 6
    requires Trigger(filtering, atoms, registry).Success?
    ensures var reg := Trigger(filtering, atoms, registry).value.registry;
      && (forall k | k in registry && k != atoms[5] :: k in reg && reg[k] == registry[k])
      && (forall k | k in reg && k != atoms[5] :: k in registry)
      && (atoms[5] in reg <==>
            atoms[4] != "link-disconnect" && (atoms[5] in registry || atoms[4] == "link-connect"))
      && (atoms[5] in reg ==> reg[atoms[5]].id == atoms[5] || (atoms[5] in registry && reg[atoms[5]].id == registry[atoms[5]].id))
  {
  }

  /** Only a commit writes back to the daemon, and then exactly one
      `filter-result` line for the transaction's disposition; only the end
      of the data starts an analysis, under the data-line's token. */
  lemma Replies(filtering: bool, atoms: seq<string>, registry: map<string, SessionView>)
    requires |atoms| >= 6
    requires Trigger(filtering, atoms, registry).Success?
    ensures var step := Trigger(filtering, atoms, registry).value;
      && (|step.emitted| > 0 ==> filtering && atoms[4] == "commit")
      && (filtering && atoms[4] == "commit" ==>
            var tx := registry[atoms[5]].tx;
            step.emitted == [Frame(atoms[1], "filter-result", atoms[5], atoms[6], CommitReply(tx.action, tx.response).0)])
      && (step.query.Some? <==> filtering && atoms[4] == "data-line" && DataLineText(atoms[6..]) == ".")
      && (step.query.Some? ==> step.query.value == atoms[6])
  {
  }
}
