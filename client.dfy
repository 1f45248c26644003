/** The metadata the filter sends to Rspamd with a message, as request
    header fields: the session's peer and names, the envelope, and the
    address reported in the `Ip` field, derived from the session's source
    address as link-connect gave it. */
module Client {
  import opened Text
  import opened Events

  const Loopback: string := "127.0.0.1"

  /** A unix-socket peer is reported as the loopback address; a bracketed
      address gives the text between the brackets; otherwise the address
      is the text before the first `:`.  The source address must not be
      empty (its first character is inspected). */
  function Ip(src: string): (ip: string)
    requires |src| > 0
    ensures !HasPrefix(src, "unix:") && src[0] == '[' ==> '[' !in ip
    ensures !HasPrefix(src, "unix:") && src[0] != '[' ==>
      HasPrefix(src, ip) && ':' !in ip && (ip == src || src[|ip|] == ':')
  {
    if HasPrefix(src, "unix:") then Loopback
    else if src[0] == '[' then
      var inner := Split(src, ']')[0];
      BracketPieces(src);
      SplitPiecesFree(inner, '[');
      Split(inner, '[')[1]
    else
      SplitPrefix(src, ':');
      Split(src, ':')[0]
  }

  /** The text before the first `]` of a string that opens with `[`
      splits on `[` into at least two pieces. */
  lemma BracketPieces(src: string)
    requires |src| > 0 && src[0] == '['
    ensures |Split(Split(src, ']')[0], '[')| >= 2
  {
    SplitHead(src, ']');
    var inner := Split(src, ']')[0];
    SplitLeading(inner, '[');
  }

  /** Every unix-socket peer is the loopback address. */
  lemma IpUnix(path: string)
    ensures Ip("unix:" + path) == Loopback
  {
    assert ("unix:" + path)[..5] == "unix:";
  }

  /** A bracketed address, with or without a port after it, gives the
      address inside the brackets. */
  lemma IpBracketed(host: string, rest: string)
    requires '[' !in host && ']' !in host
    ensures Ip("[" + host + "]" + rest) == host
  {
    var src := "[" + host + "]" + rest;
    assert !HasPrefix(src, "unix:") by { assert src[0] == '['; }
    assert src == ("[" + host) + [']'] + rest;
    SplitFirst("[" + host, ']', rest);
    SplitLeading("[" + host, '[');
    assert ("[" + host)[1..] == host;
    SplitFree(host, '[');
  }

  /** `host:port` gives the host, provided the host is not itself written
      in brackets and is not the word `unix`. */
  lemma IpHostPort(host: string, port: string)
    requires |host| > 0 && host[0] != '[' && ':' !in host && host != "unix"
    ensures Ip(host + ":" + port) == host
  {
    var src := host + ":" + port;
    assert src == host + [':'] + port;
    NotUnix(host, port);
    SplitFirst(host, ':', port);
  }

  /** A host without `:` that is not `unix` never makes `host:port` start
      with `unix:`. */
  lemma NotUnix(host: string, port: string)
    requires ':' !in host && host != "unix"
    ensures !HasPrefix(host + ":" + port, "unix:")
  {
    var src := host + ":" + port;
    if |src| >= 5 {
      if |host| >= 5 {
        assert src[..5][4] == host[4];
        assert src[..5][4] != "unix:"[4];
      } else if |host| == 4 {
        assert src[..5][..4] == host;
        assert src[..5][..4] != "unix:"[..4];
      } else {
        assert src[..5][|host|] == ':';
        assert "unix:"[|host|] != ':';
      }
    }
  }

  // ---------------------------------------------------------------------
  // Request header fields

  /** The request header fields the filter sets. */
  datatype FieldName = Pass | IpField | Hostname | Helo | MtaName | QueueId | From | SettingsId | User | Rcpt

  /** The name the code passes to `Header.Add` (Go canonicalises it on the
      wire, e.g. `Mta-Name`, `Settings-Id`). */
  function NameText(n: FieldName): string {
    match n
    case Pass => "Pass"
    case IpField => "Ip"
    case Hostname => "Hostname"
    case Helo => "Helo"
    case MtaName => "MTA-Name"
    case QueueId => "Queue-Id"
    case From => "From"
    case SettingsId => "Settings-ID"
    case User => "User"
    case Rcpt => "Rcpt"
  }

  /** One request header field. */
  datatype Field = Field(name: FieldName, value: string)

  /** The values of the fields called `name`, in order. */
  function Named(fields: seq<Field>, name: FieldName): seq<string>
    decreases |fields|
  {
    if |fields| == 0 then []
    else (if fields[0].name == name then [fields[0].value] else []) + Named(fields[1..], name)
  }

  /** A field sent only when its value is not empty. */
  function Optional(name: FieldName, value: string): seq<Field> {
    if value != "" then [Field(name, value)] else []
  }

  /** One `Rcpt` field per recipient, in order. */
  function RcptFields(rcpts: seq<string>): (fs: seq<Field>)
    ensures |fs| == |rcpts|
    decreases |rcpts|
  {
    if |rcpts| == 0 then [] else [Field(Rcpt, rcpts[0])] + RcptFields(rcpts[1..])
  }

  /** The header fields of the request for a session's transaction:
      `Pass: All`, the peer's address, reverse name, HELO name, the
      server's name, the queue id and the sender; then the settings id and
      the authenticated user when they are set; then every recipient. */
  function RequestFields(st: SessionView, settingsId: string): seq<Field>
    requires |st.src| > 0
  {
    FixedFields(st, Ip(st.src))
    + Optional(SettingsId, settingsId)
    + Optional(User, st.userName)
    + RcptFields(st.tx.rcptTo)
  }

  /** The fields every request carries, with `ip` in the `Ip` field. */
  function FixedFields(st: SessionView, ip: string): seq<Field> {
    [Field(Pass, "All"), Field(IpField, ip), Field(Hostname, st.rdns),
     Field(Helo, st.heloName), Field(MtaName, st.mtaName),
     Field(QueueId, st.tx.msgid), Field(From, st.tx.mailFrom)]
  }

  lemma {:induction false} NamedAppend(a: seq<Field>, b: seq<Field>, name: FieldName)
    ensures Named(a + b, name) == Named(a, name) + Named(b, name)
    decreases |a|
  {
    if |a| == 0 {
      assert a + b == b;
    } else {
      assert (a + b)[1..] == a[1..] + b;
      NamedAppend(a[1..], b, name);
    }
  }

  lemma {:induction false} RcptNamed(rcpts: seq<string>, name: FieldName)
    ensures Named(RcptFields(rcpts), name) == if name == Rcpt then rcpts else []
    decreases |rcpts|
  {
    if |rcpts| > 0 {
      RcptNamed(rcpts[1..], name);
      assert RcptFields(rcpts)[1..] == RcptFields(rcpts[1..]);
      if name == Rcpt {
        assert [rcpts[0]] + rcpts[1..] == rcpts;
      }
    }
  }

  /** A name that no field carries has no values. */
  lemma {:induction false} NamedNone(fs: seq<Field>, name: FieldName)
    requires forall i | 0 <= i < |fs| :: fs[i].name != name
    ensures Named(fs, name) == []
    decreases |fs|
  {
    if |fs| > 0 {
      NamedNone(fs[1..], name);
    }
  }

  /** A name that exactly one field carries has that field's value. */
  lemma NamedOnce(fs: seq<Field>, k: nat, name: FieldName)
    requires k < |fs| && fs[k].name == name
    requires forall i | 0 <= i < |fs| && i != k :: fs[i].name != name
    ensures Named(fs, name) == [fs[k].value]
  {
    assert fs == fs[..k] + ([fs[k]] + fs[k + 1..]);
    NamedAppend(fs[..k], [fs[k]] + fs[k + 1..], name);
    NamedAppend([fs[k]], fs[k + 1..], name);
    NamedNone(fs[..k], name);
    NamedNone(fs[k + 1..], name);
  }

  lemma OptionalNamed(name: FieldName, value: string, n: FieldName)
    ensures Named(Optional(name, value), n) == if n == name && value != "" then [value] else []
  {
    if value != "" {
      assert Optional(name, value)[1..] == [];
    }
  }

  /** Each fixed field carries its own piece of session state, once. */
  lemma FixedNamed(st: SessionView, ip: string, name: FieldName)
    ensures Named(FixedFields(st, ip), name)
         == match name
            case Pass => ["All"]
            case IpField => [ip]
            case Hostname => [st.rdns]
            case Helo => [st.heloName]
            case MtaName => [st.mtaName]
            case QueueId => [st.tx.msgid]
            case From => [st.tx.mailFrom]
            case _ => []
  {
    var fs := FixedFields(st, ip);
    match name
    case Pass => NamedOnce(fs, 0, name);
    case IpField => NamedOnce(fs, 1, name);
    case Hostname => NamedOnce(fs, 2, name);
    case Helo => NamedOnce(fs, 3, name);
    case MtaName => NamedOnce(fs, 4, name);
    case QueueId => NamedOnce(fs, 5, name);
    case From => NamedOnce(fs, 6, name);
    case _ => NamedNone(fs, name);
  }

  /** What Rspamd can read from the request under each name: the fixed
      fields once each, the peer's address as `Ip` derives it, the settings
      id and the user exactly when they are set, and the recipients in
      order. */
  lemma RequestContents(st: SessionView, settingsId: string, name: FieldName)
    requires |st.src| > 0
    ensures Named(RequestFields(st, settingsId), name)
         == match name
            case Pass => ["All"]
            case IpField => [Ip(st.src)]
            case Hostname => [st.rdns]
            case Helo => [st.heloName]
            case MtaName => [st.mtaName]
            case QueueId => [st.tx.msgid]
            case From => [st.tx.mailFrom]
            case SettingsId => if settingsId != "" then [settingsId] else []
            case User => if st.userName != "" then [st.userName] else []
            case Rcpt => st.tx.rcptTo
  {
    RequestNamed(st, settingsId, name);
    FixedNamed(st, Ip(st.src), name);
    OptionalNamed(SettingsId, settingsId, name);
    OptionalNamed(User, st.userName, name);
    RcptNamed(st.tx.rcptTo, name);
    JoinParts(Named(FixedFields(st, Ip(st.src)), name), Named(Optional(SettingsId, settingsId), name),
              Named(Optional(User, st.userName), name), Named(RcptFields(st.tx.rcptTo), name));
  }

  /** Four parts of which at most one is non-empty join to that one. */
  lemma JoinParts<T>(a: seq<T>, b: seq<T>, c: seq<T>, d: seq<T>)
    ensures b == [] && c == [] && d == [] ==> a + b + c + d == a
    ensures a == [] && c == [] && d == [] ==> a + b + c + d == b
    ensures a == [] && b == [] && d == [] ==> a + b + c + d == c
    ensures a == [] && b == [] && c == [] ==> a + b + c + d == d
  {
  }

  /** The request's values under one name, part by part. */
  lemma RequestNamed(st: SessionView, settingsId: string, name: FieldName)
    requires |st.src| > 0
    ensures Named(RequestFields(st, settingsId), name)
         == Named(FixedFields(st, Ip(st.src)), name)
          + Named(Optional(SettingsId, settingsId), name)
          + Named(Optional(User, st.userName), name)
          + Named(RcptFields(st.tx.rcptTo), name)
  {
    var fixed := FixedFields(st, Ip(st.src));
    var settings := Optional(SettingsId, settingsId);
    var user := Optional(User, st.userName);
    var rcpts := RcptFields(st.tx.rcptTo);
    NamedAppend(fixed, settings, name);
    NamedAppend(fixed + settings, user, name);
    NamedAppend(fixed + settings + user, rcpts, name);
  }
}
