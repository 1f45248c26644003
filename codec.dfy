/** The filter protocol's line codec: the pipe-separated egress framing
    whose field order depends on the protocol version, the version-dependent
    layout of `tx-mail`/`tx-rcpt` events, the verbatim re-joining of a
    `data-line` payload, and SMTP dot-stuffing (the transparency rule of
    section 4.5.2 of RFC 5321). */
module Codec {
  import opened Text
  import opened Wrappers

  /** Protocol versions below this one put the token before the session id
      in egress lines. */
  const FramingSwapBefore: string := "0.5"

  /** Protocol versions below this one carry the status of `tx-mail` and
      `tx-rcpt` as the last field instead of the second. */
  const EnvelopeLayoutBefore: string := "0.6"

  /** The version comparison is Go's string comparison, not a numeric one. */
  predicate LegacyFraming(version: string) {
    Less(version, FramingSwapBefore)
  }

  predicate LegacyEnvelope(version: string) {
    Less(version, EnvelopeLayoutBefore)
  }

  // ---------------------------------------------------------------------
  // Egress framing (produceOutput)

  /** One egress line: `kind|session|token|payload`, or
      `kind|token|session|payload` for versions below 0.5. */
  function Frame(version: string, kind: string, id: string, token: string, payload: string): string {
    (if LegacyFraming(version) then kind + "|" + token + "|" + id else kind + "|" + id + "|" + token)
    + "|" + payload
  }

  /** The egress lines for a run of payloads of one kind, session and token. */
  function Frames(version: string, kind: string, id: string, token: string, payloads: seq<string>): (r: seq<string>)
    ensures |r| == |payloads|
    decreases |payloads|
  {
    if |payloads| == 0 then []
    else Frames(version, kind, id, token, payloads[..|payloads| - 1])
         + [Frame(version, kind, id, token, payloads[|payloads| - 1])]
  }

  /** Each payload is framed on its own line, in order. */
  lemma {:induction false} FramesIndex(version: string, kind: string, id: string, token: string, payloads: seq<string>)
    ensures forall i | 0 <= i < |payloads| ::
      Frames(version, kind, id, token, payloads)[i] == Frame(version, kind, id, token, payloads[i])
    decreases |payloads|
  {
    if |payloads| > 0 {
      FramesIndex(version, kind, id, token, payloads[..|payloads| - 1]);
    }
  }

  /** Framing two runs of payloads is framing each. */
  lemma {:induction false} FramesAppend(version: string, kind: string, id: string, token: string, a: seq<string>, b: seq<string>)
    ensures Frames(version, kind, id, token, a + b)
         == Frames(version, kind, id, token, a) + Frames(version, kind, id, token, b)
    decreases |b|
  {
    if |b| == 0 {
      assert a + b == a;
    } else {
      var last := |b| - 1;
      assert (a + b)[..|a + b| - 1] == a + b[..last];
      FramesAppend(version, kind, id, token, a, b[..last]);
    }
  }

  /** One more payload adds one line. */
  lemma FramesSnoc(version: string, kind: string, id: string, token: string, a: seq<string>, x: string)
    ensures Frames(version, kind, id, token, a + [x])
         == Frames(version, kind, id, token, a) + [Frame(version, kind, id, token, x)]
  {
    assert (a + [x])[..|a|] == a;
  }

  /** Output that already holds the lines for `a` and then gets the line
      for `x` holds the lines for `a + [x]`. */
  lemma SentOne(version: string, kind: string, id: string, token: string, o: seq<string>, a: seq<string>, x: string)
    ensures o + Frames(version, kind, id, token, a) + [Frame(version, kind, id, token, x)]
         == o + Frames(version, kind, id, token, a + [x])
  {
    FramesSnoc(version, kind, id, token, a, x);
  }

  /** One line is the lines of one payload. */
  lemma SentFirst(version: string, kind: string, id: string, token: string, o: seq<string>, x: string)
    ensures o + [Frame(version, kind, id, token, x)] == o + Frames(version, kind, id, token, [x])
  {
    assert [x][..0] == [];
  }

  /** Two lines added one after the other are the lines of two payloads. */
  lemma SentTwo(version: string, kind: string, id: string, token: string, o: seq<string>, x: string, y: string)
    ensures o + [Frame(version, kind, id, token, x)] + [Frame(version, kind, id, token, y)]
         == o + Frames(version, kind, id, token, [x, y])
  {
    assert [x, y][..1] == [x];
    assert [x][..0] == [];
  }

  /** Output that already holds the lines for `a` and then gets those for
      `b` holds the lines for `a + b`. */
  lemma SentMore(version: string, kind: string, id: string, token: string, o: seq<string>, a: seq<string>, b: seq<string>)
    ensures o + Frames(version, kind, id, token, a) + Frames(version, kind, id, token, b)
         == o + Frames(version, kind, id, token, a + b)
  {
    FramesAppend(version, kind, id, token, a, b);
  }

  /** Reading an egress line back: splitting it on `|` gives the kind, the
      session id and the token in the version's order, and the remaining
      fields re-join to the payload, whatever `|` the payload holds. */
  lemma {:induction false} FrameFields(version: string, kind: string, id: string, token: string, payload: string)
    requires '|' !in kind && '|' !in id && '|' !in token
    ensures var f := Split(Frame(version, kind, id, token, payload), '|');
      && |f| >= 4
      && f[0] == kind
      && (LegacyFraming(version) ==> f[1] == token && f[2] == id)
      && (!LegacyFraming(version) ==> f[1] == id && f[2] == token)
      && Join(f[3..], "|") == payload
  {
    var first, second := if LegacyFraming(version) then token else id, if LegacyFraming(version) then id else token;
    var line := Frame(version, kind, id, token, payload);
    assert line == kind + ['|'] + (first + ['|'] + (second + ['|'] + payload));
    SplitConcat(kind, '|', first + ['|'] + (second + ['|'] + payload));
    SplitConcat(first, '|', second + ['|'] + payload);
    SplitConcat(second, '|', payload);
    SplitFree(kind, '|');
    SplitFree(first, '|');
    SplitFree(second, '|');
    var f := Split(line, '|');
    assert f == [kind, first, second] + Split(payload, '|');
    assert f[3..] == Split(payload, '|');
    JoinSplit(payload, '|');
  }

  /** The thresholds as Go compares them; "0.10" sorts below "0.5". */
  lemma VersionOrder()
    ensures LegacyFraming("0.4") && !LegacyFraming("0.5") && !LegacyFraming("0.6")
    ensures LegacyEnvelope("0.5") && !LegacyEnvelope("0.6") && !LegacyEnvelope("0.7")
    ensures LegacyFraming("") && LegacyFraming("0.10")
  {
    assert Less("0.4", "0.5") by { assert "0.4"[1..] == ".4" && "0.5"[1..] == ".5"; assert ".4"[1..] == "4"; }
  }

  // ---------------------------------------------------------------------
  // tx-mail / tx-rcpt fields

  /** The status and the address of a `tx-mail` or `tx-rcpt` event, from
      the parameters after the session id (the first one is the token or
      message id and is not used). */
  function Envelope(version: string, params: seq<string>): (r: (string, string))
    requires |params| >= 3
  {
    if LegacyEnvelope(version) then
      (params[|params| - 1], Join(params[1..|params| - 1], "|"))
    else
      (params[1], Join(params[2..], "|"))
  }

  /** Before 0.6 the daemon sends `<id>|<address>|<status>`: the address is
      recovered verbatim even when it holds `|`. */
  lemma EnvelopeLegacy(version: string, first: string, address: string, status: string)
    requires LegacyEnvelope(version)
    ensures |[first] + Split(address, '|') + [status]| >= 3
    ensures Envelope(version, [first] + Split(address, '|') + [status]) == (status, address)
  {
    var params := [first] + Split(address, '|') + [status];
    assert params[1..|params| - 1] == Split(address, '|');
    JoinSplit(address, '|');
  }

  /** From 0.6 on the daemon sends `<id>|<status>|<address>`. */
  lemma EnvelopeCurrent(version: string, first: string, address: string, status: string)
    requires !LegacyEnvelope(version)
    ensures |[first, status] + Split(address, '|')| >= 3
    ensures Envelope(version, [first, status] + Split(address, '|')) == (status, address)
  {
    var params := [first, status] + Split(address, '|');
    assert params[2..] == Split(address, '|');
    JoinSplit(address, '|');
  }

  // ---------------------------------------------------------------------
  // data-line payloads

  /** The raw SMTP line of a `data-line` event: every field after the token,
      re-joined with `|`. */
  function DataLineText(params: seq<string>): string
    requires |params| >= 2
  {
    Join(params[1..], "|")
  }

  /** An ingress `data-line` event, split on `|` as the dispatcher does,
      yields the seven header fields and, re-joined, the exact text of the
      line, whatever `|` it holds. */
  lemma {:induction false} DataLineVerbatim(fields: seq<string>, text: string)
    requires |fields| == 7
    requires forall i | 0 <= i < 7 :: '|' !in fields[i]
    ensures var atoms := Split(Join(fields, "|") + "|" + text, '|');
      |atoms| >= 8 && atoms[..7] == fields && DataLineText(atoms[6..]) == text
  {
    SplitConcat(Join(fields, "|"), '|', text);
    SplitJoin(fields, '|');
    var atoms := Split(Join(fields, "|") + "|" + text, '|');
    assert atoms == fields + Split(text, '|');
    assert atoms[6..][1..] == Split(text, '|');
    JoinSplit(text, '|');
  }

  // ---------------------------------------------------------------------
  // Dot-stuffing

  /** writeLine's escaping: a line that starts with `.` gets one more. */
  function Escape(line: string): string {
    if HasPrefix(line, ".") then "." + line else line
  }

  /** dataLine's unescaping: one leading `.` is removed. */
  function Unescape(line: string): string {
    TrimPrefix(line, ".")
  }

  function EscapeAll(lines: seq<string>): (r: seq<string>)
    ensures |r| == |lines|
    ensures forall i | 0 <= i < |lines| :: r[i] == Escape(lines[i])
  {
    seq(|lines|, i requires 0 <= i < |lines| => Escape(lines[i]))
  }

  /** A line as a sender must put it on the wire: a leading `.` is doubled. */
  predicate Stuffed(line: string) {
    HasPrefix(line, ".") ==> HasPrefix(line, "..")
  }

  /** Unescaping undoes escaping, and an escaped line is never the lone `.`
      that ends the data, and is always properly stuffed. */
  lemma EscapeRoundTrip(line: string)
    ensures Unescape(Escape(line)) == line
    ensures Escape(line) != "."
    ensures Stuffed(Escape(line))
  {
    if HasPrefix(line, ".") {
      assert ("." + line)[..1] == ".";
      assert ("." + line)[1..] == line;
      assert ("." + line)[..2] == "..";
    }
  }

  /** Escaping undoes unescaping exactly on properly stuffed lines. */
  lemma UnescapeRoundTrip(line: string)
    ensures Escape(Unescape(line)) == line <==> Stuffed(line)
  {
    if HasPrefix(line, ".") {
      var rest := line[1..];
      assert line == "." + rest;
      if HasPrefix(rest, ".") {
        assert line[..2] == ".." by { assert line[..2] == "." + rest[..1]; }
      } else {
        assert !HasPrefix(line, "..") by {
          if |line| >= 2 { assert line[1] == rest[0]; }
        }
      }
    }
  }

  /** A line that is not stuffed ("." followed by anything but ".") does not
      survive unescaping and re-escaping. */
  lemma UnstuffedLineChanges()
    ensures Escape(Unescape(".x")) == "x"
  {
    assert Unescape(".x") == "x" by { assert ".x"[..1] == "." && ".x"[1..] == "x"; }
    assert "x"[..1] != "." by { assert "x"[..1][0] == 'x'; }
  }

  /** The message collected from a run of data-line texts: every text up to
      the first lone `.` is unescaped and kept; None when no `.` came. */
  function Receive(texts: seq<string>): Option<seq<string>>
    decreases |texts|
  {
    if |texts| == 0 then None
    else if texts[0] == "." then Some([])
    else match Receive(texts[1..])
      case None => None
      case Some(m) => Some([Unescape(texts[0])] + m)
  }

  /** A flushed message (escaped lines and the `.` terminator) is received
      as exactly the same message, whatever follows it. */
  lemma {:induction false} FlushReceive(message: seq<string>, rest: seq<string>)
    ensures Receive(EscapeAll(message) + ["."] + rest) == Some(message)
    decreases |message|
  {
    var texts := EscapeAll(message) + ["."] + rest;
    if |message| == 0 {
      assert texts[0] == ".";
    } else {
      EscapeRoundTrip(message[0]);
      FlushReceive(message[1..], rest);
      assert texts[1..] == EscapeAll(message[1..]) + ["."] + rest;
      assert message == [message[0]] + message[1..];
    }
  }

  /** Conversely, properly stuffed texts up to a `.` are what flushing the
      received message produces. */
  lemma {:induction false} ReceiveFlush(texts: seq<string>, k: nat)
    requires k < |texts| && texts[k] == "."
    requires forall i | 0 <= i < k :: texts[i] != "." && Stuffed(texts[i])
    ensures Receive(texts).Some?
    ensures EscapeAll(Receive(texts).value) + ["."] == texts[..k + 1]
    decreases k
  {
    if k > 0 {
      ReceiveFlush(texts[1..], k - 1);
      UnescapeRoundTrip(texts[0]);
      var m := Receive(texts[1..]).value;
      assert Receive(texts).value == [Unescape(texts[0])] + m;
      assert EscapeAll([Unescape(texts[0])] + m) == [texts[0]] + EscapeAll(m);
      assert texts[..k + 1] == [texts[0]] + texts[1..][..k];
    }
  }

  // ---------------------------------------------------------------------
  // The printer

  /** The lines the reader sees for the given output strings: the printer
      writes each string followed by a newline, so a string holding `'\n'`
      arrives as several lines (the frame prefix goes on the first only). */
  function Printed(texts: seq<string>): seq<string>
    decreases |texts|
  {
    if |texts| == 0 then [] else Split(texts[0], '\n') + Printed(texts[1..])
  }

  /** Strings without a newline arrive one line each, unchanged. */
  lemma {:induction false} PrintedOneLine(texts: seq<string>)
    requires forall i | 0 <= i < |texts| :: '\n' !in texts[i]
    ensures Printed(texts) == texts
    decreases |texts|
  {
    if |texts| > 0 {
      SplitFree(texts[0], '\n');
      PrintedOneLine(texts[1..]);
      assert [texts[0]] + texts[1..] == texts;
    }
  }

  /** A framed line holds a newline exactly where its payload does, when
      the kind, the session id and the token hold none. */
  lemma FrameNewline(version: string, kind: string, id: string, token: string, payload: string)
    requires '\n' !in kind && '\n' !in id && '\n' !in token
    ensures '\n' in Frame(version, kind, id, token, payload) <==> '\n' in payload
  {
    var head := if LegacyFraming(version) then kind + "|" + token + "|" + id else kind + "|" + id + "|" + token;
    assert Frame(version, kind, id, token, payload) == (head + "|") + payload;
    assert '\n' !in head + "|";
  }

  /** Frames of newline-free payloads arrive one printed line each. */
  lemma FramedOneLine(version: string, kind: string, id: string, token: string, payloads: seq<string>)
    requires '\n' !in kind && '\n' !in id && '\n' !in token
    requires forall i | 0 <= i < |payloads| :: '\n' !in payloads[i]
    ensures Printed(Frames(version, kind, id, token, payloads)) == Frames(version, kind, id, token, payloads)
  {
    var lines := Frames(version, kind, id, token, payloads);
    FramesIndex(version, kind, id, token, payloads);
    forall i | 0 <= i < |lines| ensures '\n' !in lines[i] {
      FrameNewline(version, kind, id, token, payloads[i]);
    }
    PrintedOneLine(lines);
  }

  /** The frame tells payloads apart: the terminator's frame is the frame
      of `.` and of nothing else. */
  lemma FramePayload(version: string, kind: string, id: string, token: string, p: string, q: string)
    ensures Frame(version, kind, id, token, p) == Frame(version, kind, id, token, q) <==> p == q
  {
    var head := (if LegacyFraming(version) then kind + "|" + token + "|" + id else kind + "|" + id + "|" + token) + "|";
    assert Frame(version, kind, id, token, p) == head + p;
    assert Frame(version, kind, id, token, q) == head + q;
    if head + p == head + q {
      assert p == (head + p)[|head|..];
      assert q == (head + q)[|head|..];
    }
  }

  /** A payload holding a newline prints its frame on the first piece
      only: the pieces after it arrive as unframed lines. */
  lemma PrintedFrameSplit(version: string, kind: string, id: string, token: string, a: string, b: string)
    requires '\n' !in kind && '\n' !in id && '\n' !in token && '\n' !in a
    ensures Printed(Frames(version, kind, id, token, [a + "\n" + b]))
         == [Frame(version, kind, id, token, a)] + Split(b, '\n')
  {
    var framed := Frame(version, kind, id, token, a + "\n" + b);
    assert Frames(version, kind, id, token, [a + "\n" + b]) == [framed] by {
      assert [a + "\n" + b][..0] == [];
    }
    assert framed == Frame(version, kind, id, token, a) + ['\n'] + b;
    SplitConcat(Frame(version, kind, id, token, a), '\n', b);
    FrameNewline(version, kind, id, token, a);
    SplitFree(Frame(version, kind, id, token, a), '\n');
    assert [framed][1..] == [];
  }
}
