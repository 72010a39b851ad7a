/**
  The joystick command normaliser of the control service. Each message a client sends
  is stripped and given a newline; a two-field message "l,r" is parsed as two integers,
  values in the dead zone (-5, 5) become 0, and the pair is re-emitted as "l,r\n";
  anything else is forwarded as it is. The serial port is a flag saying whether one was
  opened plus the log of the lines written to it.
*/
module ControlService {
  import opened Wrappers
  import opened PyText

  const NoSerialReply: string := "Error: Serial port not available"

  datatype SerialPort = SerialPort(available: bool, written: seq<string>)

  /** What one message leads to when a serial port is open. */
  datatype Outcome =
    | Forward(line: string)     // the line written to the serial port
    | Fail(reason: string)      // str() of the exception raised; nothing is written

  datatype StepResult = StepResult(port: SerialPort, reply: Option<string>)

  datatype SessionResult = SessionResult(port: SerialPort, replies: seq<string>)

  /** A websocket message: a text frame, or a binary frame, which the handler receives as bytes. */
  datatype Frame = Text(text: string) | Binary

  /** A joystick value strictly between -5 and 5 is noise and becomes 0; nothing is clamped. */
  function DeadZone(v: int): (r: int)
    ensures r == 0 || r == v
    ensures r == 0 <==> -5 < v < 5
  {
    if v < 5 && v > -5 then 0 else v
  }

  /** The text of the ValueError int() raises for a field that is not an integer. */
  const InvalidLiteralPrefix: string := "invalid literal for int() with base 10: "

  /**
    The text of the ValueError int() raises for a field that is not an integer: the field's
    repr, cut to at most 200 characters.
  */
  function InvalidLiteral(field: string): (msg: string)
    ensures |InvalidLiteralPrefix| + 2 <= |msg| <= |InvalidLiteralPrefix| + 200
    ensures msg[..|InvalidLiteralPrefix|] == InvalidLiteralPrefix
    ensures var tail := msg[|InvalidLiteralPrefix|..];
      |tail| == (if |Repr(field)| <= 200 then |Repr(field)| else 200) && tail == Repr(field)[..|tail|]
  {
    var shown := Repr(field);
    InvalidLiteralPrefix + (if |shown| <= 200 then shown else shown[..200])
  }

  /** The canonical serial line for a pair of joystick values. */
  function Pair(l: int, r: int): string {
    Show(l) + "," + Show(r) + "\n"
  }

  /** The per-message rewrite, for a message received while the serial port is open. */
  function Normalise(raw: string): Outcome {
    var message := Strip(raw) + "\n";
    var fields := Split(message, ',');
    if |fields| == 2 then
      match ParseInt(fields[0])
      case None => Fail(InvalidLiteral(fields[0]))
      case Some(l) =>
        match ParseInt(fields[1])
        case None => Fail(InvalidLiteral(fields[1]))
        case Some(r) => Forward(Pair(DeadZone(l), DeadZone(r)))
    else Forward(message)
  }

  /**
    One message of handle_client: with no serial port the fixed error reply and no write;
    otherwise the normalised line is written, or the error is replied and nothing is written.
  */
  function Step(port: SerialPort, raw: string): (res: StepResult)
    ensures res.port.available == port.available
    ensures (res.port.written != port.written) != res.reply.Some?
  {
    if !port.available then StepResult(port, Some(NoSerialReply))
    else match Normalise(raw)
      case Forward(line) => StepResult(port.(written := port.written + [line]), None)
      case Fail(reason) => StepResult(port, Some("Error: " + reason))
  }

  /**
    The messages of one connection handled in order. For a binary frame `message.strip() + '\n'`
    adds bytes to a str; the TypeError is raised outside the per-message try, so the handler ends
    there without a reply and reads nothing more.
  */
  function Session(port: SerialPort, msgs: seq<Frame>): (res: SessionResult)
    ensures res.port.available == port.available
    decreases |msgs|
  {
    if msgs == [] || msgs[0].Binary? then SessionResult(port, [])
    else
      var first := Step(port, msgs[0].text);
      var rest := Session(first.port, msgs[1..]);
      SessionResult(rest.port, (if first.reply.Some? then [first.reply.value] else []) + rest.replies)
  }

  /** How many messages a connection handles: those in front of the first binary frame. */
  function Handled(msgs: seq<Frame>): (n: nat)
    ensures n <= |msgs|
    ensures forall i :: 0 <= i < n ==> msgs[i].Text?
    ensures n < |msgs| ==> msgs[n].Binary?
  {
    if msgs == [] || msgs[0].Binary? then 0 else 1 + Handled(msgs[1..])
  }

  /** A line ends in exactly one newline, with no other white space at either end. */
  predicate NewlineTerminated(line: string) {
    |line| > 0 && line[|line| - 1] == '\n' && Stripped(line[..|line| - 1])
  }

  /** A line in the canonical "l,r\n" shape, for values outside the dead zone or 0. */
  ghost predicate CanonicalPair(line: string) {
    exists l: int, r: int :: DeadZone(l) == l && DeadZone(r) == r && line == Pair(l, r)
  }

  lemma CountAppend(s: string, c: char, d: char)
    ensures Count(s + [d], c) == Count(s, c) + (if d == c then 1 else 0)
  {
    if s != [] {
      assert (s + [d])[1..] == s[1..] + [d];
      CountAppend(s[1..], c, d);
    }
  }

  lemma SpaceNoComma(s: string)
    requires AllSpace(s)
    ensures ',' !in s
  {
  }

  /** strip() of a message built from two plain values with white space around them. */
  lemma PairStrip(a: string, sl: string, b: string, c: string, sr: string, d: string)
    requires AllSpace(a) && AllSpace(b) && AllSpace(c) && AllSpace(d)
    requires Stripped(sl) && Stripped(sr) && sl != [] && sr != []
    ensures Strip(a + sl + b + "," + c + sr + d) == sl + b + "," + c + sr
  {
    var t := sl + b + "," + c + sr;
    assert t[0] == sl[0];
    assert t[|t| - 1] == sr[|sr| - 1];
    assert a + sl + b + "," + c + sr + d == a + t + d;
    TrimPadded(StrSpaces, a, t, d);
  }

  /** Normalise once the two fields of the message are known to be integers. */
  lemma NormaliseFields(raw: string, f0: string, f1: string)
    requires Split(Strip(raw) + "\n", ',') == [f0, f1]
    requires ParseInt(f0).Some? && ParseInt(f1).Some?
    ensures Normalise(raw) == Forward(Pair(DeadZone(ParseInt(f0).value), DeadZone(ParseInt(f1).value)))
  {
  }

  /** The two fields of a message built from two plain values with white space around them. */
  lemma PairSplit(a: string, sl: string, b: string, c: string, sr: string, d: string)
    requires AllSpace(a) && AllSpace(b) && AllSpace(c) && AllSpace(d)
    requires Stripped(sl) && Stripped(sr) && sl != [] && sr != [] && ',' !in sl && ',' !in sr
    ensures Split(Strip(a + sl + b + "," + c + sr + d) + "\n", ',') == [sl + b, c + sr + "\n"]
  {
    PairStrip(a, sl, b, c, sr, d);
    var left, right := sl + b, c + sr + "\n";
    SpaceNoComma(b);
    SpaceNoComma(c);
    assert ',' !in "\n";
    assert sl + b + "," + c + sr + "\n" == left + [','] + right;
    SplitPair(left, ',', right);
  }

  /**
    Well-formed values are parsed, zeroed and re-emitted canonically. White space around the whole
    message goes with strip(); white space next to the comma must be white space int() skips.
  */
  lemma PairRewrite(raw: string, a: string, l: int, b: string, c: string, r: int, d: string)
    requires AllSpace(a) && AllBlank(IntSpaces, b) && AllBlank(IntSpaces, c) && AllSpace(d)
    requires raw == a + Show(l) + b + "," + c + Show(r) + d
    ensures Normalise(raw) == Forward(Pair(DeadZone(l), DeadZone(r)))
  {
    IntBlankIsSpace(b);
    IntBlankIsSpace(c);
    ShowChars(l);
    ShowChars(r);
    PairSplit(a, Show(l), b, c, Show(r), d);
    ParseShowBefore(l, b);
    ParseShow(c, r, "\n");
    NormaliseFields(raw, Show(l) + b, c + Show(r) + "\n");
  }

  lemma ShowExamples()
    ensures Show(10) == "10" && Show(-3) == "-3" && Show(0) == "0"
  {
  }

  lemma ExampleLine()
    ensures Pair(DeadZone(10), DeadZone(-3)) == "10,0\n"
  {
    ShowExamples();
    assert DeadZone(10) == 10 && DeadZone(-3) == 0;
  }

  lemma ExampleMessage(raw: string)
    requires raw == "10 , -3"
    ensures raw == "" + Show(10) + " " + "," + " " + Show(-3) + ""
  {
    ShowExamples();
  }

  /** The worked example: the message "10 , -3" is written as "10,0\n". */
  lemma NormaliseExample(raw: string)
    requires raw == "10 , -3"
    ensures Normalise(raw) == Forward("10,0\n")
  {
    ExampleMessage(raw);
    PairRewrite(raw, "", 10, " ", " ", -3, "");
    ExampleLine();
  }

  lemma ControlMessage(raw: string)
    requires raw == "1,\U{1C}7"
    ensures Strip(raw) + "\n" == Show(1) + [','] + "\U{1C}7\n"
  {
    ShowOne();
    assert [] + raw + [] == raw;
    TrimPadded(StrSpaces, [], raw, []);
  }

  lemma ShowOne()
    ensures Show(1) == "1"
  {
  }

  /**
    The separator control U+001C next to the comma survives strip() of the message, which removes
    it only at the ends, and then int() rejects the field: "1,\x1c7" writes nothing.
  */
  lemma SeparatorControlRejected(raw: string)
    requires raw == "1,\U{1C}7"
    ensures Normalise(raw) == Fail(InvalidLiteral("\U{1C}7\n"))
  {
    ControlMessage(raw);
    ShowChars(1);
    SplitPair(Show(1), ',', "\U{1C}7\n");
    assert [] + Show(1) + [] == Show(1);
    ParseShow([], 1, []);
    ParseIntForeign("\U{1C}7\n", 0);
  }

  /** A message that is not exactly two comma-separated fields is written stripped, plus a newline. */
  lemma ForwardVerbatim(raw: string)
    requires Count(Strip(raw), ',') != 1
    ensures Normalise(raw) == Forward(Strip(raw) + "\n")
  {
    CountAppend(Strip(raw), ',', '\n');
    SplitSpec(Strip(raw) + "\n", ',');
  }

  /** A two-field message is either rejected or written in canonical form. */
  lemma TwoFieldsRewritten(raw: string)
    requires Count(Strip(raw), ',') == 1
    ensures Normalise(raw).Forward? ==> CanonicalPair(Normalise(raw).line)
  {
    CountAppend(Strip(raw), ',', '\n');
    SplitSpec(Strip(raw) + "\n", ',');
    var fields := Split(Strip(raw) + "\n", ',');
    if ParseInt(fields[0]).Some? && ParseInt(fields[1]).Some? {
      var l, r := DeadZone(ParseInt(fields[0]).value), DeadZone(ParseInt(fields[1]).value);
      assert DeadZone(l) == l && DeadZone(r) == r;
      assert Normalise(raw).line == Pair(l, r);
    }
  }

  /**
    A two-field message whose left or right field is not an integer writes nothing and gets one
    error reply naming the first field that failed.
  */
  lemma RejectedField(port: SerialPort, raw: string)
    requires port.available
    requires var fields := Split(Strip(raw) + "\n", ',');
      |fields| == 2 && (ParseInt(fields[0]).None? || ParseInt(fields[1]).None?)
    ensures var fields := Split(Strip(raw) + "\n", ',');
      var bad := if ParseInt(fields[0]).None? then fields[0] else fields[1];
      Step(port, raw) == StepResult(port, Some("Error: " + InvalidLiteral(bad)))
  {
  }

  /** Every line written to the serial port ends in exactly one newline. */
  lemma WrittenLineShape(raw: string)
    requires Normalise(raw).Forward?
    ensures NewlineTerminated(Normalise(raw).line)
  {
    var t := Strip(raw);
    if Count(t, ',') == 1 {
      TwoFieldsRewritten(raw);
      var l: int, r: int :| DeadZone(l) == l && DeadZone(r) == r && Normalise(raw).line == Pair(l, r);
      PairTerminated(l, r);
    } else {
      ForwardVerbatim(raw);
      TrimSpec(StrSpaces, raw);
      LineTerminated(t);
    }
  }

  lemma PairTerminated(l: int, r: int)
    ensures NewlineTerminated(Pair(l, r))
  {
    ShowChars(l);
    ShowChars(r);
    var line, body := Pair(l, r), Show(l) + "," + Show(r);
    assert line[..|line| - 1] == body;
    assert body[0] == Show(l)[0];
  }

  lemma LineTerminated(t: string)
    requires Stripped(t)
    ensures NewlineTerminated(t + "\n")
  {
    assert (t + "\n")[..|t|] == t;
  }

  /** A canonical pair is written again as it is. */
  lemma PairAsMessage(l: int, r: int)
    ensures Pair(l, r) == "" + Show(l) + "" + "," + "" + Show(r) + "\n"
  {
  }

  lemma PairFixed(l: int, r: int)
    requires DeadZone(l) == l && DeadZone(r) == r
    ensures Normalise(Pair(l, r)) == Forward(Pair(l, r))
  {
    PairAsMessage(l, r);
    PairRewrite(Pair(l, r), "", l, "", "", r, "\n");
  }

  /** A stripped text that is not two fields, with its newline, is written again as it is. */
  lemma VerbatimFixed(t: string)
    requires Stripped(t) && Count(t, ',') != 1
    ensures Normalise(t + "\n") == Forward(t + "\n")
  {
    assert [] + t + "\n" == t + "\n";
    TrimPadded(StrSpaces, [], t, "\n");
    ForwardVerbatim(t + "\n");
  }

  /** Feeding a written line back in writes the same line again. */
  lemma NormaliseIdempotent(raw: string)
    requires Normalise(raw).Forward?
    ensures Normalise(Normalise(raw).line) == Normalise(raw)
  {
    var t := Strip(raw);
    if Count(t, ',') == 1 {
      TwoFieldsRewritten(raw);
      var l: int, r: int :| DeadZone(l) == l && DeadZone(r) == r && Normalise(raw).line == Pair(l, r);
      PairFixed(l, r);
    } else {
      ForwardVerbatim(raw);
      TrimSpec(StrSpaces, raw);
      VerbatimFixed(t);
    }
  }

  /** With no serial port nothing is written and every handled message gets the same error reply. */
  lemma {:induction false} NoSerialSession(port: SerialPort, msgs: seq<Frame>)
    requires !port.available
    ensures Session(port, msgs).port == port
    ensures Session(port, msgs).replies == seq(Handled(msgs), _ => NoSerialReply)
    decreases |msgs|
  {
    if msgs != [] && msgs[0].Text? {
      NoSerialSession(port, msgs[1..]);
    }
  }

  /**
    The serial log only grows, and the lines written plus the replies sent add up to the messages
    handled (per message, exactly one of the two is the contract of Step).
  */
  lemma {:induction false} SessionAccounting(port: SerialPort, msgs: seq<Frame>)
    ensures var res := Session(port, msgs);
      |res.port.written| >= |port.written| && res.port.written[..|port.written|] == port.written
      && |res.port.written| - |port.written| + |res.replies| == Handled(msgs)
    decreases |msgs|
  {
    if msgs != [] && msgs[0].Text? {
      var first := Step(port, msgs[0].text);
      SessionAccounting(first.port, msgs[1..]);
    }
  }

  /** One message writes at most one line, and that line ends in exactly one newline. */
  lemma StepWrites(port: SerialPort, raw: string)
    ensures var w := Step(port, raw).port.written;
      w == port.written || (w == port.written + [w[|w| - 1]] && NewlineTerminated(w[|w| - 1]))
  {
    if port.available && Normalise(raw).Forward? {
      WrittenLineShape(raw);
    }
  }

  /** Every line a session writes to the serial port ends in exactly one newline. */
  lemma {:induction false} SessionLinesTerminated(port: SerialPort, msgs: seq<Frame>)
    ensures var w := Session(port, msgs).port.written;
      |w| >= |port.written| && w[..|port.written|] == port.written
      && forall i :: |port.written| <= i < |w| ==> NewlineTerminated(w[i])
    decreases |msgs|
  {
    if msgs != [] && msgs[0].Text? {
      var first := Step(port, msgs[0].text).port;
      StepWrites(port, msgs[0].text);
      SessionLinesTerminated(first, msgs[1..]);
      var w := Session(port, msgs).port.written;
      assert w == Session(first, msgs[1..]).port.written;
      forall i | |port.written| <= i < |w|
        ensures NewlineTerminated(w[i])
      {
        if i < |first.written| {
          assert w[..|first.written|] == first.written;
          assert w[i] == first.written[i];
        }
      }
    }
  }

  /** Nothing after the first binary frame has any effect: the handler has already ended. */
  lemma {:induction false} BinaryEndsSession(port: SerialPort, msgs: seq<Frame>)
    ensures Session(port, msgs) == Session(port, msgs[..Handled(msgs)])
    decreases |msgs|
  {
    if msgs != [] && msgs[0].Text? {
      var first := Step(port, msgs[0].text).port;
      BinaryEndsSession(first, msgs[1..]);
      var pre := msgs[..Handled(msgs)];
      assert pre[0] == msgs[0];
      assert pre[1..] == msgs[1..][..Handled(msgs[1..])];
    }
  }
}
