/**
  The point-cloud streamer: the registry of connected clients, one round of the streaming
  loop (build a cloud from the latest frames, encode it, send it to every client, drop the
  clients whose send failed) and the per-connection handler (register, welcome, answer
  pings, unregister).
*/
module Server {
  import opened Wrappers
  import opened PointCloud

  /** A connected websocket; id is the identity the handler reports for it. */
  datatype Client = Client(id: nat)

  /** The encoded (JSON, then gzip) bytes of one cloud. */
  type Payload = seq<bv8>

  /** A JSON value as json.loads returns it. */
  datatype Json =
    | JNull
    | JBool(b: bool)
    | JNumber(n: real)
    | JString(s: string)
    | JArray(items: seq<Json>)
    | JObject(fields: map<string, Json>)

  /** A message received from a client: JSON text, or text json.loads rejects. */
  datatype Incoming = Undecodable | Decoded(value: Json)

  /** The JSON messages the server sends on a connection. */
  datatype ServerMessage = Welcome(greeting: string, clientId: nat) | Pong

  /** A depth frame: raw depth values and the metres per depth unit. */
  datatype DepthFrame = DepthFrame(depth: seq<seq<nat>>, units: real)

  /** What one round of the streaming loop did. */
  datatype TickOutcome =
    | NoFrame                                         // a frame was missing
    | BuildFailed                                     // generate_point_cloud returned None
    | EncodeFailed                                    // compression gave None or no bytes
    | Sent(payload: Payload, disconnected: set<Client>)

  /** A JSON object whose "type" member is the string "ping". */
  predicate IsPing(m: Incoming) {
    m.Decoded? && m.value.JObject? && "type" in m.value.fields
    && m.value.fields["type"] == JString("ping")
  }

  /**
    The reply to one client message. Text that is not JSON, JSON that is not an object
    (it has no get) and objects of any other type are all ignored.
  */
  function ReplyTo(m: Incoming): (r: Option<ServerMessage>)
    ensures r.Some? ==> r.value == Pong
  {
    match m
    case Decoded(JObject(fields)) =>
      if "type" in fields && fields["type"] == JString("ping") then Some(Pong) else None
    case _ => None
  }

  /** The replies to a sequence of client messages, in order. */
  function Replies(ms: seq<Incoming>): (r: seq<ServerMessage>)
    ensures |r| <= |ms|
    ensures forall i :: 0 <= i < |r| ==> r[i] == Pong
  {
    if ms == [] then []
    else
      var last := ReplyTo(ms[|ms| - 1]);
      Replies(ms[..|ms| - 1]) + (if last.Some? then [last.value] else [])
  }

  /** The number of pings among ms. */
  function PingCount(ms: seq<Incoming>): nat {
    if ms == [] then 0 else (if IsPing(ms[0]) then 1 else 0) + PingCount(ms[1..])
  }

  /** Exactly the pings are answered, each with a pong. */
  lemma ReplyToPing(m: Incoming)
    ensures ReplyTo(m) == (if IsPing(m) then Some(Pong) else None)
  {
  }

  lemma {:induction false} PingCountSnoc(ms: seq<Incoming>, m: Incoming)
    ensures PingCount(ms + [m]) == PingCount(ms) + (if IsPing(m) then 1 else 0)
  {
    if ms != [] {
      assert (ms + [m])[1..] == ms[1..] + [m];
      PingCountSnoc(ms[1..], m);
    }
  }

  /** Every ping gets exactly one pong, and nothing else is answered. */
  lemma {:induction false} RepliesCount(ms: seq<Incoming>)
    ensures |Replies(ms)| == PingCount(ms)
  {
    if ms != [] {
      var init := ms[..|ms| - 1];
      RepliesCount(init);
      PingCountSnoc(init, ms[|ms| - 1]);
      assert init + [ms[|ms| - 1]] == ms;
    }
  }

  /** Everything handle_client sends on a connection, in order. */
  function Conversation(c: Client, welcomeDelivered: bool, incoming: seq<Incoming>): (sent: seq<ServerMessage>)
    ensures |sent| > 0 && sent[0] == Welcome("hi", c.id)
  {
    [Welcome("hi", c.id)] + (if welcomeDelivered then Replies(incoming) else [])
  }

  /** One welcome first, then one pong per ping when the welcome went through. */
  lemma ConversationShape(c: Client, welcomeDelivered: bool, incoming: seq<Incoming>)
    ensures var sent := Conversation(c, welcomeDelivered, incoming);
      sent[0] == Welcome("hi", c.id)
      && (forall i :: 1 <= i < |sent| ==> sent[i] == Pong)
      && |sent| == 1 + (if welcomeDelivered then PingCount(incoming) else 0)
  {
    RepliesCount(incoming);
  }

  /** The clients whose send raised in a round over members. */
  function Disconnected(members: set<Client>, sendOk: Client -> bool): (d: set<Client>)
    ensures d <= members
    ensures forall c :: c in members ==> (c in d <==> !sendOk(c))
  {
    set c | c in members && !sendOk(c)
  }

  /** The send loop of a round: tries every member once and collects those whose send raised. */
  method SendRound(members: set<Client>, sendOk: Client -> bool) returns (disconnected: set<Client>)
    ensures disconnected == Disconnected(members, sendOk)
  {
    disconnected := {};
    var remaining := members;
    while remaining != {}
      invariant remaining <= members
      invariant disconnected == Disconnected(members - remaining, sendOk)
      decreases |remaining|
    {
      var c :| c in remaining;
      if !sendOk(c) {
        disconnected := disconnected + {c};
      }
      remaining := remaining - {c};
    }
  }

  /** One round of the streaming loop, over the clients registered when it starts. */
  function TickOf(intr: Intrinsics, depthFrame: Option<DepthFrame>, colorFrame: Option<seq<seq<Triple>>>,
                  now: real, encode: Cloud -> Option<Payload>, sendOk: Client -> bool,
                  members: set<Client>): (r: TickOutcome)
    requires ValidIntrinsics(intr)
    requires depthFrame.Some? ==> IsGrid(depthFrame.value.depth)
    requires colorFrame.Some? ==> IsGrid(colorFrame.value)
    ensures r == NoFrame <==> depthFrame.None? || colorFrame.None?
    ensures r.Sent? ==> |r.payload| > 0 && r.disconnected == Disconnected(members, sendOk)
  {
    if depthFrame.None? || colorFrame.None? then NoFrame
    else
      var cloud := PointCloudOf(intr, depthFrame.value.depth, depthFrame.value.units, colorFrame.value, now);
      if cloud.None? then BuildFailed
      else
        var payload := encode(cloud.value);
        if payload.None? || |payload.value| == 0 then EncodeFailed
        else Sent(payload.value, Disconnected(members, sendOk))
  }

  /** The registry after a round: pruned by the failed sends, otherwise unchanged. */
  function ClientsAfter(members: set<Client>, outcome: TickOutcome): (m: set<Client>)
    ensures m <= members
  {
    if outcome.Sent? then members - outcome.disconnected else members
  }

  /**
    A round that sends prunes exactly the clients whose send raised, keeps every client
    whose send succeeded, and removes as many clients as it found disconnected.
  */
  lemma SentRoundPrunes(intr: Intrinsics, depthFrame: Option<DepthFrame>, colorFrame: Option<seq<seq<Triple>>>,
                        now: real, encode: Cloud -> Option<Payload>, sendOk: Client -> bool,
                        members: set<Client>)
    requires ValidIntrinsics(intr)
    requires depthFrame.Some? ==> IsGrid(depthFrame.value.depth)
    requires colorFrame.Some? ==> IsGrid(colorFrame.value)
    ensures var outcome := TickOf(intr, depthFrame, colorFrame, now, encode, sendOk, members);
      var after := ClientsAfter(members, outcome);
      outcome.Sent? ==>
        (forall c :: c in members ==> (c in after <==> sendOk(c)))
        && outcome.disconnected <= members
        && |members| == |after| + |outcome.disconnected|
  {
  }

  /**
    A round sends nothing exactly when a frame is missing, the build fails (an empty colour image
    or a kept pixel outside it) or the encoding of the built cloud gives None or no bytes; such a
    round leaves the registry as it was.
  */
  lemma SkippedRound(intr: Intrinsics, depthFrame: Option<DepthFrame>, colorFrame: Option<seq<seq<Triple>>>,
                     now: real, encode: Cloud -> Option<Payload>, sendOk: Client -> bool,
                     members: set<Client>)
    requires ValidIntrinsics(intr)
    requires depthFrame.Some? ==> IsGrid(depthFrame.value.depth)
    requires colorFrame.Some? ==> IsGrid(colorFrame.value)
    ensures var outcome := TickOf(intr, depthFrame, colorFrame, now, encode, sendOk, members);
      !outcome.Sent? <==>
        || depthFrame.None? || colorFrame.None?
        || (var depth, color := depthFrame.value.depth, colorFrame.value;
            || |color| == 0 || Width(color) == 0
            || (exists y: nat, x: nat :: IsKept(depth, (y, x)) && !InGrid(color, (y, x)))
            || (var ks := KeptPixels(depth);
                var e := encode(Cloud(PointsOf(intr, depth, depthFrame.value.units, ks), ColorsOf(color, ks), now));
                e.None? || |e.value| == 0))
    ensures var outcome := TickOf(intr, depthFrame, colorFrame, now, encode, sendOk, members);
      !outcome.Sent? ==> ClientsAfter(members, outcome) == members
  {
    if depthFrame.Some? && colorFrame.Some? {
      CloudFailure(intr, depthFrame.value.depth, depthFrame.value.units, colorFrame.value, now);
    }
  }

  /**
    A kept depth pixel outside the colour image makes the build fail, so the round sends
    nothing; this is the case of a colour image smaller than the depth image.
  */
  lemma SmallColorFrameSkips(intr: Intrinsics, frame: DepthFrame, color: seq<seq<Triple>>,
                             now: real, encode: Cloud -> Option<Payload>, sendOk: Client -> bool,
                             members: set<Client>, p: Pixel)
    requires ValidIntrinsics(intr) && IsGrid(frame.depth) && IsGrid(color)
    requires IsKept(frame.depth, p) && !InGrid(color, p)
    ensures TickOf(intr, Some(frame), Some(color), now, encode, sendOk, members) == BuildFailed
  {
    CloudFailure(intr, frame.depth, frame.units, color, now);
    assert IsKept(frame.depth, (p.0, p.1)) && !InGrid(color, (p.0, p.1));
  }

  /** A frame with no depth returns still yields a cloud, and a non-empty payload of it is sent. */
  lemma EmptyCloudIsSent(intr: Intrinsics, frame: DepthFrame, color: seq<seq<Triple>>,
                         now: real, encode: Cloud -> Option<Payload>, sendOk: Client -> bool,
                         members: set<Client>)
    requires ValidIntrinsics(intr) && IsGrid(frame.depth) && IsGrid(color)
    requires |color| > 0 && Width(color) > 0
    requires forall y, x :: 0 <= y < |frame.depth| && 0 <= x < |frame.depth[y]| ==> frame.depth[y][x] == 0
    requires encode(Cloud([], [], now)).Some? && |encode(Cloud([], [], now)).value| > 0
    ensures TickOf(intr, Some(frame), Some(color), now, encode, sendOk, members)
         == Sent(encode(Cloud([], [], now)).value, Disconnected(members, sendOk))
  {
    AllZeroDepthIsEmpty(intr, frame.depth, frame.units, color, now);
  }

  /**
    The message loop of handle_client after the welcome: each message received is answered with
    its reply, if it has one, in order.
  */
  method Answer(incoming: seq<Incoming>) returns (replies: seq<ServerMessage>)
    ensures replies == Replies(incoming)
  {
    replies := [];
    var k := 0;
    while k < |incoming|
      invariant 0 <= k <= |incoming|
      invariant replies == Replies(incoming[..k])
    {
      var reply := ReplyTo(incoming[k]);
      if reply.Some? {
        replies := replies + [reply.value];
      }
      assert incoming[..k + 1][..k] == incoming[..k];
      k := k + 1;
    }
    assert incoming[..|incoming|] == incoming;
  }

  /** The streamer: its camera calibration and the set of connected clients. */
  class Streamer {
    const intrinsics: Intrinsics
    var clients: set<Client>

    constructor (intrinsics: Intrinsics)
      requires ValidIntrinsics(intrinsics)
      ensures this.intrinsics == intrinsics && clients == {}
    {
      this.intrinsics := intrinsics;
      clients := {};
    }

    /** One pass of the streaming loop, taken as atomic. */
    method Tick(depthFrame: Option<DepthFrame>, colorFrame: Option<seq<seq<Triple>>>, now: real,
                encode: Cloud -> Option<Payload>, sendOk: Client -> bool) returns (outcome: TickOutcome)
      requires ValidIntrinsics(intrinsics)
      requires depthFrame.Some? ==> IsGrid(depthFrame.value.depth)
      requires colorFrame.Some? ==> IsGrid(colorFrame.value)
      modifies this
      ensures outcome == TickOf(intrinsics, depthFrame, colorFrame, now, encode, sendOk, old(clients))
      ensures clients == ClientsAfter(old(clients), outcome)
    {
      if depthFrame.None? || colorFrame.None? {
        return NoFrame;
      }
      var frame := depthFrame.value;
      var cloud := GeneratePointCloud(intrinsics, frame.depth, frame.units, colorFrame.value, now);
      if cloud.None? {
        return BuildFailed;
      }
      var payload := encode(cloud.value);
      if payload.None? || |payload.value| == 0 {
        return EncodeFailed;
      }
      var disconnected := SendRound(clients, sendOk);
      clients := clients - disconnected;
      outcome := Sent(payload.value, disconnected);
    }

    /** Registers a connection. */
    method Connect(c: Client)
      modifies this
      ensures clients == old(clients) + {c}
    {
      clients := clients + {c};
    }

    /** Unregisters a connection; a no-op when a round has already pruned it. */
    method Disconnect(c: Client)
      modifies this
      ensures clients == old(clients) - {c}
      ensures c !in old(clients) ==> clients == old(clients)
    {
      clients := clients - {c};
    }

    /**
      The opening of handle_client: the connection is registered, and only then is the welcome
      with its id produced, so it is a member when the welcome goes out.
    */
    method Open(c: Client) returns (welcome: ServerMessage)
      modifies this
      ensures clients == old(clients) + {c}
      ensures c in clients && welcome == Welcome("hi", c.id)
    {
      Connect(c);
      welcome := Welcome("hi", c.id);
    }

    /**
      One connection from open to close: Open, then the message loop when the welcome went
      through, then Disconnect on the way out. When the welcome cannot be sent, no message is read.
    */
    method HandleClient(c: Client, welcomeDelivered: bool, incoming: seq<Incoming>)
      returns (sent: seq<ServerMessage>)
      modifies this
      ensures sent == Conversation(c, welcomeDelivered, incoming)
      ensures clients == old(clients) - {c}
    {
      var welcome := Open(c);
      sent := [welcome];
      if welcomeDelivered {
        var replies := Answer(incoming);
        sent := sent + replies;
      }
      Disconnect(c);
    }
  }
}
