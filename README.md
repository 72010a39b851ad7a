# Point-cloud streamer and joystick control service, modelled in Dafny

The repository has two services. The first streams coloured point clouds from a depth camera to any
number of websocket clients. The second forwards joystick commands from a websocket to a serial port.
This project models the sequential logic inside both. Everything else is I/O.

- **Point-cloud construction**, `RealSenseStreamer.generate_point_cloud` (module `PointCloud`, file
  `point_cloud.dfy`).
  - Every second row and every second column of an aligned depth/colour frame pair is sampled.
  - Samples with a zero depth are dropped.
  - Every other sample is unprojected through the pinhole intrinsics, using z = depth * units.
  - The pixel's colour is converted from BGR to RGB.
  - Points and colours are appended to two parallel lists.
  - The builder is a `method` with the source's two nested loops. It is proved equal to the
    specification function `PointCloudOf`, and the lemmas about `PointCloudOf` state what the cloud
    contains.
- **The streamer**, class `RealSenseStreamer` (module `Server`, file `server.dfy`, class `Streamer`).
  - It holds the registry of connected clients as a `set<Client>` field.
  - One pass of the streaming loop is `Tick`: build a cloud, encode it, send it to every member, and
    remove the members whose send raised.
  - The per-connection handler is `HandleClient`: `Open` registers the connection and produces the
    welcome, `Answer` replies to every `ping` with a `pong`, and `Disconnect` unregisters it.
- **Joystick normaliser**, the per-message body of `handle_client` in `services/control-svc.py`
  (module `ControlService`, file `control_service.dfy`).
  - A message is stripped and given a newline.
  - A message of exactly two comma-separated fields is parsed with `int()`. Values strictly between
    -5 and 5 become 0, and the pair is re-emitted as `l,r\n`.
  - Any other message is forwarded as it is.
  - A binary frame ends the connection, because adding its bytes to a str raises outside the
    per-message `try`.
  - A field that is not an integer gets an `Error: ...` reply, and so does a missing serial port.
- **The Python text operations the normaliser relies on** (module `PyText`, file `py_text.dfy`):
  - `str.strip()`, with Python's `str.isspace` set;
  - `str.split` on one character;
  - `int()` on a string, which skips a smaller white-space set than `strip()`: it does not skip
    the separator controls U+001C to U+001F;
  - `str()` of an integer;
  - `repr()` of a string, which appears in the error text of `int()`.
- `wrappers.dfy` holds the `Option` type.

Python floats are modelled as exact reals. The JSON and gzip encoding of a cloud is a function
parameter that may fail, and so is the success of each send.

## Model

| member | source | states |
|---|---|---|
| PointCloud.SwapRedBlue | services/server.py:58 | the converted colour has the first and third channels exchanged and the middle one kept, all values unchanged |
| PointCloud.ToCamera | services/server.py:88-89 | the camera coordinate times the focal length is the pixel offset from the principal point times z |
| PointCloud.Unproject | services/server.py:74-89 | a kept pixel's point has z = depth * units, x3d * fx = (x - ppx) * z and y3d * fy = (y - ppy) * z |
| PointCloud.Samples | services/server.py:69-70 | range(0, n, 2) visits k positions with n <= 2k <= n+1 |
| PointCloud.KeptPixels | services/server.py:69-72 | every visited-and-kept pixel is on the frame, on an even row and column, with non-zero depth |
| PointCloud.KeptPixelsComplete | services/server.py:69-72 | a pixel is visited and kept if and only if it is on an even row and column of the frame with a non-zero depth |
| PointCloud.KeptPixelsOrdered | services/server.py:69-70 | kept pixels are visited in strict row-major order, so no pixel is visited twice |
| PointCloud.KeptPixelsCount | services/server.py:69-72 | the number of visited pixels equals the number of kept pixels |
| PointCloud.PointCloudOf | services/server.py:50-103 | a built cloud has as many points as colours, one per kept pixel, and carries the timestamp passed in; when it fails is CloudFailure, what it holds is CloudCorrespondence |
| PointCloud.GeneratePointCloud | services/server.py:50-103 | the nested sampling loops return exactly PointCloudOf: None when the build raises, otherwise the parallel points and colours of the kept pixels in visiting order |
| PointCloud.SampleRow | services/server.py:70-93 | the inner loop over one row succeeds exactly when every kept pixel of that row lies inside the colour image, and then it has appended that row's points and colours |
| PointCloud.CloudCorrespondence | services/server.py:74-99 | in a built cloud, points and colours have the same length, which is the number of kept pixels; entry i of both comes from the i-th kept pixel, with z = depth * units, x3d = (x-ppx)z/fx, y3d = (y-ppy)z/fy and the colour channels swapped; the timestamp is the one passed in |
| PointCloud.CloudFailure | services/server.py:52-103 | the build returns None exactly when the colour image is empty or some kept pixel lies outside it |
| PointCloud.AllZeroDepthIsEmpty | services/server.py:69-99 | a frame with no depth return and a non-empty colour image gives an empty cloud, not None |
| PointCloud.PrincipalPointOnAxis | services/server.py:87-89 | the principal-point pixel unprojects to (0, 0, z) |
| PointCloud.AxisRoundTrip | services/server.py:88-89 | on one axis, projecting the unprojected coordinate gives back the pixel coordinate |
| PointCloud.ProjectUnproject | services/server.py:74-89 | for a pixel with a depth return and non-zero units, pinhole projection inverts the unprojection and z is depth * units |
| PointCloud.CalibrationExample | services/server.py:74-89 | with fx = fy = 600, principal point (320, 240) and units 0.001, a raw depth of 1000 at (240, 320) puts the point (0, 0, 1.0) in the cloud |
| Server.ReplyTo | services/server.py:192-194 | the only reply ever chosen for a client message is a pong |
| Server.IsPing | services/server.py:192-193 | a message is a ping when it decoded to a JSON object whose "type" member is the string "ping" (no contract of its own; used by ReplyToPing and RepliesCount) |
| Server.ReplyToPing | services/server.py:192-198 | a message is answered with a pong if and only if it is a JSON object whose type is "ping"; invalid JSON, non-objects and other types get no reply |
| Server.Replies | services/server.py:190-198 | the replies to a message sequence are all pongs and never more than the messages |
| Server.RepliesCount | services/server.py:190-198 | exactly one pong is sent per ping |
| Server.ConversationShape | services/server.py:182-198 | a connection receives first one welcome carrying "hi" and its id, then only pongs, one per ping when the welcome went through |
| Server.Conversation | services/server.py:182-198 | what a connection receives starts with the welcome carrying "hi" and its id |
| Server.Answer | services/server.py:190-198 | the message loop answers the messages with exactly Replies of them, in order |
| Server.Disconnected | services/server.py:151-159 | the clients found disconnected are members, and a member is among them if and only if its send raised |
| Server.SendRound | services/server.py:151-159 | the send loop collects exactly Disconnected(members, sendOk): the members whose send raised |
| Server.TickOf | services/server.py:137-162 | a round reports a missing frame exactly when one is missing, and a round that sends has a non-empty payload and disconnects exactly the members whose send raised |
| Server.ClientsAfter | services/server.py:144-164 | a round never adds clients |
| Server.SentRoundPrunes | services/server.py:150-164 | after a round that sends, a member stays if and only if its send succeeded, and the old size is the new size plus the number disconnected |
| Server.SkippedRound | services/server.py:137-148 | a round sends nothing if and only if a frame is missing, the colour image is empty, a kept pixel lies outside it, or the encoding of the built cloud is None or empty; such a round leaves the registry unchanged |
| Server.SmallColorFrameSkips | services/server.py:142-148 | a kept depth pixel outside the colour image makes the build fail, so the round sends nothing |
| Server.EmptyCloudIsSent | services/server.py:144-162 | a frame without any depth return still yields a cloud, and its non-empty encoding is sent to the members |
| Server.Streamer.constructor | services/server.py:13-37 | a new streamer has no clients and holds the calibration, which the source assigns later in setup_realsense (line 37); the constructor takes over that assignment |
| Server.Streamer.Tick | services/server.py:137-164 | one pass of the loop has the outcome given by TickOf on the registry it starts with, and leaves the registry pruned by exactly the failed sends, or unchanged when nothing is sent |
| Server.Streamer.Connect | services/server.py:178-179 | registering adds the connection and nothing else |
| Server.Streamer.Disconnect | services/server.py:205-206 | unregistering removes only the connection, and is a no-op when a round has already pruned it |
| Server.Streamer.Open | services/server.py:178-187 | the connection is added to the registry, and it is a member when the welcome with its id is produced |
| Server.Streamer.HandleClient | services/server.py:174-207 | the handler sends the welcome and then one pong per ping when the welcome went through, and on exit leaves the registry as it was without this connection; registration before the welcome is the contract of Open, which it calls first |
| ControlService.DeadZone | services/control-svc.py:22-27 | a value becomes 0 if and only if it lies strictly between -5 and 5; otherwise it passes through unclamped |
| ControlService.InvalidLiteral | services/control-svc.py:19-34 | int()'s error text is its fixed prefix followed by the repr of the field, cut to its first 200 characters |
| ControlService.Pair | services/control-svc.py:28 | the canonical line "l,r\n" (no contract of its own; PairTerminated and PairFixed state its properties) |
| ControlService.Normalise | services/control-svc.py:14-28 | what one message leads to with the port open (no contract of its own; the lemmas from NormaliseExample to NormaliseIdempotent state it) |
| ControlService.NormaliseExample | services/control-svc.py:14-28 | the message "10 , -3" is written as "10,0\n" |
| ControlService.PairRewrite | services/control-svc.py:14-28 | two integers in str() form, with str.isspace() white space around the message and int() white space next to the comma, are parsed back, dead-zoned independently and re-emitted as "l,r\n" |
| ControlService.ForwardVerbatim | services/control-svc.py:14-30 | a message that does not split into exactly two fields is written stripped, plus one newline |
| ControlService.TwoFieldsRewritten | services/control-svc.py:17-28 | a two-field message that is written is written in the canonical "l,r\n" form, with values outside the dead zone or 0 |
| ControlService.RejectedField | services/control-svc.py:19-34 | if either of two fields is not an integer, nothing is written and the reply is "Error: " plus int()'s message for the first bad field |
| ControlService.SeparatorControlRejected | services/control-svc.py:14-34 | the message "1,\x1c7" keeps its U+001C through strip(), so int() rejects "\x1c7\n" and nothing is written |
| ControlService.WrittenLineShape | services/control-svc.py:14-30 | every line written to serial ends in exactly one newline and has no other white space at either end |
| ControlService.PairFixed | services/control-svc.py:14-28 | a canonical pair fed back in is written unchanged |
| ControlService.VerbatimFixed | services/control-svc.py:14-30 | a stripped non-pair line with its newline, fed back in, is written unchanged |
| ControlService.NormaliseIdempotent | services/control-svc.py:14-28 | feeding any written line back in writes the same line again |
| ControlService.Step | services/control-svc.py:15-37 | handling a message never changes whether a serial port is open, and it either writes a line or sends a reply, never both and never neither |
| ControlService.StepWrites | services/control-svc.py:15-37 | one message writes at most one line, and that line ends in exactly one newline |
| ControlService.NoSerialSession | services/control-svc.py:15-37 | with no serial port nothing is written and every handled message gets "Error: Serial port not available" |
| ControlService.SessionAccounting | services/control-svc.py:12-37 | the old serial log is a prefix of the new one, and the lines written plus the replies sent equal the number of handled messages |
| ControlService.SessionLinesTerminated | services/control-svc.py:12-30 | every line a connection writes ends in exactly one newline |
| ControlService.Session | services/control-svc.py:12-42 | handling a connection never changes whether a serial port is open |
| ControlService.Handled | services/control-svc.py:12-14 | the messages handled are exactly the text frames in front of the first binary frame |
| ControlService.BinaryEndsSession | services/control-svc.py:12-42 | nothing after the first binary frame has any effect, because the TypeError it raises ends the handler |
| PyText.Strip | services/control-svc.py:14 | strip() never makes a text longer (its other properties are the Trim lemmas below, for the str.isspace() set) |
| PyText.TrimSpec | services/control-svc.py:14 | a trim, as in strip() and int(), leaves no white space of its set at either end |
| PyText.TrimPadded | services/control-svc.py:14 | trimming a trimmed text with only white space of the set around it gives back that text |
| PyText.TrimEmpty | services/control-svc.py:14 | a trim gives the empty string if and only if the text is all white space of its set |
| PyText.TrimIdempotent | services/control-svc.py:14 | trimming twice is trimming once |
| PyText.IntBlankIsSpace | services/control-svc.py:14-20 | the white space int() skips is part of what strip() removes |
| PyText.Split | services/control-svc.py:17 | split() always gives at least one piece |
| PyText.SplitSpec | services/control-svc.py:17 | split() gives one more piece than there are separators, and no piece contains the separator |
| PyText.JoinSplit | services/control-svc.py:17-18 | joining the pieces of split() with the separator gives back the text |
| PyText.SplitJoin | services/control-svc.py:17-18 | splitting the join of a non-empty list of separator-free pieces gives back the pieces |
| PyText.SplitPair | services/control-svc.py:17-18 | two separator-free parts joined by one separator split back into those two parts |
| PyText.Show | services/control-svc.py:28 | str() of an integer is never empty |
| PyText.ShowChars | services/control-svc.py:28 | str() of an integer is digits with an optional leading minus sign, has no white space of either set at either end and contains no comma |
| PyText.ShowNatValue | services/control-svc.py:28 | str() of a natural number is a well-formed digit string whose value is that number |
| PyText.ParseInt | services/control-svc.py:19-20 | int() of a text: int() white space (str.isspace() without U+001C..U+001F) around an optional sign and ASCII digits with single underscores between digits (no contract of its own; ParseShow and ParseIntForeign state it) |
| PyText.ParseShow | services/control-svc.py:19-28 | int() of str(n), with int() white space around it, is n |
| PyText.ParseIntForeign | services/control-svc.py:19-20 | int() rejects a text holding any character that is not a digit, an underscore, a sign or int() white space |
| PyText.DigitChar | services/control-svc.py:28 | each decimal digit is printed as a digit character whose value is that digit |
| PyText.Repr | services/control-svc.py:34 | repr() of a string is at least two characters long and is quoted with the same quote, ' or ", at both ends |
| PyText.ReprPlain | services/control-svc.py:34 | repr() of printable ASCII without quotes or backslashes is the text between single quotes |

## Left out

- Concurrency is left out: asyncio, the websockets library, and the `threading.Lock` held across
  `await` (services/server.py:150-154). One send round is modelled as one atomic step. Pings and pruning
  that interleave with a round are not modelled.
- The JSON serialisation and gzip compression of a cloud (services/server.py:105-118) are an opaque
  function parameter `encode` that may return None. Only the check that the payload is non-empty is
  modelled.
- RealSense set-up, frame alignment and frame acquisition (services/server.py:23-48, 131-135) are left
  out. A missing frame is an `Option` input.
- Server start-up, the `streaming` flag, the outer `while` and the frame-rate sleep
  (services/server.py:120-129, 166-172, 209-248) are left out. One iteration of the loop body is `Tick`.
- Logging through `print` is left out. `time.time()` is the parameter `now`.
- PointCloud: Python floats (IEEE doubles) are modelled as exact reals, so rounding is not modelled.
  fx and fy are required to be non-zero. With a zero focal length numpy would return inf or nan
  instead of raising.
- PointCloud: depth and colour images are required to be rectangular grids, as numpy arrays always
  are.
- Server.Client: `id(websocket)` is modelled as an abstract natural-number identity, and distinct
  connections are distinct clients.
- Server.Streamer.HandleClient: a welcome that cannot be sent ends the connection before any message is
  read. When a pong cannot be sent, the inner `except Exception` swallows the error and the loop goes
  on, so every ping still counts as answered.
- Server.Streamer.Tick: the send outcome of each client is a predicate parameter. Which exception a send raises
  is not modelled, since both kinds lead to the same pruning.
- ControlService: exceptions raised by `ser.write` are not modelled, and neither is what they reply.
  Serial-port discovery (services/control-svc.py:55-70) and server start-up are left out. Whether a
  port is open is a flag.
- ControlService: a binary frame ends the connection (BinaryEndsSession), but the message the outer
  `except` prints is not modelled.
- Server.Streamer.HandleClient: the handler is one step in the model. A caller that needs to interleave
  rounds with a connection calls Open, Tick, Answer and Disconnect separately; a round that prunes the
  connection makes the final Disconnect a no-op.
- PyText: `int()` is modelled on ASCII digits only. Python also accepts other Unicode decimal digits,
  and that is not modelled. The 4300-digit conversion limit is not modelled either.
- PyText.Repr: the set of characters that `repr()` escapes is approximated. It covers control
  characters, DEL to NBSP, the soft hyphen and Unicode white space other than the space. Other
  non-printable Unicode categories are not modelled.
- services/client.py, services/test_client.py, services/mjpeg.py and realsense_stuff/mjpeg_stream.py
  are not part of this model. The client's projection helpers are numpy display code, and the rest is
  GUI, Flask and camera I/O.
