/**
 * The NTRIP client (ntrip_client.py): it stores the caster's address, the
 * login and the mount point, computes the HTTP Basic credentials, sends the
 * request over a socket, accepts the session when the first reply contains
 * `ICY 200 OK`, and then writes NMEA sentences and reads correction bytes.
 *
 * The socket is an abstract byte sink and source (`Socket`): what the client
 * writes is appended to `sent`; what the caster replies is a queue of chunks.
 */
module NtripClient {
  import opened Wrappers
  import opened Text
  import Utf8
  import Base64

  type byte = Utf8.byte

  const CRLF := "\r\n"
  const SUCCESS_MARKER := "ICY 200 OK"
  /** Read sizes of `connect` and `receive_rtcm`. */
  const HANDSHAKE_READ: nat := 4096
  const RTCM_READ: nat := 8192
  /** The largest port number `socket.connect` accepts. */
  const PORT_MAX := 65535

  /** Python's `f"{v}"` for a field that holds a string or is still `None`. */
  function PyStr(v: Option<string>): string {
    match v
    case None => "None"
    case Some(s) => s
  }

  /** The user-pass text of section 2 of RFC 7617: the user id, a colon, the password. */
  function Credentials(userId: Option<string>, userPw: Option<string>): string {
    PyStr(userId) + ":" + PyStr(userPw)
  }

  /** `base64.b64encode(f"{user_id}:{user_pw}".encode()).decode()`. */
  function BasicAuth(userId: Option<string>, userPw: Option<string>): string {
    Base64.Encode(Utf8.Encode(Credentials(userId, userPw)))
  }

  /** The request `connect` sends, assembled piece by piece as the source does. */
  function Request(mount: string, auth: string): string {
    var msg := "GET /" + mount + " HTTP/1.1\r\n";
    var msg := msg + "User-Agent: NTRIP ntripclient\r\n";
    var msg := msg + ("Authorization: Basic " + auth + "\r\n");
    var msg := msg + "Accept: */*\r\nConnection: close\r\n";
    msg + "\r\n"
  }

  /** The request's lines: the request line, four header lines and the blank line that ends them. */
  function RequestLines(mount: string, auth: string): seq<string> {
    ["GET /" + mount + " HTTP/1.1",
     "User-Agent: NTRIP ntripclient",
     "Authorization: Basic " + auth,
     "Accept: */*",
     "Connection: close",
     "",
     ""]
  }

  /** The request ends with CRLF CRLF. */
  lemma RequestEndsWithBlankLine(mount: string, auth: string)
    ensures var r := Request(mount, auth); |r| >= 4 && r[|r| - 4..] == "\r\n\r\n"
  {
  }

  lemma Assoc(a: string, b: string, c: string)
    ensures (a + b) + c == a + (b + c)
  {
  }

  /** The literals of the source, each cut at its CRLF. */
  lemma RequestPieces(mount: string, auth: string)
    ensures Request(mount, auth)
      == ("GET /" + mount + " HTTP/1.1") + CRLF + ("User-Agent: NTRIP ntripclient" + CRLF
         + (("Authorization: Basic " + auth) + CRLF + ("Accept: */*" + CRLF
         + ("Connection: close" + CRLF + ("" + CRLF + "")))))
  {
    var l0, l1, l2, l3, l4 := "GET /" + mount + " HTTP/1.1", "User-Agent: NTRIP ntripclient",
      "Authorization: Basic " + auth, "Accept: */*", "Connection: close";
    var m0 := "GET /" + mount + " HTTP/1.1\r\n";
    var m1 := "User-Agent: NTRIP ntripclient\r\n";
    var m2 := "Authorization: Basic " + auth + "\r\n";
    var m3 := "Accept: */*\r\nConnection: close\r\n";
    var m4 := "\r\n";
    assert " HTTP/1.1\r\n" == " HTTP/1.1" + CRLF;
    Assoc("GET /" + mount, " HTTP/1.1", CRLF);
    assert m0 == l0 + CRLF;
    assert m1 == l1 + CRLF;
    assert m3 == (l3 + CRLF) + (l4 + CRLF);
    assert m4 == "" + CRLF + "";
    assert Request(mount, auth) == (((m0 + m1) + m2) + m3) + m4;
    Assoc(m0 + m1, m2, m3);
    Assoc(m0, m1, m2 + m3);
    Assoc(m0, m1 + (m2 + m3), m4);
    Assoc(m1, m2 + m3, m4);
    Assoc(m2, m3, m4);
    Assoc(l3 + CRLF, l4 + CRLF, m4);
  }

  /**
   * When neither the mount point nor the credentials contain a carriage
   * return, splitting the request at CRLF gives exactly its seven lines, so a
   * server reads the request line, the four headers and the terminating blank
   * line and nothing else.
   */
  lemma RequestLayout(mount: string, auth: string)
    requires '\r' !in mount && '\r' !in auth
    ensures Split(Request(mount, auth), CRLF) == RequestLines(mount, auth)
  {
    RequestPieces(mount, auth);
    LiteralsHaveNoCR();
    var l0, l2 := "GET /" + mount + " HTTP/1.1", "Authorization: Basic " + auth;
    assert '\r' !in l0 && '\r' !in l2;
    SplitFiveLinesAndBlank(l0, "User-Agent: NTRIP ntripclient", l2, "Accept: */*", "Connection: close");
  }

  lemma LiteralsHaveNoCR()
    ensures '\r' !in "GET /" && '\r' !in " HTTP/1.1" && '\r' !in "User-Agent: NTRIP ntripclient"
    ensures '\r' !in "Authorization: Basic " && '\r' !in "Accept: */*" && '\r' !in "Connection: close"
  {
  }

  /** One CRLF-free line followed by CRLF is peeled off by `split("\r\n")`. */
  lemma SplitLine(p: string, t: string)
    requires '\r' !in p
    ensures Split(p + CRLF + t, CRLF) == [p] + Split(t, CRLF)
  {
    assert CRLF[0] == '\r';
    SplitCons(p, CRLF, t);
  }

  /** The last line, then the empty line that ends the header block. */
  lemma SplitLastLines(l4: string)
    requires '\r' !in l4
    ensures Split(l4 + CRLF + ("" + CRLF + ""), CRLF) == [l4, "", ""]
  {
    SplitLine("", "");
    assert Split("", CRLF) == [""];
    SplitLine(l4, "" + CRLF + "");
  }

  /** Two CRLF-ended lines in front of text that splits into `rest`. */
  lemma SplitTwoLines(l0: string, l1: string, t: string, rest: seq<string>)
    requires '\r' !in l0 && '\r' !in l1 && Split(t, CRLF) == rest
    ensures Split(l0 + CRLF + (l1 + CRLF + t), CRLF) == [l0, l1] + rest
  {
    SplitLine(l1, t);
    SplitLine(l0, l1 + CRLF + t);
  }

  /** Five CRLF-free lines, each ended by CRLF, then one more CRLF, split into seven pieces. */
  lemma SplitFiveLinesAndBlank(l0: string, l1: string, l2: string, l3: string, l4: string)
    requires '\r' !in l0 && '\r' !in l1 && '\r' !in l2 && '\r' !in l3 && '\r' !in l4
    ensures Split(l0 + CRLF + (l1 + CRLF + (l2 + CRLF + (l3 + CRLF + (l4 + CRLF + ("" + CRLF + ""))))), CRLF)
      == [l0, l1, l2, l3, l4, "", ""]
  {
    var t4 := l4 + CRLF + ("" + CRLF + "");
    SplitLastLines(l4);
    var t2 := l2 + CRLF + (l3 + CRLF + t4);
    SplitTwoLines(l2, l3, t4, [l4, "", ""]);
    SplitTwoLines(l0, l1, t2, [l2, l3] + [l4, "", ""]);
    assert [l0, l1] + ([l2, l3] + [l4, "", ""]) == [l0, l1, l2, l3, l4, "", ""];
  }

  /** Base64 output never contains a carriage return. */
  lemma BasicAuthHasNoCR(userId: Option<string>, userPw: Option<string>)
    ensures '\r' !in BasicAuth(userId, userPw)
  {
    var b := Utf8.Encode(Credentials(userId, userPw));
    Base64.EncodeCharacters(b);
    var a := Base64.Encode(b);
    forall i | 0 <= i < |a| ensures a[i] != '\r' {
    }
  }

  /**
   * The caster recovers the credentials: the Basic token decodes (Base64, then
   * UTF-8) to `user:password`, and when the user id has no colon the first
   * colon separates the two, as section 2 of RFC 7617 requires.
   */
  lemma BasicAuthDecodes(userId: Option<string>, userPw: Option<string>)
    ensures Base64.Decode(BasicAuth(userId, userPw)) == Some(Utf8.Encode(Credentials(userId, userPw)))
    ensures Utf8.Decode(Utf8.Encode(Credentials(userId, userPw))) == Some(Credentials(userId, userPw))
    ensures ':' !in PyStr(userId) ==>
      var t := Credentials(userId, userPw);
      Find(t, ":") == Some(|PyStr(userId)|)
      && t[..|PyStr(userId)|] == PyStr(userId)
      && t[|PyStr(userId)| + 1..] == PyStr(userPw)
  {
    Base64.DecodeEncode(Utf8.Encode(Credentials(userId, userPw)));
    Utf8.DecodeEncode(Credentials(userId, userPw));
    if ':' !in PyStr(userId) {
      ColonSplits(PyStr(userId), PyStr(userPw));
    }
  }

  /** In `user + ":" + pw` with no colon in `user`, the first colon ends the user id. */
  lemma ColonSplits(user: string, pw: string)
    requires ':' !in user
    ensures var t := user + ":" + pw;
      Find(t, ":") == Some(|user|) && t[..|user|] == user && t[|user| + 1..] == pw
  {
    NoSepStart(user, ":", pw);
    var t := user + ":" + pw;
    assert t[..|user|] == user;
    assert t[|user| + 1..] == pw;
  }

  /** The error kinds of the operations below, as the Python code raises them. */
  datatype NtripError =
    | HostNotSet        // `socket.connect((None, None))` raises TypeError
    | PortOutOfRange    // `socket.connect` with a port outside 0-65535 raises OverflowError
    | AuthNotSet        // `"Authorization: Basic " + None` raises TypeError
    | ReplyNotUtf8      // `buffer.decode("utf-8")` raises UnicodeDecodeError
    | NoSocket          // `self.socket` is still None: AttributeError
    | SocketClosed      // the socket was closed: OSError
    | NotConnected      // `connect` failed before `socket.connect`: OSError

  /**
   * The accept/reject rule of `connect` applied to the first chunk received:
   * the chunk must decode as UTF-8, and the session is accepted exactly when
   * the text contains `ICY 200 OK`.
   */
  function HandshakeOutcome(reply: seq<byte>): (r: Result<bool, NtripError>)
    ensures r.Failure? <==> Utf8.Decode(reply).None?
    ensures r.Failure? ==> r.error == ReplyNotUtf8
    ensures r == Success(true) <==>
      exists text :: Utf8.Decode(reply) == Some(text) && exists i :: OccursAt(text, SUCCESS_MARKER, i)
  {
    match Utf8.Decode(reply)
    case None => Failure(ReplyNotUtf8)
    case Some(text) => Success(Contains(text, SUCCESS_MARKER))
  }

  /** An empty reply (the caster closed the connection) is a rejection. */
  lemma EmptyReplyRejected()
    ensures HandshakeOutcome([]) == Success(false)
  {
    assert !OccursAt("", SUCCESS_MARKER, 0);
  }

  /** For a reply sent as UTF-8 text, the session is accepted exactly when the text contains the marker. */
  lemma HandshakeOutcomeOfText(text: string)
    ensures HandshakeOutcome(Utf8.Encode(text)) == Success(exists i :: OccursAt(text, SUCCESS_MARKER, i))
  {
    Utf8.DecodeEncode(text);
  }

  /** The bytes `send_nmea` writes: the sentence followed by one CRLF. */
  function NmeaFrame(sentence: string): (r: seq<byte>)
  {
    Utf8.Encode(sentence + CRLF)
  }

  /** The frame is the sentence's own bytes, unchanged, then exactly the two bytes CR LF. */
  lemma NmeaFrameLayout(sentence: string)
    ensures NmeaFrame(sentence) == Utf8.Encode(sentence) + [13, 10]
    ensures Utf8.Decode(NmeaFrame(sentence)) == Some(sentence + "\r\n")
  {
    Utf8.EncodeAppend(sentence, CRLF);
    Utf8.DecodeEncode(sentence + CRLF);
  }

  /**
   * One `recv(max)` from a peer that delivers `incoming` chunk by chunk: at
   * most `max` bytes of the next chunk, the rest of it staying queued; an
   * empty result once the peer has nothing more to send.
   */
  function Receive(incoming: seq<seq<byte>>, max: nat): (r: (seq<byte>, seq<seq<byte>>))
    ensures |r.0| <= max
    ensures incoming == [] ==> r == ([], [])
    ensures incoming != [] ==>
      if |incoming[0]| <= max then r == (incoming[0], incoming[1..])
      else r.0 == incoming[0][..max] && r.1 == [incoming[0][max..]] + incoming[1..]
  {
    if incoming == [] then ([], [])
    else if |incoming[0]| <= max then (incoming[0], incoming[1..])
    else (incoming[0][..max], [incoming[0][max..]] + incoming[1..])
  }

  /** A TCP socket seen from the client: a byte sink and a byte source. */
  class Socket {
    /** The (address, port) pair given to `socket.connect`, once connected. */
    var endpoint: Option<(string, int)>
    /** Every byte written with `send`, in order. */
    var sent: seq<byte>
    /** The chunks the peer will deliver, in order. */
    var incoming: seq<seq<byte>>
    var closed: bool

    /** `socket.socket()`: a new, unconnected socket whose peer will send `incoming`. */
    constructor (incoming: seq<seq<byte>>)
      ensures endpoint.None? && sent == [] && this.incoming == incoming && !closed
    {
      endpoint := None;
      sent := [];
      this.incoming := incoming;
      closed := false;
    }

    method Connect(address: string, port: int)
      modifies this
      ensures endpoint == Some((address, port))
      ensures sent == old(sent) && incoming == old(incoming) && closed == old(closed)
    {
      endpoint := Some((address, port));
    }

    /** Writing needs a connected socket that is still open. */
    method Send(data: seq<byte>) returns (ok: bool)
      modifies this
      ensures ok == (endpoint.Some? && !closed)
      ensures sent == if ok then old(sent) + data else old(sent)
      ensures endpoint == old(endpoint) && incoming == old(incoming) && closed == old(closed)
    {
      ok := endpoint.Some? && !closed;
      if ok {
        sent := sent + data;
      }
    }

    /** Reading, like writing, needs a connected socket that is still open. */
    method Recv(max: nat) returns (r: Option<seq<byte>>)
      modifies this
      ensures closed || endpoint.None? ==> r.None? && incoming == old(incoming)
      ensures endpoint.Some? && !closed ==>
        r == Some(Receive(old(incoming), max).0) && incoming == Receive(old(incoming), max).1
      ensures endpoint == old(endpoint) && sent == old(sent) && closed == old(closed)
    {
      if closed || endpoint.None? {
        r := None;
      } else {
        var step := Receive(incoming, max);
        r := Some(step.0);
        incoming := step.1;
      }
    }

    method Close()
      modifies this
      ensures closed
      ensures endpoint == old(endpoint) && sent == old(sent) && incoming == old(incoming)
    {
      closed := true;
    }
  }

  class NtripClient {
    var hostAddress: Option<string>
    var hostPort: Option<int>
    var userId: Option<string>
    var userPw: Option<string>
    var mountPoint: Option<string>
    var socket: Option<Socket>
    var auth: Option<string>

    /** `auth` is computed together with the mount point, so one is set exactly when the other is. */
    ghost predicate Valid()
      reads this
    {
      auth.Some? <==> mountPoint.Some?
    }

    /** The socket object, if any: what `close`, `send_nmea` and `receive_rtcm` act on. */
    function SocketFrame(): set<object>
      reads this
    {
      if socket.Some? then {socket.value} else {}
    }

    constructor ()
      ensures Valid()
      ensures hostAddress.None? && hostPort.None? && userId.None? && userPw.None?
      ensures mountPoint.None? && socket.None? && auth.None?
    {
      hostAddress, hostPort := None, None;
      userId, userPw := None, None;
      mountPoint, socket, auth := None, None, None;
    }

    method SetHost(address: string, port: int)
      requires Valid()
      modifies this
      ensures Valid()
      ensures hostAddress == Some(address) && hostPort == Some(port)
      ensures userId == old(userId) && userPw == old(userPw) && mountPoint == old(mountPoint)
      ensures socket == old(socket) && auth == old(auth)
    {
      hostAddress := Some(address);
      hostPort := Some(port);
    }

    /** Stores the login; an `auth` computed earlier is NOT recomputed. */
    method SetLoginInfo(id: string, password: string)
      requires Valid()
      modifies this
      ensures Valid()
      ensures userId == Some(id) && userPw == Some(password)
      ensures hostAddress == old(hostAddress) && hostPort == old(hostPort) && mountPoint == old(mountPoint)
      ensures socket == old(socket) && auth == old(auth)
    {
      userId := Some(id);
      userPw := Some(password);
    }

    /** Stores the mount point and computes `auth` from the login stored at this moment. */
    method SetMountpoint(mountpoint: string)
      requires Valid()
      modifies this
      ensures Valid()
      ensures mountPoint == Some(mountpoint)
      ensures auth == Some(BasicAuth(userId, userPw))
      ensures hostAddress == old(hostAddress) && hostPort == old(hostPort)
      ensures userId == old(userId) && userPw == old(userPw) && socket == old(socket)
    {
      mountPoint := Some(mountpoint);
      auth := Some(BasicAuth(userId, userPw));
    }

    /**
     * `connect`, with `sock` the fresh socket `socket.socket()` returns. The
     * socket is stored first; `socket.connect` rejects a missing host or port
     * and a port outside 0-65535 before anything is sent. Without `auth` the
     * request cannot be built. Otherwise the request is written and the first
     * chunk read (at most 4096 bytes) decides the outcome.
     */
    method Connect(sock: Socket) returns (r: Result<bool, NtripError>)
      requires Valid()
      requires !sock.closed
      modifies this, sock
      ensures Valid()
      ensures socket == Some(sock)
      ensures hostAddress == old(hostAddress) && hostPort == old(hostPort) && userId == old(userId)
      ensures userPw == old(userPw) && mountPoint == old(mountPoint) && auth == old(auth)
      ensures !sock.closed
      ensures hostAddress.None? || hostPort.None? ==>
        r == Failure(HostNotSet) && sock.endpoint == old(sock.endpoint)
        && sock.sent == old(sock.sent) && sock.incoming == old(sock.incoming)
      ensures hostAddress.Some? && hostPort.Some? && !(0 <= hostPort.value <= PORT_MAX) ==>
        r == Failure(PortOutOfRange) && sock.endpoint == old(sock.endpoint)
        && sock.sent == old(sock.sent) && sock.incoming == old(sock.incoming)
      ensures hostAddress.Some? && hostPort.Some? && 0 <= hostPort.value <= PORT_MAX ==>
        sock.endpoint == Some((hostAddress.value, hostPort.value))
      ensures hostAddress.Some? && hostPort.Some? && 0 <= hostPort.value <= PORT_MAX && auth.None? ==>
        r == Failure(AuthNotSet) && sock.sent == old(sock.sent) && sock.incoming == old(sock.incoming)
      ensures hostAddress.Some? && hostPort.Some? && 0 <= hostPort.value <= PORT_MAX && auth.Some? ==>
        && sock.sent == old(sock.sent) + Utf8.Encode(Request(PyStr(mountPoint), auth.value))
        && r == HandshakeOutcome(Receive(old(sock.incoming), HANDSHAKE_READ).0)
        && sock.incoming == Receive(old(sock.incoming), HANDSHAKE_READ).1
    {
      socket := Some(sock);
      if hostAddress.None? || hostPort.None? {
        return Failure(HostNotSet);
      }
      if !(0 <= hostPort.value <= PORT_MAX) {
        return Failure(PortOutOfRange);
      }
      sock.Connect(hostAddress.value, hostPort.value);
      if auth.None? {
        return Failure(AuthNotSet);
      }
      var msg := Request(PyStr(mountPoint), auth.value);
      var _ := sock.Send(Utf8.Encode(msg));
      var buffer := sock.Recv(HANDSHAKE_READ);
      r := HandshakeOutcome(buffer.value);
    }

    /** `send_nmea`: writes the sentence and one CRLF. */
    method SendNmea(sentence: string) returns (r: Result<(), NtripError>)
      requires Valid()
      modifies SocketFrame()
      ensures Valid()
      ensures socket.None? ==> r == Failure(NoSocket)
      ensures socket.Some? ==>
        var s := socket.value;
        && (r == if old(s.closed) then Failure(SocketClosed)
                 else if old(s.endpoint).None? then Failure(NotConnected)
                 else Success(()))
        && s.sent == (if r.Success? then old(s.sent) + NmeaFrame(sentence) else old(s.sent))
        && s.incoming == old(s.incoming) && s.closed == old(s.closed) && s.endpoint == old(s.endpoint)
    {
      if socket.None? {
        return Failure(NoSocket);
      }
      var s := socket.value;
      var closed := s.closed;
      var ok := s.Send(NmeaFrame(sentence));
      r := if ok then Success(()) else if closed then Failure(SocketClosed) else Failure(NotConnected);
    }

    /** `receive_rtcm`: one read of at most 8192 bytes, passed through unchanged. */
    method ReceiveRtcm() returns (r: Result<seq<byte>, NtripError>)
      requires Valid()
      modifies SocketFrame()
      ensures Valid()
      ensures socket.None? ==> r == Failure(NoSocket)
      ensures socket.Some? ==>
        var s := socket.value;
        && s.sent == old(s.sent) && s.closed == old(s.closed) && s.endpoint == old(s.endpoint)
        && (old(s.closed) ==> r == Failure(SocketClosed) && s.incoming == old(s.incoming))
        && (!old(s.closed) && old(s.endpoint).None? ==> r == Failure(NotConnected) && s.incoming == old(s.incoming))
        && (!old(s.closed) && old(s.endpoint).Some? ==>
              r == Success(Receive(old(s.incoming), RTCM_READ).0)
              && s.incoming == Receive(old(s.incoming), RTCM_READ).1)
    {
      if socket.None? {
        return Failure(NoSocket);
      }
      var s := socket.value;
      var closed := s.closed;
      var data := s.Recv(RTCM_READ);
      r := if data.Some? then Success(data.value) else if closed then Failure(SocketClosed) else Failure(NotConnected);
    }

    /** `close`: closes the socket if `connect` created one, and does nothing otherwise. */
    method Close()
      requires Valid()
      modifies SocketFrame()
      ensures Valid()
      ensures socket.Some? ==>
        var s := socket.value;
        s.closed && s.sent == old(s.sent) && s.incoming == old(s.incoming) && s.endpoint == old(s.endpoint)
    {
      if socket.Some? {
        socket.value.Close();
      }
    }
  }
}
