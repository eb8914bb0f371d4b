/** The control-connection state machine of `FtpService`: sending a command
    and reading its reply, the login handshake, closing, the transfer type,
    changing directory and opening a passive data connection.

    A session is a value; every operation returns the session after it
    together with its outcome, because the client keeps the state it reached
    when it throws (`StatusCode`, `_result`, a consumed reply). */
module Session {
  import opened Base
  import opened Text
  import opened Numbers
  import opened Replies
  import opened Passive

  const NotLoggedIn := "You need to log in before you can perform this operation"
  const NoDirectory := "A directory name wasn't provided. Please provide one and try your request again."
  const ConnectError := "Couldn't connect to remote server"

  /** `_ftpSocket`: null, connected, or created but never connected (what a
      failed login leaves behind). */
  datatype Socket = Absent | Open | Unconnected

  /** What happens when the client dials the address of a PASV reply:
      the DNS lookup fails, the connect fails, or the server accepts and will
      send these chunks. */
  datatype DataConn = Unresolved | Refused | Accepted(chunks: seq<Chunk>)

  /** The commands the client sends; `Text` is the line before "\r\n". */
  datatype Command =
    | User(name: string)
    | Pass(password: string)
    | Type(binary: bool)
    | Pasv
    | Rest(offset: nat)
    | Stor(file: string)
    | Retr(file: string)
    | Size(file: string)
    | Nlst(mask: string)
    | Cwd(dir: string)
    | Pwd
    | Dele(file: string)
    | Rnfr(file: string)
    | Rnto(file: string)
    | Mkd(dir: string)
    | Quit
  {
    function Text(): string
    {
      match this
      case User(n) => "USER " + n
      case Pass(p) => "PASS " + p
      case Type(b) => if b then "TYPE I" else "TYPE A"
      case Pasv => "PASV"
      case Rest(n) => "REST " + Decimal(n)
      case Stor(f) => "STOR " + f
      case Retr(f) => "RETR " + f
      case Size(f) => "SIZE " + f
      case Nlst(m) => "NLST " + m
      case Cwd(d) => "CWD " + d
      case Pwd => "PWD"
      case Dele(f) => "DELE " + f
      case Rnfr(f) => "RNFR " + f
      case Rnto(f) => "RNTO " + f
      case Mkd(d) => "MKD " + d
      case Quit => "QUIT"
    }
  }

  /** What the outside world sees of a session: commands on the control
      connection, data connections opened, file contents sent on them. */
  datatype Event = Sent(command: Command) | Dialed(endpoint: Endpoint) | Transmitted(data: seq<Byte>)

  /** The fields of `FtpService` the core reads or writes, plus its
      environment: the bytes the server has yet to send on the control
      connection, the data connections it offers one per PASV, and the local
      files. */
  datatype Session = Session(
    user: string,
    password: string,
    path: string,
    loggedIn: bool,
    binary: bool,
    status: int,
    result: string,
    control: Socket,
    incoming: seq<Chunk>,
    offers: seq<DataConn>,
    dialed: nat,
    files: map<string, seq<Byte>>,
    trace: seq<Event>)

  /** The session an operation leaves behind and what it returned or threw. */
  datatype Out<+T> = Out(session: Session, result: Result<T>) {

    predicate IsFailure() {
      result.Err?
    }

    function PropagateFailure<U>(): Out<U>
      requires result.Err?
    {
      Out(session, Err(result.error))
    }

    function Extract(): Out<T>
      requires result.Ok?
    {
      this
    }
  }

  // ---------------------------------------------------------------------
  // Relations between the session before and after an operation.

  predicate Prefix<T(==)>(a: seq<T>, b: seq<T>)
  {
    |a| <= |b| && b[..|a|] == a
  }

  /** What no operation undoes: the credentials, `_isBinary` and the
      server's offers stay, events are only appended, data connections are
      only used up. */
  predicate Grows(s: Session, t: Session)
  {
    && t.user == s.user && t.password == s.password && t.binary == s.binary
    && t.offers == s.offers && s.dialed <= t.dialed
    && Prefix(s.trace, t.trace)
  }

  /** A step that only talks to the server: besides growing, it consumes
      control bytes and may set `StatusCode` and `_result`, nothing else. */
  predicate Quiet(s: Session, t: Session)
  {
    && Grows(s, t)
    && t.loggedIn == s.loggedIn && t.control == s.control
    && t.path == s.path && t.files == s.files && t.dialed == s.dialed
  }

  /** The directories of the CWD commands of a trace, in order. */
  function Cwds(trace: seq<Event>): seq<string>
  {
    if |trace| == 0 then []
    else
      var e := trace[|trace| - 1];
      Cwds(trace[..|trace| - 1]) + if e.Sent? && e.command.Cwd? then [e.command.dir] else []
  }

  lemma CwdsAppend(trace: seq<Event>, e: Event)
    ensures Cwds(trace + [e]) == Cwds(trace) + if e.Sent? && e.command.Cwd? then [e.command.dir] else []
  {
    assert (trace + [e])[..|trace|] == trace;
  }

  /** Being logged in implies a connected control socket. */
  predicate Inv(s: Session)
  {
    s.loggedIn ==> s.control == Open
  }

  lemma GrowsTransitive(a: Session, b: Session, c: Session)
    requires Grows(a, b) && Grows(b, c)
    ensures Grows(a, c)
  {
    assert c.trace[..|b.trace|][..|a.trace|] == c.trace[..|a.trace|];
  }

  lemma QuietTransitive(a: Session, b: Session, c: Session)
    requires Quiet(a, b) && Quiet(b, c)
    ensures Quiet(a, c)
  {
    GrowsTransitive(a, b, c);
  }

  /** The state of a new `FtpService(server, path, user, password)`. */
  function Create(path: string, user: string, password: string,
                  files: map<string, seq<Byte>>, offers: seq<DataConn>): (s: Session)
    ensures Inv(s) && !s.loggedIn && s.control == Absent && !s.binary && s.status == 0
    ensures s.path == path && s.user == user && s.password == password && s.trace == []
  {
    Session(user, password, path, false, false, 0, "", Absent, [], offers, 0, files, [])
  }

  /** `new FtpException(_result.Substring(4))`: the reply text after the code,
      or an index error when `_result` is shorter (only before any reply). */
  function Reject(s: Session): (e: Error)
    ensures |s.result| >= 4 ==> e == Ftp(s.result[4..])
    ensures |s.result| < 4 ==> e == OutOfRange
  {
    if |s.result| >= 4 then Ftp(s.result[4..]) else OutOfRange
  }

  /** `ReadResponse`: read one reply off the control connection and set
      `_result` and `StatusCode`. A null or unconnected socket throws. The
      line is stored in `_result` before its code is parsed, so a line whose
      code does not parse is kept although the read throws. */
  function Receive(s: Session): (o: Out<()>)
    ensures Quiet(s, o.session) && o.session.trace == s.trace
    ensures s.control != Open ==> o == Out(s, Err(SocketClosed))
    ensures s.control == Open ==>
              var got := ReadResponse(s.incoming);
              && o.session.incoming == got.rest
              && (o.result.Ok? <==> got.result.Ok?)
              && (got.result.Ok? ==>
                    o.session.status == got.result.value.code && o.session.result == got.result.value.line)
              && (got.result.Err? ==>
                    && o.result == Err(got.result.error)
                    && var l := ReadLine("", s.incoming);
                    && o.session == s.(incoming := got.rest, result := if l.result.Ok? then l.result.value else s.result))
  {
    if s.control != Open then Out(s, Err(SocketClosed))
    else
      var l := ReadLine("", s.incoming);
      var got := ReadResponse(s.incoming);
      var t := s.(incoming := got.rest);
      match got.result
      case Err(e) => Out(if l.result.Ok? then t.(result := l.result.value) else t, Err(e))
      case Ok(reply) => Out(t.(status := reply.code, result := reply.line), Ok(()))
  }

  /** `Execute`: send one command, then read its reply. */
  function Execute(s: Session, command: Command): (o: Out<()>)
    ensures Quiet(s, o.session)
    ensures s.control != Open ==> o == Out(s, Err(SocketClosed))
    ensures s.control == Open ==>
              && o.session.trace == s.trace + [Sent(command)]
              && o == Receive(s.(trace := s.trace + [Sent(command)]))
  {
    if s.control != Open then Out(s, Err(SocketClosed))
    else
      QuietSend(s, command);
      Receive(s.(trace := s.trace + [Sent(command)]))
  }

  lemma QuietSend(s: Session, command: Command)
    ensures Quiet(s, s.(trace := s.trace + [Sent(command)]))
  {
  }

  /** Send a command and demand one of the reply codes; any other code
      throws the reply text. */
  function Expect(s: Session, command: Command, codes: set<int>): (o: Out<()>)
    ensures Quiet(s, o.session)
    ensures o.result.Ok? ==> o.session.status in codes && o.session.trace == s.trace + [Sent(command)]
    ensures s.control != Open ==> o == Out(s, Err(SocketClosed))
    ensures var e := Execute(s, command);
            && (e.result.Err? ==> o == e)
            && (e.result.Ok? && e.session.status in codes ==> o == e)
            && (e.result.Ok? && e.session.status !in codes ==> o == Out(e.session, Err(Reject(e.session))))
  {
    var e :- Execute(s, command);
    if e.session.status in codes then e else Out(e.session, Err(Reject(e.session)))
  }

  /** A command other than CWD adds no directory change to the trace. */
  lemma ExpectCwds(s: Session, command: Command, codes: set<int>)
    requires !command.Cwd?
    ensures Cwds(Execute(s, command).session.trace) == Cwds(s.trace)
    ensures Cwds(Expect(s, command, codes).session.trace) == Cwds(s.trace)
  {
    CwdsAppend(s.trace, Sent(command));
  }

  /** `LogOut`: drop the control socket and the logged-in flag. */
  function LogOut(s: Session): (t: Session)
    ensures Inv(t) && !t.loggedIn && t.control == Absent
    ensures t == s.(control := Absent, loggedIn := false)
  {
    s.(control := Absent, loggedIn := false)
  }

  /** `CloseConnection`: QUIT on any existing socket (its reply code is not
      looked at, and a failed send or read skips the logout), then log out. */
  function Close(s: Session): (o: Out<()>)
    ensures Cwds(o.session.trace) == Cwds(s.trace)
    ensures Grows(s, o.session) && Inv(o.session) == (Inv(s) || o.result.Ok?)
    ensures o.result.Ok? <==> s.control == Absent || (s.control == Open && Execute(s, Quit).result.Ok?)
    ensures o.result.Ok? ==> !o.session.loggedIn && o.session.control == Absent
    ensures s.control == Absent ==> o == Out(LogOut(s), Ok(()))
    ensures s.control != Absent ==> o.session.trace == s.trace + [Sent(Quit)] || o == Out(s, Err(SocketClosed))
  {
    ExpectCwds(s, Quit, {});
    var q :- if s.control != Absent then Execute(s, Quit) else Out(s, Ok(()));
    Out(LogOut(q.session), Ok(()))
  }

  /** The `IsBinary` setter: it compares with `_isBinary`, which nothing ever
      assigns, so asking for binary sends TYPE I every time and asking for
      ASCII never sends anything. A reply other than 200 throws. */
  function SetBinary(s: Session, value: bool): (o: Out<()>)
    ensures Quiet(s, o.session) && Cwds(o.session.trace) == Cwds(s.trace)
    ensures s.binary == value ==> o == Out(s, Ok(()))
    ensures s.binary != value ==> o == Expect(s, Type(value), {200})
  {
    ExpectCwds(s, Type(value), {200});
    if s.binary == value then Out(s, Ok(())) else Expect(s, Type(value), {200})
  }

  /** `ChangeWorkingDirectory`: the name is checked before the login; CWD
      must answer 250 and PWD 257, and the new path is the text between the
      first two double quotes of the PWD reply (an index error without one). */
  function ChangeWorkingDirectory(s: Session, dir: string): (o: Out<()>)
    ensures Grows(s, o.session)
    ensures o.session.loggedIn == s.loggedIn && o.session.control == s.control && o.session.files == s.files
    ensures dir == "." || dir == "" ==> o == Out(s, Err(Ftp(NoDirectory)))
    ensures dir != "." && dir != "" && !s.loggedIn ==> o == Out(s, Err(Ftp(NotLoggedIn)))
    ensures dir != "." && dir != "" && s.loggedIn ==> o == ChangeTo(s, dir)
    ensures o.result.Ok? ==>
              && Expect(s, Cwd(dir), {250}).result.Ok?
              && o.session.trace == s.trace + [Sent(Cwd(dir))] + [Sent(Pwd)]
              && o.session.status == 257
              && QuotedPath(o.session.result) == Ok(o.session.path)
    ensures o.session.path != s.path ==> o.result.Ok?
  {
    if dir == "." || dir == "" then Out(s, Err(Ftp(NoDirectory)))
    else if !s.loggedIn then Out(s, Err(Ftp(NotLoggedIn)))
    else ChangeTo(s, dir)
  }

  /** A successful change of directory adds exactly its directory to the
      CWD history. */
  lemma ChangeCwds(s: Session, dir: string)
    ensures ChangeWorkingDirectory(s, dir).result.Ok? ==>
              Cwds(ChangeWorkingDirectory(s, dir).session.trace) == Cwds(s.trace) + [dir]
  {
    if ChangeWorkingDirectory(s, dir).result.Ok? {
      CwdsAppend(s.trace, Sent(Cwd(dir)));
      CwdsAppend(s.trace + [Sent(Cwd(dir))], Sent(Pwd));
    }
  }

  /** CWD and PWD of `ChangeWorkingDirectory` once the checks passed. */
  function ChangeTo(s: Session, dir: string): (o: Out<()>)
    ensures Grows(s, o.session)
    ensures o.session.loggedIn == s.loggedIn && o.session.control == s.control && o.session.files == s.files
    ensures Expect(s, Cwd(dir), {250}).result.Err? ==> o == Expect(s, Cwd(dir), {250})
    ensures Expect(s, Cwd(dir), {250}).result.Ok? ==> o == Locate(Expect(s, Cwd(dir), {250}).session)
    ensures o.result.Ok? ==>
              && Expect(s, Cwd(dir), {250}).result.Ok?
              && o.session.trace == s.trace + [Sent(Cwd(dir))] + [Sent(Pwd)]
              && o.session.status == 257
              && QuotedPath(o.session.result) == Ok(o.session.path)
    ensures o.session.path != s.path ==> o.result.Ok?
  {
    var c := Expect(s, Cwd(dir), {250});
    if c.result.Err? then c
    else
      var p := Locate(c.session);
      GrowsTransitive(s, c.session, p.session);
      p
  }

  /** PWD, which must answer 257, and the path it names. */
  function Locate(s: Session): (o: Out<()>)
    ensures Grows(s, o.session)
    ensures o.session.loggedIn == s.loggedIn && o.session.control == s.control && o.session.files == s.files
    ensures o.result.Ok? ==>
              && o.session.trace == s.trace + [Sent(Pwd)]
              && o.session.status == 257
              && QuotedPath(o.session.result) == Ok(o.session.path)
    ensures o.session.path != s.path ==> o.result.Ok?
  {
    var p := Expect(s, Pwd, {257});
    if p.result.Err? then p
    else
      match QuotedPath(p.session.result)
      case Err(e) => Out(p.session, Err(e))
      case Ok(path) => Out(p.session.(path := path), Ok(()))
  }

  /** `_statusMessage.Split('"')[1]`: the second piece of the reply split at
      double quotes, an index error when there is only one piece. Stated
      through `IndexOf`: the text after the first quote, up to the next one
      or the end. */
  function QuotedPath(reply: string): (r: Result<string>)
    ensures r.Ok? <==> '"' in reply
    ensures r.Err? ==> r.error == OutOfRange
    ensures r.Ok? ==>
              var rest := reply[IndexOf(reply, '"') + 1..];
              r.value == if '"' in rest then rest[..IndexOf(rest, '"')] else rest
  {
    var pieces := Split(reply, '"');
    QuotedPieces(reply);
    if |pieces| < 2 then Err(OutOfRange) else Ok(pieces[1])
  }

  lemma QuotedPieces(reply: string)
    ensures '"' !in reply ==> Split(reply, '"') == [reply]
    ensures '"' in reply ==>
              var rest := reply[IndexOf(reply, '"') + 1..];
              && |Split(reply, '"')| >= 2
              && Split(reply, '"')[1] == if '"' in rest then rest[..IndexOf(rest, '"')] else rest
  {
    if '"' !in reply {
      SplitNoSeparator(reply, '"');
    } else {
      var i := IndexOf(reply, '"');
      var a, rest := reply[..i], reply[i + 1..];
      SplitFirst(a, '"', rest);
      assert a + ['"'] + rest == reply;
      FirstPiece(rest);
    }
  }

  /** The first piece of a split at double quotes reaches the first quote. */
  lemma {:induction false} FirstPiece(rest: string)
    ensures Split(rest, '"')[0] == if '"' in rest then rest[..IndexOf(rest, '"')] else rest
    decreases |rest|
  {
    if |rest| > 0 && rest[0] != '"' {
      var tail := rest[1..];
      FirstPiece(tail);
      assert rest == [rest[0]] + tail;
      assert ('"' in rest) == ('"' in tail);
      if '"' in tail {
        var k := IndexOf(tail, '"');
        assert IndexOf(rest, '"') == k + 1;
        assert rest[..k + 1] == [rest[0]] + tail[..k];
      }
    }
  }

  /** The login handshake of `FtpLogin` after the optional close: connect,
      demand the 220 greeting, send USER, and PASS only when USER was
      answered 331. A refused greeting closes the connection and throws the
      text of the QUIT reply, which has overwritten `_result`; a refused
      USER or PASS logs out and throws its reply text. */
  function Connect(s: Session, reachable: bool, stream: seq<Chunk>): (o: Out<()>)
    requires !s.loggedIn
    ensures Grows(s, o.session) && o.session.path == s.path && o.session.files == s.files
    ensures Inv(o.session) && (o.session.loggedIn <==> o.result.Ok?)
    ensures !reachable ==> o == Out(s.(control := Unconnected), Err(Ftp(ConnectError)))
    ensures reachable ==> o == Greet(s.(control := Open, incoming := stream))
  {
    if !reachable then Out(s.(control := Unconnected), Err(Ftp(ConnectError)))
    else
      var started := s.(control := Open, incoming := stream);
      assert Grows(s, started) by {
        assert started.trace[..|s.trace|] == s.trace;
      }
      GrowsTransitive(s, started, Greet(started).session);
      Greet(started)
  }

  /** The 220 greeting; any other code closes the connection, whose QUIT
      reply text is then thrown. */
  function Greet(s: Session): (o: Out<()>)
    requires !s.loggedIn
    ensures Grows(s, o.session) && o.session.path == s.path && o.session.files == s.files
    ensures Inv(o.session) && (o.session.loggedIn <==> o.result.Ok?)
    ensures var g := Receive(s);
            && (g.result.Err? ==> o == g)
            && (g.result.Ok? && g.session.status == 220 ==> o == SendUser(g.session))
            && (g.result.Ok? && g.session.status != 220 && Close(g.session).result.Ok? ==>
                  o == Out(Close(g.session).session, Err(Reject(Close(g.session).session))))
            && (g.result.Ok? && g.session.status != 220 && Close(g.session).result.Err? ==> o == Close(g.session))
  {
    var g :- Receive(s);
    if g.session.status != 220 then
      GrowsTransitive(s, g.session, Close(g.session).session);
      var c :- Close(g.session);
      Out(c.session, Err(Reject(c.session)))
    else
      GrowsTransitive(s, g.session, SendUser(g.session).session);
      SendUser(g.session)
  }

  /** USER: 230 logs in at once, 331 asks for the password, anything else
      logs out and throws the reply text. */
  function SendUser(s: Session): (o: Out<()>)
    requires !s.loggedIn
    ensures Grows(s, o.session) && o.session.path == s.path && o.session.files == s.files
    ensures Inv(o.session) && (o.session.loggedIn <==> o.result.Ok?)
    ensures var u := Execute(s, User(s.user));
            && (u.result.Err? ==> o == u)
            && (u.result.Ok? && u.session.status == 230 ==> o == Out(u.session.(loggedIn := true), Ok(())))
            && (u.result.Ok? && u.session.status == 331 ==> o == SendPassword(u.session))
            && (u.result.Ok? && u.session.status != 230 && u.session.status != 331 ==>
                  o == Out(LogOut(u.session), Err(Reject(u.session))))
  {
    var u :- Execute(s, User(s.user));
    if u.session.status != 331 && u.session.status != 230 then
      Out(LogOut(u.session), Err(Reject(u.session)))
    else if u.session.status == 230 then
      Out(u.session.(loggedIn := true), Ok(()))
    else
      GrowsTransitive(s, u.session, SendPassword(u.session).session);
      SendPassword(u.session)
  }

  /** PASS: 230 or 202 logs in, anything else logs out and throws the reply
      text. */
  function SendPassword(s: Session): (o: Out<()>)
    requires !s.loggedIn
    ensures Grows(s, o.session) && o.session.path == s.path && o.session.files == s.files
    ensures Inv(o.session) && (o.session.loggedIn <==> o.result.Ok?)
    ensures var p := Execute(s, Pass(s.password));
            && (p.result.Err? ==> o == p)
            && (p.result.Ok? && p.session.status in {230, 202} ==> o == Out(p.session.(loggedIn := true), Ok(())))
            && (p.result.Ok? && p.session.status !in {230, 202} ==>
                  o == Out(LogOut(p.session), Err(Reject(p.session))))
  {
    var p :- Execute(s, Pass(s.password));
    if p.session.status != 230 && p.session.status != 202 then
      Out(LogOut(p.session), Err(Reject(p.session)))
    else
      Out(p.session.(loggedIn := true), Ok(()))
  }

  /** `FtpLogin`: close a logged-in session, run the handshake, then change
      to the configured path. */
  function Login(s: Session, reachable: bool, stream: seq<Chunk>): (o: Out<()>)
    ensures Grows(s, o.session) && o.session.files == s.files
    ensures Inv(s) ==> Inv(o.session)
    ensures o.result.Ok? ==> o.session.loggedIn && o.session.control == Open
    ensures !s.loggedIn ==> o == Handshake(s, reachable, stream)
    ensures s.loggedIn && Close(s).result.Err? ==> o == Close(s)
    ensures s.loggedIn && Close(s).result.Ok? ==> o == Handshake(Close(s).session, reachable, stream)
  {
    var c := if s.loggedIn then Close(s) else Out(s, Ok(()));
    if c.result.Err? then c
    else
      GrowsTransitive(s, c.session, Handshake(c.session, reachable, stream).session);
      Handshake(c.session, reachable, stream)
  }

  /** The part of `FtpLogin` after the optional close. A failure of the
      final CWD leaves the session logged in. */
  function Handshake(s: Session, reachable: bool, stream: seq<Chunk>): (o: Out<()>)
    requires !s.loggedIn
    ensures Grows(s, o.session) && o.session.files == s.files && Inv(o.session)
    ensures o.result.Ok? ==> o.session.loggedIn && o.session.control == Open
    ensures var h := Connect(s, reachable, stream);
            && (h.result.Err? ==> o == h)
            && (h.result.Ok? ==> o == ChangeWorkingDirectory(h.session, s.path))
  {
    var h := Connect(s, reachable, stream);
    if h.result.Err? then h
    else
      GrowsTransitive(s, h.session, ChangeWorkingDirectory(h.session, h.session.path).session);
      ChangeWorkingDirectory(h.session, h.session.path)
  }

  /** The data connection the next PASV leads to; none is a refusal. */
  function NextOffer(s: Session): DataConn
  {
    if s.dialed < |s.offers| then s.offers[s.dialed] else Refused
  }

  /** Connecting to the decoded endpoint: the lookup, the port check of the
      `IPEndPoint` constructor, then the connect; every attempt uses up the
      offer. */
  function Dial(s: Session, ep: Endpoint): (o: Out<seq<Chunk>>)
    ensures Cwds(o.session.trace) == Cwds(s.trace)
    ensures o.session == s.(dialed := s.dialed + 1, trace := o.session.trace)
    ensures o.result.Ok? <==> NextOffer(s).Accepted? && 0 <= ep.port <= 65535
    ensures o.result.Ok? ==> o.result.value == NextOffer(s).chunks && o.session.trace == s.trace + [Dialed(ep)]
    ensures o.result.Err? ==> o.session.trace == s.trace
    ensures !(0 <= ep.port <= 65535) && !NextOffer(s).Unresolved? ==> o.result == Err(OutOfRange)
  {
    var offer := NextOffer(s);
    var u := s.(dialed := s.dialed + 1);
    CwdsAppend(s.trace, Dialed(ep));
    if offer.Unresolved? then Out(u, Err(ConnectFailed))
    else if !(0 <= ep.port <= 65535) then Out(u, Err(OutOfRange))
    else if offer.Refused? then Out(u, Err(ConnectFailed))
    else Out(u.(trace := u.trace + [Dialed(ep)]), Ok(offer.chunks))
  }

  lemma DialGrows(s: Session, ep: Endpoint)
    ensures Grows(s, Dial(s, ep).session)
  {
    var t := Dial(s, ep).session;
    assert t.trace[..|s.trace|] == s.trace;
  }

  /** `OpenSocketForTransfer`: PASV must answer 227, its reply is decoded,
      the address is looked up, the port must lie in 0..65535 (the
      `IPEndPoint` constructor), and the connection is made. */
  function OpenData(s: Session): (o: Out<seq<Chunk>>)
    ensures Cwds(o.session.trace) == Cwds(s.trace)
    ensures Grows(s, o.session) && o.session.dialed <= s.dialed + 1
    ensures o.session.loggedIn == s.loggedIn && o.session.control == s.control
    ensures o.session.path == s.path && o.session.files == s.files
    ensures o.result.Ok? ==> o.session.status == 227 && NextOffer(s) == Accepted(o.result.value)
    ensures var p := Expect(s, Pasv, {227});
            && (p.result.Err? ==> o == Out(p.session, Err(p.result.error)))
            && (p.result.Ok? && Decode(p.session.result).Err? ==>
                  o == Out(p.session, Err(Decode(p.session.result).error)))
            && (p.result.Ok? && Decode(p.session.result).Ok? ==> o == Dial(p.session, Decode(p.session.result).value))
  {
    ExpectCwds(s, Pasv, {227});
    var p :- Expect(s, Pasv, {227});
    var t := p.session;
    match Decode(t.result)
    case Err(e) => Out(t, Err(e))
    case Ok(ep) =>
      DialGrows(t, ep);
      GrowsTransitive(s, t, Dial(t, ep).session);
      Dial(t, ep)
  }

  /** A data connection opens only after a 227 reply whose endpoint has a
      port in range, to the next offer of the server, and the trace shows
      PASV and then the connection to the decoded endpoint. */
  lemma OpenDataConnects(s: Session)
    ensures var o := OpenData(s);
            o.result.Ok? ==>
            && Decode(o.session.result).Ok?
            && var ep := Decode(o.session.result).value;
            && 0 <= ep.port <= 65535
            && o.session.dialed == s.dialed + 1
            && o.session.trace == s.trace + [Sent(Pasv)] + [Dialed(ep)]
  {
    if OpenData(s).result.Ok? {
      var p := Expect(s, Pasv, {227});
      var t := p.session;
      var ep := Decode(t.result).value;
      assert p.result.Ok? && Decode(t.result).Ok?;
      assert OpenData(s) == Dial(t, ep);
    }
  }
}
