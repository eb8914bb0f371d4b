/** The modelled calls of `FtpService` (its public methods, the `IsBinary`
    setter and the private `LogOut`) as a sequence of calls made on one
    instance; exceptions are caught by the caller, so the
    session after a failed call is the one the next call sees. */
module Client {
  import opened Base
  import S = Session
  import T = Transfer
  import D = Directory

  /** One modelled call of `FtpService`: a public method, the `IsBinary`
      setter, or the private `LogOut`. */
  datatype Call =
    | Login(reachable: bool, stream: seq<Chunk>)
    | Close
    | LogOut
    | Binary(value: bool)
    | ChangeDir(dir: string)
    | Size(file: string)
    | Upload(fileName: string, resume: bool)
    | Download(remote: string, target: string, resume: bool)
    | List(mask: string)
    | Delete(file: string)
    | Rename(oldName: string, newName: string, replace: bool)
    | MakeDir(dir: string)
    | UploadDir(local: D.LocalDir, recursive: bool)
  {
    /** The calls that start with `if (!IsLoggedIn) throw …`. */
    predicate Guarded()
    {
      Size? || Upload? || Download? || List? || Delete? || Rename? || MakeDir? || UploadDir?
    }
  }

  function Forget<X>(o: S.Out<X>): (r: S.Out<()>)
    ensures r.session == o.session && r.result.Ok? == o.result.Ok?
    ensures o.result.Err? ==> r.result.error == o.result.error
  {
    match o.result
    case Ok(_) => S.Out(o.session, Ok(()))
    case Err(e) => S.Out(o.session, Err(e))
  }

  /** The effect of one call; the returned value, if any, is dropped. */
  function Apply(s: S.Session, call: Call): (o: S.Out<()>)
  {
    match call
    case Login(reachable, stream) => S.Login(s, reachable, stream)
    case Close => S.Close(s)
    case LogOut => S.Out(S.LogOut(s), Ok(()))
    case Binary(value) => S.SetBinary(s, value)
    case ChangeDir(dir) => S.ChangeWorkingDirectory(s, dir)
    case Size(file) => Forget(T.GetFileSize(s, file))
    case Upload(fileName, resume) => T.Upload(s, fileName, resume)
    case Download(remote, local, resume) => T.Download(s, remote, local, resume)
    case List(mask) => Forget(D.ListSimple(s, mask))
    case Delete(file) => D.Delete(s, file)
    case Rename(oldName, newName, replace) => D.Rename(s, oldName, newName, replace)
    case MakeDir(dir) => D.CreateDirectory(s, dir)
    case UploadDir(local, recursive) => D.UploadDirectory(s, local, recursive)
  }

  /** The session after a sequence of calls. */
  function Run(s: S.Session, calls: seq<Call>): S.Session
    decreases |calls|
  {
    if |calls| == 0 then s else Run(Apply(s, calls[0]).session, calls[1..])
  }

  /** Every call keeps the credentials, the transfer mode and the data
      connections offered, only appends to the trace, and keeps "logged in"
      implying a connected control socket. */
  lemma ApplyPreserves(s: S.Session, call: Call)
    requires S.Inv(s)
    ensures S.Grows(s, Apply(s, call).session)
    ensures S.Inv(Apply(s, call).session)
  {
    match call
    case Login(reachable, stream) =>
      var c := if s.loggedIn then S.Close(s) else S.Out(s, Ok(()));
      if c.result.Ok? {
        var h := S.Connect(c.session, reachable, stream);
        assert S.Inv(h.session);
      }
    case _ =>
  }

  lemma {:induction false} RunPreserves(s: S.Session, calls: seq<Call>)
    requires S.Inv(s)
    ensures S.Grows(s, Run(s, calls))
    ensures S.Inv(Run(s, calls))
    decreases |calls|
  {
    if |calls| > 0 {
      var t := Apply(s, calls[0]).session;
      ApplyPreserves(s, calls[0]);
      RunPreserves(t, calls[1..]);
      S.GrowsTransitive(s, t, Run(t, calls[1..]));
    }
  }

  /** `_isBinary` is never assigned, so whatever was called before, asking
      for binary mode on a fresh service with an open control connection
      sends TYPE I again. */
  lemma BinaryAlwaysResent(path: string, user: string, password: string,
                           files: map<string, seq<Byte>>, offers: seq<S.DataConn>, calls: seq<Call>)
    ensures var t := Run(S.Create(path, user, password, files, offers), calls);
            t.control == S.Open ==> S.SetBinary(t, true).session.trace == t.trace + [S.Sent(S.Type(true))]
  {
    RunPreserves(S.Create(path, user, password, files, offers), calls);
  }

  /** Logged out, every guarded call throws "You need to log in …" and
      changes nothing. */
  lemma LoggedOutRefused(s: S.Session, call: Call)
    requires !s.loggedIn && call.Guarded()
    ensures Apply(s, call) == S.Out(s, Err(Ftp(S.NotLoggedIn)))
  {
  }

  /** The two checks come in opposite orders: a missing directory name is
      reported before the login by `ChangeWorkingDirectory` and after it by
      `CreateDirectory`. */
  lemma CheckOrder(s: S.Session, dir: string)
    requires !s.loggedIn && dir == "."
    ensures Apply(s, ChangeDir(dir)) == S.Out(s, Err(Ftp(S.NoDirectory)))
    ensures Apply(s, MakeDir(dir)) == S.Out(s, Err(Ftp(S.NotLoggedIn)))
  {
  }
}
