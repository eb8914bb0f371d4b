/** Conversations with a server that answers every command with one
    well-formed reply in one short send: what the client sends, what it
    concludes and what it throws. */
module Scenarios {
  import opened Base
  import opened Text
  import opened Numbers
  import opened Replies
  import opened Passive
  import opened Session
  import opened Transfer
  import opened Directory

  /** The control connection is open and the server will answer with `rs`. */
  predicate Serves(s: Session, rs: seq<ServerReply>)
  {
    && s.control == Open
    && (forall i :: 0 <= i < |rs| ==> WellFormed(rs[i]))
    && s.incoming == Serve(rs)
  }

  /** The session after reading reply `r`, with `rest` still to come. */
  function Heard(s: Session, r: ServerReply, rest: seq<ServerReply>): Session
    requires WellFormed(r) && forall i :: 0 <= i < |rest| ==> WellFormed(rest[i])
  {
    s.(status := r.code, result := LineOf(r), incoming := Serve(rest))
  }

  /** The session after sending `command` and reading its reply `r`. */
  function Answered(s: Session, command: Command, r: ServerReply, rest: seq<ServerReply>): Session
    requires WellFormed(r) && forall i :: 0 <= i < |rest| ==> WellFormed(rest[i])
  {
    Heard(s.(trace := s.trace + [Sent(command)]), r, rest)
  }

  /** The text a refused reply throws: its text with the carriage return
      the reader keeps. */
  lemma RejectHeard(s: Session, r: ServerReply, rest: seq<ServerReply>)
    requires WellFormed(r) && forall i :: 0 <= i < |rest| ==> WellFormed(rest[i])
    ensures Reject(Heard(s, r, rest)) == Ftp(r.text + "\r")
  {
  }

  lemma ReceiveServed(s: Session, rs: seq<ServerReply>)
    requires Serves(s, rs) && |rs| >= 1
    ensures Receive(s) == Out(Heard(s, rs[0], rs[1..]), Ok(()))
    ensures Serves(Heard(s, rs[0], rs[1..]), rs[1..])
  {
    ReadServed(rs);
  }

  lemma ExecuteServed(s: Session, command: Command, rs: seq<ServerReply>)
    requires Serves(s, rs) && |rs| >= 1
    ensures Execute(s, command) == Out(Answered(s, command, rs[0], rs[1..]), Ok(()))
    ensures Serves(Answered(s, command, rs[0], rs[1..]), rs[1..])
  {
    ReceiveServed(s.(trace := s.trace + [Sent(command)]), rs);
  }

  /** A served command is accepted exactly when its code is one of `codes`;
      otherwise its reply text is thrown. */
  lemma ExpectServed(s: Session, command: Command, codes: set<int>, rs: seq<ServerReply>)
    requires Serves(s, rs) && |rs| >= 1
    ensures var t := Answered(s, command, rs[0], rs[1..]);
            Expect(s, command, codes)
              == if rs[0].code in codes then Out(t, Ok(())) else Out(t, Err(Ftp(rs[0].text + "\r")))
    ensures Serves(Answered(s, command, rs[0], rs[1..]), rs[1..])
  {
    ExecuteServed(s, command, rs);
    RejectHeard(s.(trace := s.trace + [Sent(command)]), rs[0], rs[1..]);
  }

  // ---------------------------------------------------------------------
  // Login

  /** USER answered 230 logs in without sending PASS. */
  lemma UserSuffices(s: Session, rs: seq<ServerReply>)
    requires !s.loggedIn && Serves(s, rs) && |rs| >= 1 && rs[0].code == 230
    ensures SendUser(s) == Out(Answered(s, User(s.user), rs[0], rs[1..]).(loggedIn := true), Ok(()))
    ensures SendUser(s).session.trace == s.trace + [Sent(User(s.user))]
  {
    ExecuteServed(s, User(s.user), rs);
  }

  /** USER answered 331 sends PASS, and 230 or 202 to it logs in. */
  lemma PasswordAccepted(s: Session, rs: seq<ServerReply>)
    requires !s.loggedIn && Serves(s, rs) && |rs| >= 2 && rs[0].code == 331 && rs[1].code in {230, 202}
    ensures var u := Answered(s, User(s.user), rs[0], rs[1..]);
            SendUser(s) == Out(Answered(u, Pass(s.password), rs[1], rs[2..]).(loggedIn := true), Ok(()))
    ensures SendUser(s).session.trace == s.trace + [Sent(User(s.user))] + [Sent(Pass(s.password))]
  {
    var u := Answered(s, User(s.user), rs[0], rs[1..]);
    ExecuteServed(s, User(s.user), rs);
    ExecuteServed(u, Pass(s.password), rs[1..]);
    assert rs[1..][0] == rs[1] && rs[1..][1..] == rs[2..];
  }

  /** Any other answer to USER logs out and throws its text. */
  lemma UserRefused(s: Session, rs: seq<ServerReply>)
    requires !s.loggedIn && Serves(s, rs) && |rs| >= 1 && rs[0].code != 230 && rs[0].code != 331
    ensures SendUser(s) == Out(LogOut(Answered(s, User(s.user), rs[0], rs[1..])), Err(Ftp(rs[0].text + "\r")))
  {
    ExecuteServed(s, User(s.user), rs);
    RejectHeard(s.(trace := s.trace + [Sent(User(s.user))]), rs[0], rs[1..]);
  }

  /** A greeting other than 220 makes the client send QUIT, and the text it
      throws is that of the QUIT reply, not of the greeting. */
  lemma GreetingRefused(s: Session, rs: seq<ServerReply>)
    requires !s.loggedIn && Serves(s, rs) && |rs| >= 2 && rs[0].code != 220
    ensures var g := Heard(s, rs[0], rs[1..]);
            Greet(s) == Out(LogOut(Answered(g, Quit, rs[1], rs[2..])), Err(Ftp(rs[1].text + "\r")))
  {
    var g := Heard(s, rs[0], rs[1..]);
    ReceiveServed(s, rs);
    assert rs[1..][0] == rs[1] && rs[1..][1..] == rs[2..];
    CloseServed(g, rs[1..]);
    RejectHeard(g.(trace := g.trace + [Sent(Quit)]), rs[1], rs[2..]);
  }

  /** QUIT on an open connection logs out whatever the server answers. */
  lemma CloseServed(s: Session, rs: seq<ServerReply>)
    requires Serves(s, rs) && |rs| >= 1
    ensures Close(s) == Out(LogOut(Answered(s, Quit, rs[0], rs[1..])), Ok(()))
  {
    ExecuteServed(s, Quit, rs);
  }

  /** When the final change of directory fails, `FtpLogin` throws although
      the session stays logged in. With the path "." it always fails. */
  lemma LoginThrowsLoggedIn(s: Session, reachable: bool, stream: seq<Chunk>)
    requires !s.loggedIn && s.path == "."
    ensures Connect(s, reachable, stream).result.Ok? ==>
              && Handshake(s, reachable, stream).result == Err(Ftp(NoDirectory))
              && Handshake(s, reachable, stream).session.loggedIn
  {
    var h := Connect(s, reachable, stream);
    assert h.session.path == ".";
  }

  // ---------------------------------------------------------------------
  // Working directory

  /** The directory named by PWD: between the first two double quotes. */
  lemma QuotedBetween(before: string, p: string, after: string)
    requires '"' !in before && '"' !in p
    ensures QuotedPath(before + "\"" + p + "\"" + after) == Ok(p)
  {
    var line := before + "\"" + p + "\"" + after;
    var rest := p + "\"" + after;
    assert line == before + ['"'] + rest;
    IndexOfAfter(before, '"', rest);
    assert line[IndexOf(line, '"') + 1..] == rest;
    assert rest == p + ['"'] + after;
    IndexOfAfter(p, '"', after);
    assert rest[|p|] == '"';
    assert rest[..IndexOf(rest, '"')] == p;
  }

  /** A 257 reply whose text starts with a quoted path names that path. */
  lemma PwdReply(r: ServerReply, p: string, after: string)
    requires WellFormed(r) && r.text == "\"" + p + "\"" + after && '"' !in p
    ensures QuotedPath(LineOf(r)) == Ok(p)
  {
    var line := LineOf(r);
    var before := line[..4];
    assert '"' !in before by {
      assert AllDigits(line[..3]);
      assert before == line[..3] + [line[3]];
    }
    assert line == before + "\"" + p + "\"" + (after + "\r");
    QuotedBetween(before, p, after + "\r");
  }

  /** CWD answered 250 and PWD answered 257 with a quoted path set the path. */
  lemma CwdServed(s: Session, dir: string, p: string, after: string, rs: seq<ServerReply>)
    requires s.loggedIn && dir != "." && dir != "" && '"' !in p
    requires Serves(s, rs) && |rs| >= 2 && rs[0].code == 250 && rs[1].code == 257
    requires rs[1].text == "\"" + p + "\"" + after
    ensures var c := Answered(s, Cwd(dir), rs[0], rs[1..]);
            ChangeWorkingDirectory(s, dir) == Out(Answered(c, Pwd, rs[1], rs[2..]).(path := p), Ok(()))
    ensures Serves(ChangeWorkingDirectory(s, dir).session, rs[2..])
  {
    var c := Answered(s, Cwd(dir), rs[0], rs[1..]);
    ExpectServed(s, Cwd(dir), {250}, rs);
    assert rs[1..][0] == rs[1] && rs[1..][1..] == rs[2..];
    ExpectServed(c, Pwd, {257}, rs[1..]);
    PwdReply(rs[1], p, after);
  }

  // ---------------------------------------------------------------------
  // SIZE and the resume decision of Upload

  /** The session after TYPE I and SIZE `file` were answered by the first
      two replies. */
  function Sized(s: Session, file: string, rs: seq<ServerReply>): (t: Session)
    requires Serves(s, rs) && |rs| >= 2
    ensures t.files == s.files && t.loggedIn == s.loggedIn
    ensures t.trace == s.trace + [Sent(Type(true))] + [Sent(Size(file))]
  {
    Answered(Answered(s, Type(true), rs[0], rs[1..]), Size(file), rs[1], rs[2..])
  }

  /** SIZE answered 213 with a decimal number yields that number. */
  lemma SizeServed(s: Session, file: string, n: nat, rs: seq<ServerReply>)
    requires s.loggedIn && Serves(s, rs) && |rs| >= 1
    requires rs[0].code == 213 && rs[0].text == Decimal(n) && n <= Int64Max
    ensures GetFileSize(s, file) == Out(Answered(s, Size(file), rs[0], rs[1..]), Ok(n))
    ensures Serves(Answered(s, Size(file), rs[0], rs[1..]), rs[1..])
  {
    ExecuteServed(s, Size(file), rs);
    assert LineOf(rs[0])[4..] == Decimal(n) + "\r";
    ParseDecimalReturn(n, Int64Min, Int64Max);
  }

  /** Any other answer to SIZE throws its text. */
  lemma SizeRefused(s: Session, file: string, rs: seq<ServerReply>)
    requires s.loggedIn && Serves(s, rs) && |rs| >= 1 && rs[0].code != 213
    ensures GetFileSize(s, file) == Out(Answered(s, Size(file), rs[0], rs[1..]), Err(Ftp(rs[0].text + "\r")))
  {
    ExpectServed(s, Size(file), {213}, rs);
  }

  /** With resume, TYPE I answered 200 and SIZE answered 213 give the
      remote size as the offset. */
  lemma ResumeServed(s: Session, file: string, n: nat, rs: seq<ServerReply>)
    requires s.loggedIn && !s.binary && Serves(s, rs) && |rs| >= 2
    requires rs[0].code == 200 && rs[1].code == 213 && rs[1].text == Decimal(n) && n <= Int64Max
    ensures ResumeOffset(s, file, true) == Out(Sized(s, file, rs), Ok(n))
  {
    var b := Answered(s, Type(true), rs[0], rs[1..]);
    ExecuteServed(s, Type(true), rs);
    assert SetBinary(s, true) == Out(b, Ok(()));
    assert rs[1..][0] == rs[1] && rs[1..][1..] == rs[2..];
    SizeServed(b, file, n, rs[1..]);
  }

  /** With resume, a refused SIZE makes the offset 0. */
  lemma ResumeRefused(s: Session, file: string, rs: seq<ServerReply>)
    requires s.loggedIn && !s.binary && Serves(s, rs) && |rs| >= 2
    requires rs[0].code == 200 && rs[1].code != 213
    ensures ResumeOffset(s, file, true) == Out(Sized(s, file, rs), Ok(0))
  {
    var b := Answered(s, Type(true), rs[0], rs[1..]);
    ExecuteServed(s, Type(true), rs);
    assert SetBinary(s, true) == Out(b, Ok(()));
    assert rs[1..][0] == rs[1] && rs[1..][1..] == rs[2..];
    SizeRefused(b, file, rs[1..]);
    assert GetFileSize(b, file).result.error != Stalled;
  }

  /** With resume and a served size `n`, the upload continues from the
      remote size; what `UploadFrom` then does depends on the local length
      only. */
  lemma UploadResumeServed(s: Session, fileName: string, n: nat, rs: seq<ServerReply>)
    requires s.loggedIn && !s.binary && Serves(s, rs) && |rs| >= 2
    requires rs[0].code == 200 && rs[1].code == 213 && rs[1].text == Decimal(n) && n <= Int64Max
    ensures Upload(s, fileName, true) == UploadFrom(Sized(s, FileName(fileName), rs), fileName, true, n)
  {
    ResumeServed(s, FileName(fileName), n, rs);
  }

  /** When SIZE is refused the remote size counts as 0, so with resume an
      empty local file is never sent, even if no remote file exists. */
  lemma EmptyUploadSkipped(s: Session, fileName: string, rs: seq<ServerReply>)
    requires s.loggedIn && !s.binary && fileName in s.files && s.files[fileName] == []
    requires Serves(s, rs) && |rs| >= 2 && rs[0].code == 200 && rs[1].code != 213
    ensures Upload(s, fileName, true).result.Ok?
    ensures Upload(s, fileName, true).session.trace
              == s.trace + [Sent(Type(true))] + [Sent(Size(FileName(fileName)))]
  {
    ResumeRefused(s, FileName(fileName), rs);
    assert Upload(s, fileName, true) == UploadFrom(Sized(s, FileName(fileName), rs), fileName, true, 0);
  }

  // ---------------------------------------------------------------------
  // Data connections: NLST, RETR, and the listing checks built on NLST

  /** PASV answered 227 with an endpoint that decodes, a port in range and
      a server that accepts the connection: the data connection delivers
      what the server offers. */
  lemma OpenDataServed(s: Session, ep: Endpoint, rs: seq<ServerReply>)
    requires Serves(s, rs) && |rs| >= 1 && rs[0].code == 227
    requires Decode(LineOf(rs[0])) == Ok(ep) && 0 <= ep.port <= 65535 && NextOffer(s).Accepted?
    ensures OpenData(s).result == Ok(NextOffer(s).chunks)
    ensures OpenData(s).session.trace == s.trace + [Sent(Pasv)] + [Dialed(ep)]
    ensures Serves(OpenData(s).session, rs[1..])
  {
    var p := Answered(s, Pasv, rs[0], rs[1..]);
    ExpectServed(s, Pasv, {227}, rs);
    assert Decode(p.result) == Ok(ep);
    assert NextOffer(p) == NextOffer(s);
    assert OpenData(s) == Dial(p, ep);
  }

  /** NLST answered 150 and the closing reply 226 over an open data
      connection: the names are the lines of the data. */
  lemma NamesServed(s: Session, mask: string, chunks: seq<Chunk>, rs: seq<ServerReply>)
    requires Serves(s, rs) && |rs| >= 2 && rs[0].code == 150 && rs[1].code == 226
    ensures Names(s, mask, chunks).result == Ok(Listing(Ascii(ListingBytes(chunks))))
    ensures Names(s, mask, chunks).session.trace == s.trace + [Sent(Nlst(mask))]
    ensures Serves(Names(s, mask, chunks).session, rs[2..])
  {
    ExpectServed(s, Nlst(mask), {150, 125}, rs);
    var e := Answered(s, Nlst(mask), rs[0], rs[1..]);
    assert rs[1..][0] == rs[1] && rs[1..][1..] == rs[2..];
    ReceiveServed(e, rs[1..]);
  }

  /** PASV answered 227, NLST answered 150 and the closing reply 226: the
      names are the lines of the data the server sent. */
  lemma ListServed(s: Session, mask: string, ep: Endpoint, rs: seq<ServerReply>)
    requires s.loggedIn && Serves(s, rs) && |rs| >= 3
    requires rs[0].code == 227 && Decode(LineOf(rs[0])) == Ok(ep) && 0 <= ep.port <= 65535
    requires NextOffer(s).Accepted? && rs[1].code == 150 && rs[2].code == 226
    ensures ListSimple(s, mask).result == Ok(Listing(Ascii(ListingBytes(NextOffer(s).chunks))))
    ensures ListSimple(s, mask).session.trace == s.trace + [Sent(Pasv)] + [Dialed(ep)] + [Sent(Nlst(mask))]
    ensures Serves(ListSimple(s, mask).session, rs[3..])
  {
    var d := OpenData(s);
    OpenDataServed(s, ep, rs);
    assert ListSimple(s, mask) == Names(d.session, mask, d.result.value);
    assert rs[1..][0] == rs[1] && rs[1..][1] == rs[2] && rs[1..][2..] == rs[3..];
    NamesServed(d.session, mask, d.result.value, rs[1..]);
  }

  /** A server that sends no listing data at all for the new name blocks a
      rename without replace as if the file existed. */
  lemma EmptyListingBlocksRename(s: Session, newName: string, ep: Endpoint, rs: seq<ServerReply>)
    requires s.loggedIn && Serves(s, rs) && |rs| >= 3
    requires rs[0].code == 227 && Decode(LineOf(rs[0])) == Ok(ep) && 0 <= ep.port <= 65535
    requires NextOffer(s) == Accepted([]) && rs[1].code == 150 && rs[2].code == 226
    ensures Vacant(s, newName).result == Err(Ftp(FileExists))
  {
    ListServed(s, newName, ep, rs);
    NothingListedBlocksRename(s, newName);
  }

  /** RETR answered 150 and the closing reply 226 over an open data
      connection: the data lands at `pos` and the download succeeds. */
  lemma RetrieveServed(s: Session, t: Session, remote: string, name: string, pos: nat,
                       chunks: seq<Chunk>, rs: seq<ServerReply>)
    requires Grows(s, t) && name in t.files && pos <= |t.files[name]|
    requires Serves(t, rs) && |rs| >= 2 && rs[0].code == 150 && rs[1].code == 226
    ensures Retrieve(s, t, remote, name, pos, chunks).result == Ok(())
    ensures Retrieve(s, t, remote, name, pos, chunks).session.files[name] == WriteChunks(t.files[name], pos, chunks)
    ensures Retrieve(s, t, remote, name, pos, chunks).session.trace == t.trace + [Sent(Retr(remote))]
  {
    ExpectServed(t, Retr(remote), {150, 125}, rs);
    var e := Answered(t, Retr(remote), rs[0], rs[1..]);
    assert Retrieve(s, t, remote, name, pos, chunks) == Land(s, e, name, pos, chunks);
    assert rs[1..][0] == rs[1];
    ReadServed(rs[1..]);
  }

  /** PASV answered 227, RETR answered 150 and the closing reply 226: the
      download writes the offered data over the start of the local file. */
  lemma DownloadServed(s: Session, remote: string, local: string, ep: Endpoint, rs: seq<ServerReply>)
    requires s.loggedIn && s.binary && Serves(s, rs) && |rs| >= 3
    requires rs[0].code == 227 && Decode(LineOf(rs[0])) == Ok(ep) && 0 <= ep.port <= 65535
    requires NextOffer(s).Accepted? && rs[1].code == 150 && rs[2].code == 226
    ensures var name := Target(remote, local);
            && Download(s, remote, local, false).result == Ok(())
            && Download(s, remote, local, false).session.files[name]
                 == WriteChunks(Prepared(s, name).files[name], 0, NextOffer(s).chunks)
            && Download(s, remote, local, false).session.trace
                 == s.trace + [Sent(Pasv)] + [Dialed(ep)] + [Sent(Retr(remote))]
  {
    var name := Target(remote, local);
    var t := Prepared(s, name);
    assert Download(s, remote, local, false) == Fetch(t, remote, name, false);
    assert NextOffer(t) == NextOffer(s);
    var d := OpenData(t);
    OpenDataServed(t, ep, rs);
    assert Fetch(t, remote, name, false) == Retrieve(t, d.session, remote, name, 0, d.result.value);
    assert rs[1..][0] == rs[1] && rs[1..][1] == rs[2];
    RetrieveServed(t, d.session, remote, name, 0, d.result.value, rs[1..]);
  }

  /** What a served CWD leaves for the next command: the new path and the
      replies still to come. */
  lemma CwdAnswered(s: Session, dir: string, p: string, after: string, rs: seq<ServerReply>)
    requires s.loggedIn && dir != "." && dir != "" && '"' !in p
    requires Serves(s, rs) && |rs| >= 2 && rs[0].code == 250 && rs[1].code == 257
    requires rs[1].text == "\"" + p + "\"" + after
    ensures var c := ChangeWorkingDirectory(s, dir);
            && c.result.Ok? && c.session.path == p && c.session.loggedIn
            && Serves(c.session, rs[2..])
  {
    CwdServed(s, dir, p, after, rs);
  }

  /** Entering an empty local directory's remote counterpart: CWD and PWD
      into it, nothing to upload, CWD and PWD back to "..". */
  lemma EnterServed(s: Session, d: LocalDir, recursive: bool, p: string, pa: string, q: string, qa: string,
                    rs: seq<ServerReply>)
    requires s.loggedIn && d.files == [] && d.subdirs == []
    requires RootName(d.path) != "." && RootName(d.path) != ""
    requires Serves(s, rs) && |rs| >= 4
    requires rs[0].code == 250 && rs[1].code == 257 && rs[1].text == "\"" + p + "\"" + pa && '"' !in p
    requires rs[2].code == 250 && rs[3].code == 257 && rs[3].text == "\"" + q + "\"" + qa && '"' !in q
    ensures Enter(s, d, recursive).result.Ok? && Enter(s, d, recursive).session.path == q
  {
    CwdAnswered(s, RootName(d.path), p, pa, rs);
    var w := ChangeWorkingDirectory(s, RootName(d.path));
    assert Enter(s, d, recursive) == Fill(w.session, d, recursive);
    FillEmpty(w.session, d, recursive);
    assert rs[2..][0] == rs[2] && rs[2..][1] == rs[3];
    CwdAnswered(w.session, "..", q, qa, rs[2..]);
  }

  /** Nothing to upload in a directory without files or subdirectories:
      only the change back to "..". */
  lemma FillEmpty(s: Session, d: LocalDir, recursive: bool)
    requires d.files == [] && d.subdirs == []
    ensures Fill(s, d, recursive) == ChangeWorkingDirectory(s, "..")
  {
    assert Fill(s, d, recursive) == Descend(s, d, recursive);
  }

  /** Uploading a local directory without files or subdirectories to a
      server that lists nothing for its name: the empty listing counts as
      the directory existing, so no MKD is sent; the client changes into it
      and back to "..". */
  lemma EmptyDirectoryUploadServed(s: Session, d: LocalDir, recursive: bool, ep: Endpoint,
                                   p: string, pa: string, q: string, qa: string, rs: seq<ServerReply>)
    requires s.loggedIn && d.files == [] && d.subdirs == []
    requires RootName(d.path) != "." && RootName(d.path) != ""
    requires Serves(s, rs) && |rs| >= 7
    requires rs[0].code == 227 && Decode(LineOf(rs[0])) == Ok(ep) && 0 <= ep.port <= 65535
    requires NextOffer(s) == Accepted([]) && rs[1].code == 150 && rs[2].code == 226
    requires rs[3].code == 250 && rs[4].code == 257 && rs[4].text == "\"" + p + "\"" + pa && '"' !in p
    requires rs[5].code == 250 && rs[6].code == 257 && rs[6].text == "\"" + q + "\"" + qa && '"' !in q
    ensures UploadDirectory(s, d, recursive).result.Ok?
    ensures UploadDirectory(s, d, recursive).session.path == q
  {
    var l := ListSimple(s, RootName(d.path));
    ListServed(s, RootName(d.path), ep, rs);
    ListingOfNothing();
    assert Ascii([]) == "";
    assert l.result == Ok([""]);
    assert UploadDirectory(s, d, recursive) == Prepare(l.session, d, recursive, false) == Enter(l.session, d, recursive);
    assert rs[3..][0] == rs[3] && rs[3..][1] == rs[4] && rs[3..][2] == rs[5] && rs[3..][3] == rs[6];
    EnterServed(l.session, d, recursive, p, pa, q, qa, rs[3..]);
  }
}
