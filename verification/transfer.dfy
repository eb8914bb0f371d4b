/** File transfers of `FtpService`: SIZE, `Upload` with its resume decision
    and `Download` with its resume point. The local file system is the
    session's map from path to contents. */
module Transfer {
  import opened Base
  import opened Text
  import opened Numbers
  import opened Replies
  import opened Passive
  import opened Session

  predicate IsSeparator(c: char)
  {
    c == '/' || c == '\\'
  }

  /** Where `Path.GetFileName` cuts: a directory separator or the volume
      separator ':' (the .NET Framework scans for all three). */
  predicate IsNameBoundary(c: char)
  {
    IsSeparator(c) || c == ':'
  }

  /** `Path.GetFileName`: what follows the last directory or volume separator. */
  function FileName(path: string): (r: string)
    ensures |r| <= |path| && r == path[|path| - |r|..]
    ensures forall i :: 0 <= i < |r| ==> !IsNameBoundary(r[i])
    ensures |r| < |path| ==> IsNameBoundary(path[|path| - |r| - 1])
    decreases |path|
  {
    if |path| == 0 || IsNameBoundary(path[|path| - 1]) then ""
    else FileName(path[..|path| - 1]) + [path[|path| - 1]]
  }

  /** `GetFileSize`: SIZE must answer 213, and the text after the code is
      read with `long.Parse`. */
  function GetFileSize(s: Session, file: string): (o: Out<int>)
    ensures Cwds(o.session.trace) == Cwds(s.trace)
    ensures Quiet(s, o.session)
    ensures !s.loggedIn ==> o == Out(s, Err(Ftp(NotLoggedIn)))
    ensures o.result.Ok? ==>
              && o.session.status == 213 && |o.session.result| >= 4
              && ParseInteger(o.session.result[4..], Int64Min, Int64Max) == Ok(o.result.value)
              && o.session.trace == s.trace + [Sent(Size(file))]
    ensures s.loggedIn ==> o.session == Execute(s, Size(file)).session
  {
    if !s.loggedIn then Out(s, Err(Ftp(NotLoggedIn)))
    else
      ExpectCwds(s, Size(file), {});
      var e :- Execute(s, Size(file));
      var t := e.session;
      if t.status != 213 then Out(t, Err(Reject(t)))
      else if |t.result| < 4 then Out(t, Err(OutOfRange))
      else
        match ParseInteger(t.result[4..], Int64Min, Int64Max)
        case Err(error) => Out(t, Err(error))
        case Ok(n) => Out(t, Ok(n))
  }

  /** The `try` block of `Upload`: with resume, ask for binary mode and the
      remote size; any exception there means offset 0, except a stalled
      control connection, which in the client blocks for ever. */
  function ResumeOffset(s: Session, file: string, resume: bool): (o: Out<int>)
    ensures Cwds(o.session.trace) == Cwds(s.trace)
    ensures Quiet(s, o.session)
    ensures !resume ==> o == Out(s, Ok(0))
    ensures o.result.Err? ==> o.result.error == Stalled
    ensures resume ==>
              var b := SetBinary(s, true);
              && (b.result.Ok? && GetFileSize(b.session, file).result.Ok? ==>
                    o == GetFileSize(b.session, file))
              && (b.result.Err? && b.result.error != Stalled ==> o == Out(b.session, Ok(0)))
              && (b.result.Ok? && GetFileSize(b.session, file).result.Err? &&
                  GetFileSize(b.session, file).result.error != Stalled ==>
                    o == Out(GetFileSize(b.session, file).session, Ok(0)))
    ensures resume ==>
              var b := SetBinary(s, true);
              var g := if b.result.Ok? then GetFileSize(b.session, file) else Out(b.session, Err(b.result.error));
              g.result == Err(Stalled) ==> o == g
  {
    if !resume then Out(s, Ok(0))
    else
      var b := SetBinary(s, true);
      var g := if b.result.Ok? then GetFileSize(b.session, file) else Out(b.session, Err(b.result.error));
      QuietTransitive(s, b.session, g.session);
      if g.result.Err? && g.result.error != Stalled then Out(g.session, Ok(0)) else g
  }

  /** The last event of a trace. */
  predicate EndsWith(trace: seq<Event>, e: Event)
  {
    |trace| > 0 && trace[|trace| - 1] == e
  }

  /** The part of the local file `Upload` sends: the file from `offset` on,
      a negative offset being a failed seek. */
  function Tail(content: seq<Byte>, offset: int): (r: Result<seq<Byte>>)
    ensures offset < 0 <==> r.Err?
    ensures 0 <= offset <= |content| ==> r == Ok(content[offset..])
  {
    if offset < 0 then Err(SeekFailed)
    else if offset > |content| then Ok([])
    else Ok(content[offset..])
  }

  /** `Upload(fileName, resume)`. With resume, a remote file as long as the
      local one is skipped, a longer one is overwritten from offset 0, and a
      shorter one is continued after REST, unless the server does not answer
      REST with 350. STOR must answer 125 or 150 and the final reply 226 or
      250. */
  function Upload(s: Session, fileName: string, resume: bool): (o: Out<()>)
    ensures Cwds(o.session.trace) == Cwds(s.trace)
    ensures Grows(s, o.session) && o.session.dialed <= s.dialed + 1
    ensures o.session.loggedIn == s.loggedIn && o.session.control == s.control
    ensures o.session.path == s.path && o.session.files == s.files
    ensures !s.loggedIn ==> o == Out(s, Err(Ftp(NotLoggedIn)))
    ensures s.loggedIn && fileName !in s.files ==> o.result.Err?
    ensures s.loggedIn ==>
              var r := ResumeOffset(s, FileName(fileName), resume);
              && (r.result.Err? ==> o == Out(r.session, Err(r.result.error)))
              && (r.result.Ok? ==> o == UploadFrom(r.session, fileName, resume, r.result.value))
  {
    if !s.loggedIn then Out(s, Err(Ftp(NotLoggedIn)))
    else
      var r :- ResumeOffset(s, FileName(fileName), resume);
      GrowsTransitive(s, r.session, UploadFrom(r.session, fileName, resume, r.result.value).session);
      UploadFrom(r.session, fileName, resume, r.result.value)
  }

  /** The part of `Upload` after the remote size is known: skip a file of
      the same size, restart over a longer one, resume a shorter one. */
  function UploadFrom(t: Session, fileName: string, resume: bool, size: int): (o: Out<()>)
    ensures Cwds(o.session.trace) == Cwds(t.trace)
    ensures Grows(t, o.session) && o.session.dialed <= t.dialed + 1
    ensures o.session.loggedIn == t.loggedIn && o.session.control == t.control
    ensures o.session.path == t.path && o.session.files == t.files
    ensures fileName !in t.files ==> o == Out(t, Err(FileNotFound))
    ensures fileName in t.files && resume && |t.files[fileName]| == size ==> o == Out(t, Ok(()))
    ensures fileName in t.files && !(resume && |t.files[fileName]| == size) ==>
              o == Send(t, fileName, if resume && |t.files[fileName]| < size then 0 else size)
  {
    if fileName !in t.files then Out(t, Err(FileNotFound))
    else
      var content := t.files[fileName];
      if resume && |content| == size then Out(t, Ok(()))
      else Send(t, fileName, if resume && |content| < size then 0 else size)
  }

  /** The part of `Upload` from the data connection on, resuming at
      `offset` when it is positive. */
  function Send(s: Session, fileName: string, offset: int): (o: Out<()>)
    ensures Cwds(o.session.trace) == Cwds(s.trace)
    requires fileName in s.files
    ensures Grows(s, o.session) && o.session.dialed <= s.dialed + 1
    ensures o.session.loggedIn == s.loggedIn && o.session.control == s.control
    ensures o.session.path == s.path && o.session.files == s.files
    ensures o.result.Ok? ==>
              && offset >= 0 && OpenData(s).result.Ok?
              && var d := OpenData(s).session;
              && var restarted := offset > 0 && Execute(d, Rest(offset)).session.status != 350;
              && EndsWith(o.session.trace,
                          Transmitted(if restarted then s.files[fileName] else Tail(s.files[fileName], offset).value))
    ensures var d := OpenData(s);
            && (d.result.Err? ==> o == Out(d.session, Err(d.result.error)))
            && (d.result.Ok? ==> o == SendFrom(s, d.session, fileName, offset))
  {
    var d :- OpenData(s);
    SendFrom(s, d.session, fileName, offset)
  }

  /** The REST step of `Upload` over an open data connection: asked only
      for a positive offset; a reply other than 350 restarts from 0. */
  function SendFrom(s: Session, t: Session, fileName: string, offset: int): (o: Out<()>)
    requires Grows(s, t) && fileName in t.files
    ensures Cwds(o.session.trace) == Cwds(t.trace)
    ensures Grows(s, o.session) && o.session.dialed == t.dialed
    ensures o.session.loggedIn == t.loggedIn && o.session.control == t.control
    ensures o.session.path == t.path && o.session.files == t.files
    ensures offset <= 0 ==> o == Store(s, t, fileName, offset)
    ensures offset > 0 ==>
              var r := Execute(t, Rest(offset));
              && Grows(s, r.session)
              && (r.result.Err? ==> o == Out(r.session, Err(r.result.error)))
              && (r.result.Ok? ==> o == Store(s, r.session, fileName, if r.session.status != 350 then 0 else offset))
    ensures o.result.Ok? ==>
              && offset >= 0
              && var restarted := offset > 0 && Execute(t, Rest(offset)).session.status != 350;
              && EndsWith(o.session.trace,
                          Transmitted(if restarted then t.files[fileName] else Tail(t.files[fileName], offset).value))
  {
    if offset <= 0 then Store(s, t, fileName, offset)
    else
      var r := Execute(t, Rest(offset));
      ExpectCwds(t, Rest(offset), {});
      GrowsTransitive(s, t, r.session);
      var x :- r;
      var start := if x.session.status != 350 then 0 else offset;
      assert Tail(t.files[fileName], 0).value == t.files[fileName][0..] == t.files[fileName];
      Store(s, x.session, fileName, start)
  }

  /** STOR, then the transfer of the file from `start` on. */
  function Store(s: Session, t: Session, fileName: string, start: int): (o: Out<()>)
    ensures Cwds(o.session.trace) == Cwds(t.trace)
    requires Grows(s, t) && fileName in t.files
    ensures Grows(s, o.session) && o.session.dialed == t.dialed
    ensures o.session.loggedIn == t.loggedIn && o.session.control == t.control
    ensures o.session.path == t.path && o.session.files == t.files
    ensures o.result.Ok? ==> Expect(t, Stor(FileName(fileName)), {125, 150}).result.Ok?
    ensures o.result.Ok? ==> start >= 0 && EndsWith(o.session.trace, Transmitted(Tail(t.files[fileName], start).value))
    ensures var e := Expect(t, Stor(FileName(fileName)), {125, 150});
            && Grows(s, e.session)
            && (e.result.Err? ==> o == Out(e.session, Err(e.result.error)))
            && (e.result.Ok? ==> o == UploadFinish(s, e.session, e.session.files[fileName], start))
  {
    var e := Expect(t, Stor(FileName(fileName)), {125, 150});
    ExpectCwds(t, Stor(FileName(fileName)), {125, 150});
    GrowsTransitive(s, t, e.session);
    var st :- e;
    UploadFinish(s, st.session, st.session.files[fileName], start)
  }

  /** After STOR was accepted: seek, send the rest of the file, close the
      data connection and demand 226 or 250. */
  function UploadFinish(s: Session, t: Session, content: seq<Byte>, start: int): (o: Out<()>)
    ensures Cwds(o.session.trace) == Cwds(t.trace)
    requires Grows(s, t)
    ensures Grows(s, o.session) && o.session.dialed == t.dialed
    ensures o.session.loggedIn == t.loggedIn && o.session.control == t.control
    ensures o.session.path == t.path && o.session.files == t.files
    ensures o.result.Ok? <==>
              && start >= 0
              && t.control == Open
              && ReadResponse(t.incoming).result.Ok?
              && ReadResponse(t.incoming).result.value.code in {226, 250}
    ensures start >= 0 ==> o.session.trace == t.trace + [Transmitted(Tail(content, start).value)]
    ensures o.result.Ok? ==> start >= 0 && EndsWith(o.session.trace, Transmitted(Tail(content, start).value))
    ensures start < 0 ==> o == Out(t, Err(SeekFailed))
  {
    match Tail(content, start)
    case Err(e) => Out(t, Err(e))
    case Ok(data) =>
      var sent := t.(trace := t.trace + [Transmitted(data)]);
      CwdsAppend(t.trace, Transmitted(data));
      assert Grows(s, sent) by {
        assert sent.trace[..|t.trace|] == t.trace;
        assert sent.trace[..|s.trace|] == t.trace[..|s.trace|];
      }
      var f :- Receive(sent);
      if f.session.status != 226 && f.session.status != 250 then Out(f.session, Err(Reject(f.session)))
      else f
  }

  // ---------------------------------------------------------------------
  // Download

  /** `FileStream.Write` at position `pos` of an existing file: the bytes
      there are overwritten, the file grows when they run past its end, and
      nothing is truncated. */
  function WriteAt(content: seq<Byte>, pos: nat, data: seq<Byte>): (r: seq<Byte>)
    requires pos <= |content|
    ensures |r| == if pos + |data| > |content| then pos + |data| else |content|
    ensures forall i :: 0 <= i < |r| ==>
              r[i] == if pos <= i < pos + |data| then data[i - pos] else content[i]
  {
    content[..pos] + data + if pos + |data| < |content| then content[pos + |data|..] else []
  }

  /** The receive loop of `Download` from position `pos`: every chunk is
      written where the previous one ended, and an empty chunk (the server
      closed the data connection) ends the loop. The end of the list stands
      for the deadline. */
  function WriteChunks(content: seq<Byte>, pos: nat, chunks: seq<Chunk>): (r: seq<Byte>)
    requires pos <= |content|
    ensures |r| >= |content|
    decreases |chunks|
  {
    if |chunks| == 0 then content
    else
      var next := WriteAt(content, pos, chunks[0]);
      if |chunks[0]| == 0 then next
      else WriteChunks(next, pos + |chunks[0]|, chunks[1..])
  }

  /** The bytes the loop receives before an empty chunk. */
  function Drain(chunks: seq<Chunk>): (r: seq<Byte>)
    ensures |r| <= |Flatten(chunks)|
    decreases |chunks|
  {
    if |chunks| == 0 || |chunks[0]| == 0 then [] else chunks[0] + Drain(chunks[1..])
  }

  /** Two writes back to back are one write of both. */
  lemma WriteAtTwice(content: seq<Byte>, pos: nat, a: seq<Byte>, b: seq<Byte>)
    requires pos <= |content|
    ensures pos + |a| <= |WriteAt(content, pos, a)|
    ensures WriteAt(WriteAt(content, pos, a), pos + |a|, b) == WriteAt(content, pos, a + b)
  {
    var x := WriteAt(WriteAt(content, pos, a), pos + |a|, b);
    var y := WriteAt(content, pos, a + b);
    assert |x| == |y|;
    forall i | 0 <= i < |x|
      ensures x[i] == y[i]
    {
      if pos + |a| <= i < pos + |a| + |b| {
        assert (a + b)[i - pos] == b[i - pos - |a|];
      } else if pos <= i < pos + |a| {
        assert (a + b)[i - pos] == a[i - pos];
      }
    }
  }

  lemma WriteAtNothing(content: seq<Byte>, pos: nat)
    requires pos <= |content|
    ensures WriteAt(content, pos, []) == content
  {
    assert content[..pos] + content[pos..] == content;
  }

  /** The receive loop writes the drained bytes at `pos` in one go. */
  lemma {:induction false} WriteChunksDrain(content: seq<Byte>, pos: nat, chunks: seq<Chunk>)
    requires pos <= |content|
    ensures WriteChunks(content, pos, chunks) == WriteAt(content, pos, Drain(chunks))
    decreases |chunks|
  {
    if |chunks| == 0 || |chunks[0]| == 0 {
      assert Drain(chunks) == [];
      WriteAtNothing(content, pos);
    } else {
      var next := WriteAt(content, pos, chunks[0]);
      var rest := Drain(chunks[1..]);
      assert Drain(chunks) == chunks[0] + rest;
      assert WriteChunks(content, pos, chunks) == WriteChunks(next, pos + |chunks[0]|, chunks[1..]);
      WriteChunksDrain(next, pos + |chunks[0]|, chunks[1..]);
      WriteAtTwice(content, pos, chunks[0], rest);
    }
  }

  /** Resumed at the end of the local file, the download appends. */
  lemma ResumeAppends(content: seq<Byte>, chunks: seq<Chunk>)
    ensures WriteChunks(content, |content|, chunks) == content + Drain(chunks)
  {
    WriteChunksDrain(content, |content|, chunks);
    assert content[..|content|] == content;
  }

  /** Started over at 0, the download overwrites the old bytes without
      truncating: an old file longer than the data keeps its tail. */
  lemma RestartKeepsTail(content: seq<Byte>, chunks: seq<Chunk>)
    requires |Drain(chunks)| < |content|
    ensures WriteChunks(content, 0, chunks) == Drain(chunks) + content[|Drain(chunks)|..]
  {
    var d := Drain(chunks);
    WriteChunksDrain(content, 0, chunks);
    assert WriteAt(content, 0, d) == content[..0] + d + content[|d|..];
    assert content[..0] + d == d;
  }

  /** `Download(ftpFile, localFile, resume)`: binary mode is set outside any
      `try`; an empty local name means the remote name; a missing local file
      is created empty before anything is received. */
  function Download(s: Session, remote: string, local: string, resume: bool): (o: Out<()>)
    ensures Grows(s, o.session) && o.session.dialed <= s.dialed + 1
    ensures o.session.loggedIn == s.loggedIn && o.session.control == s.control && o.session.path == s.path
    ensures !s.loggedIn ==> o == Out(s, Err(Ftp(NotLoggedIn)))
    ensures Untouched(s.files, o.session.files, Target(remote, local))
    ensures s.loggedIn ==>
              var b := SetBinary(s, true);
              var name := Target(remote, local);
              && (b.result.Err? ==> o == b)
              && (b.result.Ok? ==> o == Fetch(Prepared(b.session, name), remote, name, resume))
  {
    if !s.loggedIn then Out(s, Err(Ftp(NotLoggedIn)))
    else
      var b :- SetBinary(s, true);
      var name := Target(remote, local);
      var t := Prepared(b.session, name);
      GrowsTransitive(s, t, Fetch(t, remote, name, resume).session);
      Fetch(t, remote, name, resume)
  }

  /** `File.Create` for a missing local file: it exists, empty, before any
      data arrives; an existing file is opened as it is. */
  function Prepared(s: Session, name: string): (t: Session)
    ensures name in t.files && Untouched(s.files, t.files, name)
    ensures name in s.files ==> t == s
    ensures name !in s.files ==> t == s.(files := t.files) && t.files[name] == []
  {
    if name in s.files then s else s.(files := s.files[name := []])
  }

  /** All files but `name` keep their contents, and none disappears. */
  predicate Untouched(before: map<string, seq<Byte>>, after: map<string, seq<Byte>>, name: string)
  {
    && (forall f :: f in before ==> f in after)
    && (forall f :: f in after && f != name ==> f in before && after[f] == before[f])
  }

  /** The part of `Download` from the data connection on: with resume and a
      non-empty local file, REST answered 350 makes the data land at the end
      of the file, otherwise at its start, over the old bytes. */
  function Fetch(s: Session, remote: string, name: string, resume: bool): (o: Out<()>)
    requires name in s.files
    ensures Grows(s, o.session) && o.session.dialed <= s.dialed + 1
    ensures o.session.loggedIn == s.loggedIn && o.session.control == s.control && o.session.path == s.path
    ensures Untouched(s.files, o.session.files, name) && name in o.session.files
    ensures o.result.Ok? ==>
              && OpenData(s).result.Ok?
              && var d := OpenData(s);
              && var len := |s.files[name]|;
              && var resumed := resume && len > 0 && Execute(d.session, Rest(len)).session.status == 350;
              && o.session.files[name] == WriteChunks(s.files[name], if resumed then len else 0, d.result.value)
    ensures var d := OpenData(s);
            && (d.result.Err? ==> o == Out(d.session, Err(d.result.error)))
            && (d.result.Ok? ==> o == FetchFrom(s, d.session, remote, name, resume, d.result.value))
  {
    var d :- OpenData(s);
    FetchFrom(s, d.session, remote, name, resume, d.result.value)
  }

  /** The REST step of `Download` over an open data connection: asked only
      with resume and a non-empty local file; a reply other than 350 means
      the data is written from the start instead. */
  function FetchFrom(s: Session, t: Session, remote: string, name: string, resume: bool, chunks: seq<Chunk>)
    : (o: Out<()>)
    requires Grows(s, t) && name in t.files
    ensures Grows(s, o.session) && o.session.dialed == t.dialed
    ensures o.session.loggedIn == t.loggedIn && o.session.control == t.control && o.session.path == t.path
    ensures Untouched(t.files, o.session.files, name) && name in o.session.files
    ensures var len := |t.files[name]|;
            && (!(resume && len > 0) ==> o == Retrieve(s, t, remote, name, 0, chunks))
            && (resume && len > 0 ==>
                  var r := Execute(t, Rest(len));
                  && Grows(s, r.session)
                  && (r.result.Err? ==> o == Out(r.session, Err(r.result.error)))
                  && (r.result.Ok? ==>
                        o == Retrieve(s, r.session, remote, name, if r.session.status == 350 then len else 0, chunks)))
    ensures o.result.Ok? ==>
              var len := |t.files[name]|;
              var resumed := resume && len > 0 && Execute(t, Rest(len)).session.status == 350;
              o.session.files[name] == WriteChunks(t.files[name], if resumed then len else 0, chunks)
  {
    var len := |t.files[name]|;
    if !(resume && len > 0) then Retrieve(s, t, remote, name, 0, chunks)
    else
      var r := Execute(t, Rest(len));
      GrowsTransitive(s, t, r.session);
      var x :- r;
      Retrieve(s, x.session, remote, name, if x.session.status == 350 then len else 0, chunks)
  }

  /** RETR, the receive loop writing at `pos`, and the final 226 or 250. */
  function Retrieve(s: Session, t: Session, remote: string, name: string, pos: nat, chunks: seq<Chunk>)
    : (o: Out<()>)
    requires Grows(s, t) && name in t.files && pos <= |t.files[name]|
    ensures Grows(s, o.session) && o.session.dialed == t.dialed
    ensures o.session.loggedIn == t.loggedIn && o.session.control == t.control && o.session.path == t.path
    ensures Untouched(t.files, o.session.files, name) && name in o.session.files
    ensures o.result.Ok? ==>
              && Expect(t, Retr(remote), {150, 125}).result.Ok?
              && o.session.files[name] == WriteChunks(t.files[name], pos, chunks)
              && o.session.status in {226, 250}
    ensures var e := Expect(t, Retr(remote), {150, 125});
            && Grows(s, e.session)
            && (e.result.Err? ==> o == Out(e.session, Err(e.result.error)))
            && (e.result.Ok? ==> o == Land(s, e.session, name, pos, chunks))
  {
    var e := Expect(t, Retr(remote), {150, 125});
    GrowsTransitive(s, t, e.session);
    var g :- e;
    Land(s, g.session, name, pos, chunks)
  }

  /** After RETR was accepted: the data is written at `pos` whatever the
      closing reply says, and only 226 or 250 there is a success. */
  function Land(s: Session, u: Session, name: string, pos: nat, chunks: seq<Chunk>): (o: Out<()>)
    requires Grows(s, u) && name in u.files && pos <= |u.files[name]|
    ensures Grows(s, o.session) && o.session.dialed == u.dialed
    ensures o.session.loggedIn == u.loggedIn && o.session.control == u.control && o.session.path == u.path
    ensures Untouched(u.files, o.session.files, name) && name in o.session.files
    ensures o.session.files[name] == WriteChunks(u.files[name], pos, chunks) && o.session.trace == u.trace
    ensures o.result.Ok? <==>
              && u.control == Open
              && ReadResponse(u.incoming).result.Ok?
              && ReadResponse(u.incoming).result.value.code in {226, 250}
    ensures o.result.Ok? ==> o.session.status in {226, 250}
  {
    var written := u.(files := u.files[name := WriteChunks(u.files[name], pos, chunks)]);
    var f :- Receive(written);
    if f.session.status != 226 && f.session.status != 250 then Out(f.session, Err(Reject(f.session)))
    else f
  }

  /** The local file `Download` writes. */
  function Target(remote: string, local: string): string
  {
    if local == "" then remote else local
  }
}
