/** Directory operations of `FtpService`: the NLST listing, DELE, the
    RNFR/RNTO rename, MKD, and the recursive `UploadDirectory`. */
module Directory {
  import opened Base
  import opened Text
  import opened Numbers
  import opened Replies
  import opened Passive
  import opened Session
  import opened Transfer

  const NoSuchFile := "No such file or directory"
  const FileExists := "File already exists"

  /** The receive loop of `DirectoryListSimple`: chunks up to and including
      the first short one; the end of the list stands for the deadline. */
  function ListingBytes(chunks: seq<Chunk>): (r: seq<Byte>)
    ensures FirstShort(chunks) >= 0 ==> r == Flatten(chunks[..FirstShort(chunks) + 1])
    ensures FirstShort(chunks) < 0 ==> r == Flatten(chunks)
    decreases |chunks|
  {
    if |chunks| == 0 then []
    else if |chunks[0]| < BufferSize then chunks[0]
    else
      var r := chunks[0] + ListingBytes(chunks[1..]);
      assert FirstShort(chunks) >= 0 ==> chunks[..FirstShort(chunks) + 1] == [chunks[0]] + chunks[1..][..FirstShort(chunks)];
      r
  }

  /** The listing NLST data yields: carriage returns removed, split at line
      feeds; nothing when the text mentions "No such file or directory". */
  function Listing(text: string): (r: seq<string>)
    ensures Contains(text, NoSuchFile) ==> r == []
    ensures !Contains(text, NoSuchFile) ==> |r| >= 1 && Join(r, '\n') == Remove(text, '\r')
    ensures forall i :: 0 <= i < |r| ==> '\n' !in r[i] && '\r' !in r[i]
  {
    if Contains(text, NoSuchFile) then []
    else
      var pieces := Split(Remove(text, '\r'), '\n');
      JoinNoCarriageReturn(pieces);
      pieces
  }

  lemma {:induction false} JoinNoCarriageReturn(pieces: seq<string>)
    requires |pieces| >= 1 && '\r' !in Join(pieces, '\n')
    ensures forall i :: 0 <= i < |pieces| ==> '\r' !in pieces[i]
    decreases |pieces|
  {
    if |pieces| > 1 {
      var rest := Join(pieces[1..], '\n');
      assert Join(pieces, '\n') == pieces[0] + ['\n'] + rest;
      assert forall c :: c in pieces[0] ==> c in Join(pieces, '\n');
      assert forall c :: c in rest ==> c in Join(pieces, '\n');
      JoinNoCarriageReturn(pieces[1..]);
      forall i | 1 <= i < |pieces|
        ensures '\r' !in pieces[i]
      {
        assert pieces[i] == pieces[1..][i - 1];
      }
    }
  }

  /** Names without line breaks, joined by line feeds, are listed back as
      they were, unless the text happens to contain the "no such file"
      message. */
  lemma ListingJoin(names: seq<string>)
    requires |names| >= 1
    requires forall i :: 0 <= i < |names| ==> '\n' !in names[i] && '\r' !in names[i]
    requires !Contains(Join(names, '\n'), NoSuchFile)
    ensures Listing(Join(names, '\n')) == names
  {
    JoinAbsent(names, '\n', '\r');
    RemoveAbsent(Join(names, '\n'), '\r');
    SplitJoin(names, '\n');
  }

  /** Empty listing data gives one empty name, not an empty list. */
  lemma ListingOfNothing()
    ensures Listing("") == [""]
  {
    SplitNoSeparator("", '\n');
  }

  /** `DirectoryListSimple(mask)`: PASV, NLST answered 150 or 125, the data
      read, then the closing reply; anything but 226 there gives an empty
      listing rather than an exception. */
  function ListSimple(s: Session, mask: string): (o: Out<seq<string>>)
    ensures Cwds(o.session.trace) == Cwds(s.trace)
    ensures Grows(s, o.session) && o.session.dialed <= s.dialed + 1
    ensures o.session.loggedIn == s.loggedIn && o.session.control == s.control
    ensures o.session.path == s.path && o.session.files == s.files
    ensures !s.loggedIn ==> o == Out(s, Err(Ftp(NotLoggedIn)))
    ensures o.result.Ok? && o.session.status != 226 ==> o.result.value == []
    ensures o.result.Ok? ==> NextOffer(s).Accepted? && o.session.dialed == s.dialed + 1
    ensures o.result.Ok? && o.session.status == 226 ==>
              o.result.value == Listing(Ascii(ListingBytes(NextOffer(s).chunks)))
    ensures s.loggedIn ==>
              var d := OpenData(s);
              && (d.result.Err? ==> o == Out(d.session, Err(d.result.error)))
              && (d.result.Ok? ==> o == Names(d.session, mask, d.result.value))
  {
    if !s.loggedIn then Out(s, Err(Ftp(NotLoggedIn)))
    else
      var d :- OpenData(s);
      GrowsTransitive(s, d.session, Names(d.session, mask, d.result.value).session);
      Names(d.session, mask, d.result.value)
  }

  /** NLST over an open data connection delivering `chunks`. */
  function Names(s: Session, mask: string, chunks: seq<Chunk>): (o: Out<seq<string>>)
    ensures Cwds(o.session.trace) == Cwds(s.trace)
    ensures Quiet(s, o.session)
    ensures o.result.Ok? && o.session.status != 226 ==> o.result.value == []
    ensures o.result.Ok? && o.session.status == 226 ==> o.result.value == Listing(Ascii(ListingBytes(chunks)))
    ensures var e := Expect(s, Nlst(mask), {150, 125});
            && (e.result.Err? ==> o == Out(e.session, Err(e.result.error)))
            && (e.result.Ok? ==> o.session == Receive(e.session).session)
            && (e.result.Ok? ==> (o.result.Ok? <==> Receive(e.session).result.Ok?))
            && (e.result.Ok? && Receive(e.session).result.Err? ==> o.result == Err(Receive(e.session).result.error))
  {
    var e := Expect(s, Nlst(mask), {150, 125});
    ExpectCwds(s, Nlst(mask), {150, 125});
    var n :- e;
    var f := Receive(n.session);
    QuietTransitive(s, n.session, f.session);
    if f.result.Err? then Out(f.session, Err(f.result.error))
    else Out(f.session, Ok(if f.session.status != 226 then [] else Listing(Ascii(ListingBytes(chunks)))))
  }

  /** `Delete(file)`: DELE must answer 250. */
  function Delete(s: Session, file: string): (o: Out<()>)
    ensures Quiet(s, o.session)
    ensures !s.loggedIn ==> o == Out(s, Err(Ftp(NotLoggedIn)))
    ensures s.loggedIn ==> o == Expect(s, Dele(file), {250})
  {
    if !s.loggedIn then Out(s, Err(Ftp(NotLoggedIn)))
    else Expect(s, Dele(file), {250})
  }

  /** `CreateDirectory(dirName)`: the login is checked before the name, and
      MKD must answer 250 or 257. */
  function CreateDirectory(s: Session, dir: string): (o: Out<()>)
    ensures Cwds(o.session.trace) == Cwds(s.trace)
    ensures Quiet(s, o.session)
    ensures !s.loggedIn ==> o == Out(s, Err(Ftp(NotLoggedIn)))
    ensures s.loggedIn && (dir == "." || dir == "") ==> o == Out(s, Err(Ftp(NoDirectory)))
    ensures s.loggedIn && dir != "." && dir != "" ==> o == Expect(s, Mkd(dir), {250, 257})
  {
    if !s.loggedIn then Out(s, Err(Ftp(NotLoggedIn)))
    else if dir == "." || dir == "" then Out(s, Err(Ftp(NoDirectory)))
    else
      ExpectCwds(s, Mkd(dir), {250, 257});
      Expect(s, Mkd(dir), {250, 257})
  }

  /** `Rename(oldName, newName, replace)`: RNFR must answer 350; without
      replace, a non-empty listing of the new name stops the rename after
      RNFR; RNTO must answer 250. */
  function Rename(s: Session, oldName: string, newName: string, replace: bool): (o: Out<()>)
    ensures Grows(s, o.session) && o.session.dialed <= s.dialed + 1
    ensures o.session.loggedIn == s.loggedIn && o.session.control == s.control
    ensures o.session.path == s.path && o.session.files == s.files
    ensures !s.loggedIn ==> o == Out(s, Err(Ftp(NotLoggedIn)))
    ensures o.result.Ok? ==> o.session.status == 250
    ensures s.loggedIn ==>
              var f := Expect(s, Rnfr(oldName), {350});
              && (f.result.Err? ==> o == f)
              && (f.result.Ok? ==> o == RenameTo(f.session, newName, replace))
  {
    if !s.loggedIn then Out(s, Err(Ftp(NotLoggedIn)))
    else
      var f := Expect(s, Rnfr(oldName), {350});
      var r :- f;
      GrowsTransitive(s, r.session, RenameTo(r.session, newName, replace).session);
      RenameTo(r.session, newName, replace)
  }

  /** The part of `Rename` after RNFR was accepted. */
  function RenameTo(s: Session, newName: string, replace: bool): (o: Out<()>)
    ensures Grows(s, o.session) && o.session.dialed <= s.dialed + 1
    ensures o.session.loggedIn == s.loggedIn && o.session.control == s.control
    ensures o.session.path == s.path && o.session.files == s.files
    ensures replace ==> o == Expect(s, Rnto(newName), {250})
    ensures !replace ==> o == Checked(s, newName)
    ensures o.result.Ok? ==> o.session.status == 250
  {
    if replace then Expect(s, Rnto(newName), {250}) else Checked(s, newName)
  }

  /** RNTO after the new name was found vacant. */
  function Checked(s: Session, newName: string): (o: Out<()>)
    ensures Grows(s, o.session) && o.session.dialed <= s.dialed + 1
    ensures o.session.loggedIn == s.loggedIn && o.session.control == s.control
    ensures o.session.path == s.path && o.session.files == s.files
    ensures var v := Vacant(s, newName);
            && (v.result.Err? ==> o == v)
            && (v.result.Ok? ==> o == Expect(v.session, Rnto(newName), {250}))
  {
    var v := Vacant(s, newName);
    if v.result.Err? then v
    else
      var t := Expect(v.session, Rnto(newName), {250});
      GrowsTransitive(s, v.session, t.session);
      t
  }

  /** The check of `Rename` without replace: a non-empty listing of the new
      name throws "File already exists". */
  function Vacant(s: Session, newName: string): (o: Out<()>)
    ensures Grows(s, o.session) && o.session.dialed <= s.dialed + 1
    ensures o.session.loggedIn == s.loggedIn && o.session.control == s.control
    ensures o.session.path == s.path && o.session.files == s.files
    ensures var l := ListSimple(s, newName);
            && (l.result.Ok? && |l.result.value| > 0 ==> o == Out(l.session, Err(Ftp(FileExists))))
            && (l.result.Ok? && |l.result.value| == 0 ==> o == Out(l.session, Ok(())))
            && (l.result.Err? ==> o == Out(l.session, Err(l.result.error)))
  {
    var l :- ListSimple(s, newName);
    if |l.result.value| > 0 then Out(l.session, Err(Ftp(FileExists))) else Out(l.session, Ok(()))
  }

  /** A listing of the new name that brings no data at all is still one
      empty name, so without replace the rename is refused as if the file
      existed. */
  lemma NothingListedBlocksRename(s: Session, newName: string)
    requires ListSimple(s, newName).result.Ok? && ListSimple(s, newName).session.status == 226
    requires ListingBytes(NextOffer(s).chunks) == []
    ensures Vacant(s, newName) == Out(ListSimple(s, newName).session, Err(Ftp(FileExists)))
  {
    ListingOfNothing();
    assert Ascii([]) == "";
  }

  /** A local directory as `Directory.GetFiles(path, mask)` and
      `Directory.GetDirectories(path)` see it. */
  datatype LocalDir = LocalDir(path: string, files: seq<string>, subdirs: seq<LocalDir>)

  /** The last component of the path, after turning '/' into '\': the
      longest suffix free of either separator. */
  function RootName(path: string): (r: string)
    ensures |r| <= |path| && r == path[|path| - |r|..]
    ensures forall i :: 0 <= i < |r| ==> !IsSeparator(r[i])
    ensures |r| < |path| ==> IsSeparator(path[|path| - |r| - 1])
  {
    var parts := Split(ReplaceChar(path, '/', '\\'), '\\');
    ReplacedLast(path, parts[|parts| - 1]);
    parts[|parts| - 1]
  }

  /** A drive-relative path is where the two differ: "C:dir" is created
      as "C:dir" but uploaded as "dir". */
  lemma DriveRelativeDiffers(drive: string, name: string)
    requires forall i :: 0 <= i < |drive| ==> !IsSeparator(drive[i])
    requires forall i :: 0 <= i < |name| ==> !IsNameBoundary(name[i])
    ensures RootName(drive + ":" + name) == drive + ":" + name
    ensures FileName(drive + ":" + name) == name
  {
    DriveNoSeparator(drive, name);
    RootNameWhole(drive + ":" + name);
    assert drive + ":" + name == (drive + ":") + name;
    FileNameAfter(drive + ":", name);
  }

  lemma DriveNoSeparator(drive: string, name: string)
    requires forall i :: 0 <= i < |drive| ==> !IsSeparator(drive[i])
    requires forall i :: 0 <= i < |name| ==> !IsNameBoundary(name[i])
    ensures forall i :: 0 <= i < |drive + ":" + name| ==> !IsSeparator((drive + ":" + name)[i])
  {
    var path := drive + ":" + name;
    forall i | 0 <= i < |path|
      ensures !IsSeparator(path[i])
    {
      if i > |drive| {
        assert path[i] == name[i - |drive| - 1];
      }
    }
  }

  /** A path without separators is its own root name. */
  lemma RootNameWhole(path: string)
    requires forall i :: 0 <= i < |path| ==> !IsSeparator(path[i])
    ensures RootName(path) == path
  {
    var a := RootName(path);
    if |a| < |path| {
      assert false;
    }
  }

  /** The file name of a path is what follows its last boundary. */
  lemma {:induction false} FileNameAfter(front: string, name: string)
    requires |front| > 0 && IsNameBoundary(front[|front| - 1])
    requires forall i :: 0 <= i < |name| ==> !IsNameBoundary(name[i])
    ensures FileName(front + name) == name
    decreases |name|
  {
    var path := front + name;
    if |name| == 0 {
      assert path == front;
    } else {
      var init := name[..|name| - 1];
      assert path[..|path| - 1] == front + init;
      FileNameAfter(front, init);
      assert init + [name[|name| - 1]] == name;
    }
  }

  lemma ReplacedLast(path: string, l: string)
    requires var parts := Split(ReplaceChar(path, '/', '\\'), '\\'); l == parts[|parts| - 1]
    ensures |l| <= |path| && l == path[|path| - |l|..]
    ensures forall i :: 0 <= i < |l| ==> !IsSeparator(l[i])
    ensures |l| < |path| ==> IsSeparator(path[|path| - |l| - 1])
  {
    var rep := ReplaceChar(path, '/', '\\');
    SplitLast(rep, '\\');
    assert '\\' !in l;
    forall i | 0 <= i < |l|
      ensures path[|path| - |l| + i] == l[i] && !IsSeparator(l[i])
    {
      assert l[i] == rep[|rep| - |l| + i];
    }
  }

  /** The directory name `UploadDirectory` creates is the one `Upload`
      would give a file at the same path, unless the path holds a ':',
      where only `Path.GetFileName` cuts. */
  lemma RootNameIsFileName(path: string)
    requires ':' !in path
    ensures RootName(path) == FileName(path)
  {
    var a, b := RootName(path), FileName(path);
    if |a| < |b| {
      assert false;
    } else if |b| < |a| {
      assert false;
    }
  }

  /** `UploadDirectory(dirPath, recursive, fileMask)`: create the last path
      component on the server when its listing is empty, change into it,
      upload every file with resume, recurse when asked, and change back to
      "..". */
  function UploadDirectory(s: Session, d: LocalDir, recursive: bool): (o: Out<()>)
    ensures Grows(s, o.session)
    ensures o.session.loggedIn == s.loggedIn && o.session.control == s.control && o.session.files == s.files
    ensures !s.loggedIn ==> o == Out(s, Err(Ftp(NotLoggedIn)))
    ensures s.loggedIn ==>
              var l := ListSimple(s, RootName(d.path));
              && (l.result.Err? ==> o == Out(l.session, Err(l.result.error)))
              && (l.result.Ok? ==> o == Prepare(l.session, d, recursive, |l.result.value| == 0))
    decreases d, 4
  {
    if !s.loggedIn then Out(s, Err(Ftp(NotLoggedIn)))
    else
      var l :- ListSimple(s, RootName(d.path));
      GrowsTransitive(s, l.session, Prepare(l.session, d, recursive, |l.result.value| == 0).session);
      Prepare(l.session, d, recursive, |l.result.value| == 0)
  }

  /** `CreateDirectory(rootDirectory)` when the listing of the name came back
      empty, then the rest of the upload inside it. */
  function Prepare(s: Session, d: LocalDir, recursive: bool, create: bool): (o: Out<()>)
    ensures Grows(s, o.session)
    ensures o.session.loggedIn == s.loggedIn && o.session.control == s.control && o.session.files == s.files
    ensures !create ==> o == Enter(s, d, recursive)
    ensures create ==>
              var c := CreateDirectory(s, RootName(d.path));
              && (c.result.Err? ==> o == Out(c.session, Err(c.result.error)))
              && (c.result.Ok? ==> o == Enter(c.session, d, recursive))
    decreases d, 3
  {
    var c := if create then CreateDirectory(s, RootName(d.path)) else Out(s, Ok(()));
    GrowsTransitive(s, c.session, Enter(c.session, d, recursive).session);
    var cc :- c;
    Enter(cc.session, d, recursive)
  }

  /** The server-side directory exists: change into it and fill it. */
  function Enter(s: Session, d: LocalDir, recursive: bool): (o: Out<()>)
    ensures Grows(s, o.session)
    ensures o.session.loggedIn == s.loggedIn && o.session.control == s.control && o.session.files == s.files
    ensures var w := ChangeWorkingDirectory(s, RootName(d.path));
            && (w.result.Err? ==> o == Out(w.session, Err(w.result.error)))
            && (w.result.Ok? ==> o == Fill(w.session, d, recursive))
    decreases d, 2
  {
    var w := ChangeWorkingDirectory(s, RootName(d.path));
    var ww :- w;
    GrowsTransitive(s, ww.session, Fill(ww.session, d, recursive).session);
    Fill(ww.session, d, recursive)
  }

  /** Inside the directory: the files, then the subdirectories when
      recursive, then back to "..". */
  function Fill(s: Session, d: LocalDir, recursive: bool): (o: Out<()>)
    ensures Grows(s, o.session)
    ensures o.session.loggedIn == s.loggedIn && o.session.control == s.control && o.session.files == s.files
    ensures var u := UploadFiles(s, d.files);
            && (u.result.Err? ==> o == Out(u.session, Err(u.result.error)))
            && (u.result.Ok? ==> o == Descend(u.session, d, recursive))
    decreases d, 1
  {
    var u :- UploadFiles(s, d.files);
    GrowsTransitive(s, u.session, Descend(u.session, d, recursive).session);
    Descend(u.session, d, recursive)
  }

  /** After the files: the subdirectories when recursive, then back to "..". */
  function Descend(s: Session, d: LocalDir, recursive: bool): (o: Out<()>)
    ensures Grows(s, o.session)
    ensures o.session.loggedIn == s.loggedIn && o.session.control == s.control && o.session.files == s.files
    ensures !recursive ==> o == ChangeWorkingDirectory(s, "..")
    ensures recursive ==>
              var r := UploadDirs(s, d.subdirs, recursive);
              && (r.result.Err? ==> o == Out(r.session, Err(r.result.error)))
              && (r.result.Ok? ==> o == ChangeWorkingDirectory(r.session, ".."))
    decreases d, 0
  {
    var r := if recursive then UploadDirs(s, d.subdirs, recursive) else Out(s, Ok(()));
    var rr :- r;
    var b := ChangeWorkingDirectory(rr.session, "..");
    GrowsTransitive(s, rr.session, b.session);
    b
  }

  /** The directories a successful upload of `d` changes into, in order:
      its own name, the walks of its subdirectories when recursive, and
      "..". */
  function Walk(d: LocalDir, recursive: bool): seq<string>
    decreases d, 1
  {
    [RootName(d.path)] + (if recursive then WalkAll(d.subdirs, recursive) else []) + [".."]
  }

  function WalkAll(dirs: seq<LocalDir>, recursive: bool): seq<string>
    decreases dirs, 0
  {
    if |dirs| == 0 then [] else Walk(dirs[0], recursive) + WalkAll(dirs[1..], recursive)
  }

  /** A successful `UploadDirectory` sends exactly the CWD commands of the
      walk, so it ends in the remote directory it started from. */
  lemma {:induction false} UploadDirectoryWalk(s: Session, d: LocalDir, recursive: bool)
    requires UploadDirectory(s, d, recursive).result.Ok?
    ensures Cwds(UploadDirectory(s, d, recursive).session.trace) == Cwds(s.trace) + Walk(d, recursive)
    decreases d, 3
  {
    var root := RootName(d.path);
    var l := ListSimple(s, root);
    assert l.result.Ok?;
    var c := if |l.result.value| == 0 then CreateDirectory(l.session, root) else Out(l.session, Ok(()));
    assert c.result.Ok? && Cwds(c.session.trace) == Cwds(s.trace);
    assert UploadDirectory(s, d, recursive) == Prepare(l.session, d, recursive, |l.result.value| == 0)
      == Enter(c.session, d, recursive);
    EnterWalk(c.session, d, recursive);
  }

  lemma {:induction false} EnterWalk(s: Session, d: LocalDir, recursive: bool)
    requires Enter(s, d, recursive).result.Ok?
    ensures Cwds(Enter(s, d, recursive).session.trace) == Cwds(s.trace) + Walk(d, recursive)
    decreases d, 2
  {
    var root := RootName(d.path);
    var w := ChangeWorkingDirectory(s, root);
    assert w.result.Ok? && Enter(s, d, recursive) == Fill(w.session, d, recursive);
    ChangeCwds(s, root);
    FillWalk(w.session, d, recursive);
    WalkSplit(Cwds(s.trace), d, recursive);
  }

  lemma WalkSplit(h: seq<string>, d: LocalDir, recursive: bool)
    ensures h + [RootName(d.path)] + (if recursive then WalkAll(d.subdirs, recursive) else []) + [".."] ==
            h + Walk(d, recursive)
  {
  }

  lemma {:induction false} FillWalk(s: Session, d: LocalDir, recursive: bool)
    requires Fill(s, d, recursive).result.Ok?
    ensures Cwds(Fill(s, d, recursive).session.trace) ==
            Cwds(s.trace) + (if recursive then WalkAll(d.subdirs, recursive) else []) + [".."]
    decreases d, 1
  {
    var u := UploadFiles(s, d.files);
    assert u.result.Ok? && Fill(s, d, recursive) == Descend(u.session, d, recursive);
    DescendWalk(u.session, d, recursive);
  }

  /** After the files, the history grows by the subdirectories' walks when
      recursive and a final "..". */
  lemma {:induction false} DescendWalk(s: Session, d: LocalDir, recursive: bool)
    requires Descend(s, d, recursive).result.Ok?
    ensures Cwds(Descend(s, d, recursive).session.trace) ==
            Cwds(s.trace) + (if recursive then WalkAll(d.subdirs, recursive) else []) + [".."]
    decreases d, 0
  {
    if recursive {
      var r := UploadDirs(s, d.subdirs, recursive);
      assert r.result.Ok? && Descend(s, d, recursive) == ChangeWorkingDirectory(r.session, "..");
      UploadDirsWalk(s, d.subdirs, recursive);
      ChangeCwds(r.session, "..");
    } else {
      assert Descend(s, d, recursive) == ChangeWorkingDirectory(s, "..");
      ChangeCwds(s, "..");
    }
  }

  lemma {:induction false} UploadDirsWalk(s: Session, dirs: seq<LocalDir>, recursive: bool)
    requires UploadDirs(s, dirs, recursive).result.Ok?
    ensures Cwds(UploadDirs(s, dirs, recursive).session.trace) == Cwds(s.trace) + WalkAll(dirs, recursive)
    decreases dirs, 0
  {
    if |dirs| > 0 {
      var u := UploadDirectory(s, dirs[0], recursive);
      assert u.result.Ok? && UploadDirs(s, dirs, recursive) == UploadDirs(u.session, dirs[1..], recursive);
      UploadDirectoryWalk(s, dirs[0], recursive);
      UploadDirsWalk(u.session, dirs[1..], recursive);
      WalkAllSplit(Cwds(s.trace), dirs, recursive);
    }
  }

  lemma WalkAllSplit(h: seq<string>, dirs: seq<LocalDir>, recursive: bool)
    requires |dirs| > 0
    ensures h + Walk(dirs[0], recursive) + WalkAll(dirs[1..], recursive) == h + WalkAll(dirs, recursive)
  {
    var a, b := Walk(dirs[0], recursive), WalkAll(dirs[1..], recursive);
    assert WalkAll(dirs, recursive) == a + b;
    assert |h + a + b| == |h + (a + b)|;
    forall k | 0 <= k < |h + a + b|
      ensures (h + a + b)[k] == (h + (a + b))[k]
    {
    }
  }

  /** The `foreach` over the files: `Upload(file, true)` one after the other. */
  function UploadFiles(s: Session, files: seq<string>): (o: Out<()>)
    ensures Cwds(o.session.trace) == Cwds(s.trace)
    ensures Grows(s, o.session)
    ensures o.session.loggedIn == s.loggedIn && o.session.control == s.control && o.session.files == s.files
    ensures |files| == 0 ==> o == Out(s, Ok(()))
    ensures |files| > 0 ==>
              var u := Upload(s, files[0], true);
              && (u.result.Err? ==> o == Out(u.session, Err(u.result.error)))
              && (u.result.Ok? ==> o == UploadFiles(u.session, files[1..]))
    decreases |files|
  {
    if |files| == 0 then Out(s, Ok(()))
    else
      var u := Upload(s, files[0], true);
      var uu :- u;
      var r := UploadFiles(uu.session, files[1..]);
      GrowsTransitive(s, uu.session, r.session);
      r
  }

  /** The `foreach` over the subdirectories. */
  function UploadDirs(s: Session, dirs: seq<LocalDir>, recursive: bool): (o: Out<()>)
    ensures Grows(s, o.session)
    ensures o.session.loggedIn == s.loggedIn && o.session.control == s.control && o.session.files == s.files
    ensures |dirs| == 0 ==> o == Out(s, Ok(()))
    ensures |dirs| > 0 ==>
              var u := UploadDirectory(s, dirs[0], recursive);
              && (u.result.Err? ==> o == Out(u.session, Err(u.result.error)))
              && (u.result.Ok? ==> o == UploadDirs(u.session, dirs[1..], recursive))
    decreases dirs, 0
  {
    if |dirs| == 0 then Out(s, Ok(()))
    else
      var u := UploadDirectory(s, dirs[0], recursive);
      var uu :- u;
      var r := UploadDirs(uu.session, dirs[1..], recursive);
      GrowsTransitive(s, uu.session, r.session);
      r
  }
}
