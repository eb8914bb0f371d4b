# FtpService — a Dafny model of a small FTP client

`FtpService` is a C# FTP client (RFC 959) that logs in over a control
connection, reads numbered replies, opens passive data connections, uploads
and downloads files with a resume option, lists, renames, deletes and
creates remote files and directories, and uploads a local directory tree.
This project models that protocol logic as pure Dafny functions over an
immutable session value and proves what each operation sends, concludes
and throws.

How the model is built:

- **Sockets become data.** The control connection is the finite list of
  chunks the server will send. Each chunk is what one 512-byte
  `Socket.Receive` delivers. Running out of chunks stands for a receive
  that would block for ever (`Stalled`).
- **Data connections are a list of offers.** The server offers one
  connection per PASV: a failed lookup, a refused connect, or an accepted
  connection carrying chunks. The end of a chunk list stands for the
  wall-clock deadline of the receive loops.
- **The local file system is a map** from path to bytes. The local
  directory tree of `UploadDirectory` is a `LocalDir` value whose file
  list is already filtered by the mask.
- **The session records what the client keeps when it throws.** Its fields
  are `StatusCode`, `_result`, `_ftpPath`, `IsLoggedIn`, `_isBinary`, the
  control socket and a trace of everything sent.
- **Every operation returns the session after it plus a result.** The
  result is a value or an `Error`, one per kind of exception the client
  raises.

Modules, in dependency order:

| module | file | models |
|---|---|---|
| Base | base.dfy | bytes, chunks, the ASCII decoder, the exception kinds |
| Text | text.dfy | `Split`, `Join`, `IndexOf`, `Contains`, `Replace` on strings |
| Numbers | numbers.dfy | `int.Parse` and `long.Parse`, decimal `ToString`, 32-bit wrap-around |
| Replies | replies.dfy | `ParseHostResponse` and `ReadResponse` |
| Passive | passive.dfy | the PASV reply decoder of `OpenSocketForTransfer` |
| Session | session.dfy | `Execute`, login, close, `IsBinary`, `ChangeWorkingDirectory`, the data connection |
| Transfer | transfer.dfy | `GetFileSize`, `Upload`, `Download` |
| Directory | directory.dfy | `DirectoryListSimple`, `Delete`, `Rename`, `CreateDirectory`, `UploadDirectory` |
| Client | client.dfy | sequences of the modelled calls (the public methods, the `IsBinary` setter and the internal `LogOut`) on one instance |
| Scenarios | scenarios.dfy | whole conversations with a server that answers one reply per send |

## Behaviours the model makes explicit

These follow the code as written.

- **The reply reader.** A line whose fourth character is not a space is
  read again with the new data appended to that same line.
  - If a multi-line reply arrives in one receive, the code is taken from
    its last line.
  - If the lines arrive in separate receives, the reader never accepts a
    line (`ContinuationNeverAccepted`).
- **The PASV decoder.**
  - It stores a segment only when it meets a comma, so the last number of
    the reply is never stored. "227 Entering Passive Mode
    (127,0,0,1,19,136)" therefore leads to port 4864 (19 × 256), not to
    port 5000.
  - A seventh stored segment fails with an index error.
- **The `IsBinary` setter never assigns `_isBinary`.** Asking for binary
  mode therefore sends TYPE I every time.
- **A refused greeting throws the QUIT reply's text.** The greeting is
  refused when it is not 220. `CloseConnection` has overwritten `_result`
  by the time the exception is built.
- **`FtpLogin` can throw while logged in.** When the final change of
  directory fails, the session stays logged in. This always happens with
  the default path ".".
- **A failed SIZE counts as remote size 0.** So with resume on, an empty
  local file is never uploaded.
- **Drive letters.** The file name `Upload` sends with STOR comes from
  `Path.GetFileName`, which on the .NET Framework also cuts at ':'. The
  directory name of `UploadDirectory` cuts only at '/' and '\'. So for
  "C:dir" the two differ.
- **An empty listing is one empty name.** A listing with no data therefore
  blocks a rename without replace, as if the target existed.

## Model

| member | source | states |
|---|---|---|
| Text.Split | FTPClient/FTPService.cs:347 | the pieces contain no separator, there is at least one, and joining them with the separator gives back the input |
| Text.SplitLast | FTPClient/FTPService.cs:860-861 | the last piece of a split is the longest suffix without the separator |
| Text.SplitJoin | FTPClient/FTPService.cs:347 | splitting a join of separator-free pieces gives back exactly those pieces |
| Text.SplitAppend | FTPClient/FTPService.cs:347 | splitting at a separator gives the pieces of the text before it followed by the pieces of the text after it |
| Text.IndexOf | FTPClient/FTPService.cs:392-393 | -1 exactly when the character is absent; otherwise the position of its first occurrence |
| Text.Remove | FTPClient/FTPService.cs:823 | the result no longer contains the removed character and is no longer than the input |
| Text.RemoveAppend | FTPClient/FTPService.cs:823 | removing from a concatenation removes from each part and concatenates the results, so every other character is kept in order |
| Text.RemoveOne | FTPClient/FTPService.cs:823 | a single character is dropped exactly when it is the removed one and kept otherwise |
| Text.RemoveAbsent | FTPClient/FTPService.cs:823 | removing a character that does not occur leaves the text unchanged |
| Numbers.ParseInteger | FTPClient/FTPService.cs:321 | an accepted value lies within the type's range; failures are format or overflow errors; a plain digit string parses to its value or overflows; an empty one is a format error |
| Numbers.Decimal | FTPClient/FTPService.cs:536 | the printed number is a non-empty digit string whose value is the number, with no leading zero: it starts with '0' exactly when the number is 0, and then it is "0" |
| Numbers.ParseDecimal | FTPClient/FTPService.cs:321 | printing a number in range and parsing it back gives the number |
| Numbers.ParseDecimalReturn | FTPClient/FTPService.cs:632 | the same round trip holds when the reply's carriage return follows the digits |
| Numbers.ParseNegative | FTPClient/FTPService.cs:321 | a minus sign before a printed number parses to the negative value |
| Numbers.Wrap32 | FTPClient/FTPService.cs:447 | the result lies in the 32-bit range and differs from the exact value by a multiple of 2^32 |
| Replies.FirstShort | FTPClient/FTPService.cs:332-344 | the index of the first receive shorter than the buffer; every receive before it is full |
| Replies.Accumulate | FTPClient/FTPService.cs:332-344 | the decoded text of all receives up to and including the first short one, with the rest left unread; none short means the read stalls |
| Replies.SelectLine | FTPClient/FTPService.cs:347-352 | the selected line contains no line feed; the pick fails with an index error exactly when the text is longer than two characters and holds no line feed; a text of at most two characters without a line feed is taken whole |
| Replies.SelectLineOf | FTPClient/FTPService.cs:347-352 | the line picked is the one ended by the last line feed, whatever complete lines come before it |
| Replies.ReadLine | FTPClient/FTPService.cs:330-369 | only a suffix of the input is left unread, and a successful read consumes at least one receive |
| Replies.Pick | FTPClient/FTPService.cs:350-356 | the picked line is refused exactly when the selection fails or has fewer than four characters; otherwise it is terminal exactly when its fourth character is a space, and then it is the selected line, which holds no line feed; a continued line is the text to read on from |
| Replies.ReadResponse | FTPClient/FTPService.cs:317-322 | the unread receives are those the line reader leaves; the read succeeds exactly when a line was read and its first three characters parse as an `int`, and then the reply's line is that line and its code is that number |
| Replies.AsciiBytes | FTPClient/FTPService.cs:337-339 | the ASCII decoder turns the produced bytes back into the given text |
| Replies.ReadServed | FTPClient/FTPService.cs:317-369 | a one-line reply sent in one short receive is read back with its code and line, and later replies stay unread |
| Replies.ReadMultiLine | FTPClient/FTPService.cs:347-356 | a multi-line reply arriving in one receive yields the code and line of its last line, whatever the earlier lines hold |
| Replies.MultiLineExample | FTPClient/FTPService.cs:321-356 | "150-Starting\r\n150 Opening\r\n" in one receive yields code 150 from the second line |
| Replies.ContinuationNeverAccepted | FTPClient/FTPService.cs:339-356 | with one line per receive and a continuation line first, the reader stalls instead of returning the terminal line |
| Replies.SplitReplyStalls | FTPClient/FTPService.cs:339-356 | the two-line example split over two receives is never completed |
| Passive.PayloadBetween | FTPClient/FTPService.cs:392-395 | the payload is exactly the text between the parentheses, whatever precedes them |
| Passive.Scan | FTPClient/FTPService.cs:404-441 | a successful scan yields exactly six segments |
| Passive.Store | FTPClient/FTPService.cs:432 | a successful store yields exactly six segments |
| Passive.StoreSlots | FTPClient/FTPService.cs:432 | storing succeeds exactly when every piece is an `int` number and they fit the free slots; slot k then holds the matching piece's value and the others are unchanged |
| Passive.ScanByPieces | FTPClient/FTPService.cs:404-441 | the character loop matches the reference that stores the comma-terminated pieces up to the first rejected character, and then throws "Malformed PASV result" |
| Passive.DecodeSegments | FTPClient/FTPService.cs:404-441 | on digits and commas, decoding fails exactly when a stored piece is empty, too large, or there are more than six; otherwise segment k is the k-th stored piece and unfilled segments are 0 |
| Passive.RejectsBadCharacter | FTPClient/FTPService.cs:407-421 | a character that is neither digit nor comma makes decoding fail, with "Malformed PASV result" when the pieces before it were storable |
| Passive.DecodeJoined | FTPClient/FTPService.cs:422-436 | for up to six numbers followed by a final piece, the numbers fill the segments in order and the final piece is dropped |
| Passive.StoreFull | FTPClient/FTPService.cs:404-441 | numbers beyond the six slots make the store fail with an index error |
| Passive.SevenSegmentsRejected | FTPClient/FTPService.cs:404-441 | seven comma-terminated numbers are rejected with an index error, not "Malformed PASV result" |
| Passive.ExampleSegments | FTPClient/FTPService.cs:404-441 | the payload "127,0,0,1,19,136" yields the segments 127, 0, 0, 1, 19 and 0: the final 136 is never stored |
| Passive.LoopbackExample | FTPClient/FTPService.cs:392-447 | "227 Entering Passive Mode (127,0,0,1,19,136)" decodes to 127.0.0.1 and port 4864 |
| Session.Create | FTPClient/FTPService.cs:161-169 | a new service is logged out, has no socket, is not in binary mode, has status 0 and the given path and credentials |
| Session.Receive | FTPClient/FTPService.cs:317-322 | on an open socket, status and result are those of the reply read and the unread receives stay; when the code does not parse, the line read is still stored as the result and the status is kept; other read errors pass through with result and status kept; a missing socket throws and changes nothing |
| Session.Execute | FTPClient/FTPService.cs:299-310 | on an open socket, the command is appended to the trace and its reply read; otherwise the call throws and changes nothing |
| Session.Expect | FTPClient/FTPService.cs:921-928 | a failed send or read is returned as it is; a reply whose code is demanded is accepted, and any other code throws the reply text after the code; success means exactly the command was sent |
| Session.LogOut | FTPClient/FTPService.cs:1069-1082 | the socket is dropped and the session is logged out, nothing else changes |
| Session.Close | FTPClient/FTPService.cs:282-295 | QUIT is sent on an existing socket; success exactly when there was no socket or QUIT got a reply, and success leaves the session logged out without a socket |
| Session.SetBinary | FTPClient/FTPService.cs:123-143 | nothing is sent when the requested mode equals `_isBinary`; otherwise TYPE is sent and must answer 200 |
| Session.ChangeWorkingDirectory | FTPClient/FTPService.cs:900-946 | "." or "" fails before the login check; logged out fails next; otherwise the outcome is that of CWD and PWD, and success needs CWD to have answered 250 and PWD 257, with the new path the quoted part of the PWD reply; the path changes only on success |
| Session.ChangeCwds | FTPClient/FTPService.cs:921-943 | a successful change adds exactly its directory to the history of CWD commands |
| Session.ChangeTo | FTPClient/FTPService.cs:921-943 | a CWD not answered 250 throws as `Expect` does and nothing else is sent; after a 250, the outcome is that of PWD; success sent CWD then PWD, got 257, and the new path is the quoted part of the reply |
| Session.Locate | FTPClient/FTPService.cs:933-943 | success sent PWD, got 257, and the new path is the quoted part of the reply; the path changes only on success |
| Session.QuotedPath | FTPClient/FTPService.cs:943 | defined exactly when the reply holds a double quote; then it is the text after the first quote up to the next one or the end; otherwise an index error |
| Session.Connect | FTPClient/FTPService.cs:200-233 | an unreachable server throws "Couldn't connect to remote server" with the socket left unconnected; logged in exactly on success |
| Session.Greet | FTPClient/FTPService.cs:233-242 | a failed read of the greeting is returned as it is; 220 continues with USER; another code closes the connection and throws the text of the QUIT reply, and a failed close is returned as it is; the session is logged in exactly on success |
| Session.SendUser | FTPClient/FTPService.cs:244-256 | 230 logs in without PASS, 331 sends PASS, any other code logs out and throws the reply text |
| Session.SendPassword | FTPClient/FTPService.cs:256-270 | 230 or 202 logs in; any other code logs out and throws the reply text |
| Session.Login | FTPClient/FTPService.cs:190-275 | a logged-out session goes straight to the handshake; a logged-in one is closed first, and a failed close is returned without a handshake; success leaves the session logged in on an open socket, and "logged in implies connected" is preserved |
| Session.Handshake | FTPClient/FTPService.cs:200-274 | a failed handshake is returned as it is; after a successful one, the outcome is that of changing to the configured path |
| Session.Dial | FTPClient/FTPService.cs:450-463 | every attempt uses up one offer; it connects exactly when the offer accepts and the port lies in 0..65535 |
| Session.OpenData | FTPClient/FTPService.cs:376-467 | a failed PASV is returned as it is; after a 227, a reply that does not decode throws the decoder's error, and one that does is dialled; a data connection means the server's next offer accepted, and its data is the connection's |
| Session.OpenDataConnects | FTPClient/FTPService.cs:376-467 | an opened connection comes from a decodable 227 reply with a port in range, and the trace shows PASV and then the connection |
| Transfer.FileName | FTPClient/FTPService.cs:550 | the result is the longest suffix of the path without '/', '\' or ':' |
| Transfer.GetFileSize | FTPClient/FTPService.cs:614-642 | logged out throws; success means SIZE got 213 and the value is the reply text parsed as a 64-bit integer |
| Transfer.ResumeOffset | FTPClient/FTPService.cs:486-504 | without resume the offset is 0; with resume it is the SIZE result when TYPE I and SIZE succeed, and 0 when either of them threw; a read that blocks stays blocked |
| Transfer.Tail | FTPClient/FTPService.cs:563-579 | a negative offset fails the seek; otherwise the bytes from the offset on |
| Transfer.Upload | FTPClient/FTPService.cs:476-603 | logged out throws; a missing local file throws; logged in, a failed `ResumeOffset` is returned with its error and otherwise the outcome is that of `UploadFrom` at the offset found; the CWD history, path and local files are unchanged |
| Transfer.UploadFrom | FTPClient/FTPService.cs:507-524 | a missing local file throws; with resume, a local file as long as the remote one is skipped; otherwise the send starts at 0 when the local file is shorter, else at the remote size |
| Transfer.Send | FTPClient/FTPService.cs:528-579 | a failed data connection is returned as it is, otherwise the outcome is that of `SendFrom`; success sends the file from the offset on, or the whole file when REST was not answered 350 |
| Transfer.SendFrom | FTPClient/FTPService.cs:531-545 | an offset of at most 0 goes straight to STOR; a positive offset sends REST first, a failed REST is returned as it is, and a reply other than 350 makes the STOR start at 0 |
| Transfer.Store | FTPClient/FTPService.cs:549-558 | STOR of the file name is demanded to answer 125 or 150; a refusal is returned as it is, and after it the outcome is that of `UploadFinish`; success sends the file from the start position on |
| Transfer.UploadFinish | FTPClient/FTPService.cs:563-601 | success exactly when the seek is valid and the final reply is 226 or 250; the data sent is the file from the start position on |
| Transfer.WriteAt | FTPClient/FTPService.cs:740 | the bytes at the write position are replaced, the file grows only past its end, and nothing is truncated |
| Transfer.WriteChunks | FTPClient/FTPService.cs:735-748 | the receive loop never shortens the file |
| Transfer.WriteAtTwice | FTPClient/FTPService.cs:740 | two writes where the second starts where the first ended equal one write of both pieces |
| Transfer.WriteChunksDrain | FTPClient/FTPService.cs:735-748 | the loop writes the bytes received before the first empty receive, in one piece, at the start position |
| Transfer.ResumeAppends | FTPClient/FTPService.cs:688-713 | resuming at the end of the local file appends the received bytes |
| Transfer.RestartKeepsTail | FTPClient/FTPService.cs:680 | restarting at 0 over a longer local file keeps the old bytes past the new data |
| Transfer.Download | FTPClient/FTPService.cs:654-769 | logged out throws; a failed TYPE I is returned as it is; after it the outcome is that of `Fetch` on the target, created empty when missing; no local file other than the target changes; the path, login and socket are kept |
| Transfer.Prepared | FTPClient/FTPService.cs:680 | a missing target is created empty and an existing one is opened unchanged; no other file changes |
| Transfer.Fetch | FTPClient/FTPService.cs:683-713 | a failed data connection is returned as it is, otherwise the outcome is that of `FetchFrom`; on success, the data is written at the local length if resume was asked, the file is not empty and REST got 350, otherwise at 0 |
| Transfer.FetchFrom | FTPClient/FTPService.cs:688-713 | without resume or with an empty local file RETR follows directly at position 0; otherwise REST of the local length is sent, a failed REST is returned as it is, and 350 makes the data land at the end of the file, any other code at 0 |
| Transfer.Retrieve | FTPClient/FTPService.cs:715-768 | RETR must answer 150 or 125, and a refusal is returned as it is; after it the outcome is that of `Land`; success ends with status 226 or 250 and the received data written at the given position |
| Transfer.Land | FTPClient/FTPService.cs:735-766 | the received data is written at the position whatever the closing reply says, and nothing is sent; success exactly when that reply reads as 226 or 250 |
| Directory.ListingBytes | FTPClient/FTPService.cs:812-820 | the listing data is every receive up to and including the first short one |
| Directory.Listing | FTPClient/FTPService.cs:823-831 | empty when the data mentions "No such file or directory"; otherwise names without line breaks that, joined by line feeds, give the data without carriage returns |
| Directory.ListingOfNothing | FTPClient/FTPService.cs:823 | empty data is listed as one empty name |
| Directory.ListingJoin | FTPClient/FTPService.cs:823 | names without line breaks, joined by line feeds, are listed back as they were |
| Directory.ListSimple | FTPClient/FTPService.cs:778-841 | logged out throws; a failed data connection is returned as it is, otherwise the outcome is that of `Names` on its data; success used the server's next offer; a final status other than 226 gives an empty list, and 226 gives the listing of the received data |
| Directory.Names | FTPClient/FTPService.cs:793-840 | NLST must answer 150 or 125, and a refusal is returned as it is; after it the closing reply is read and a failed read passes its error on; a final status other than 226 gives an empty list, 226 the listing of the data |
| Directory.Delete | FTPClient/FTPService.cs:954-974 | logged out throws; otherwise DELE must answer 250 |
| Directory.CreateDirectory | FTPClient/FTPService.cs:1033-1063 | the login is checked before the name; "." or "" throws; otherwise MKD must answer 250 or 257 |
| Directory.Rename | FTPClient/FTPService.cs:984-1025 | logged out throws; RNFR must answer 350, any other outcome of it is returned as it is; after a 350 the outcome is that of `RenameTo`; success ends with status 250 |
| Directory.RenameTo | FTPClient/FTPService.cs:1008-1021 | with replace, the outcome is that of RNTO demanded to answer 250; without it, that of `Checked`; success ends with status 250 |
| Directory.Checked | FTPClient/FTPService.cs:1008-1021 | a failed listing check is returned as it is; after a passed one, the outcome is that of RNTO demanded to answer 250 |
| Directory.Vacant | FTPClient/FTPService.cs:1008-1012 | a non-empty listing throws "File already exists", an empty one passes, and a failed listing passes its error on |
| Directory.NothingListedBlocksRename | FTPClient/FTPService.cs:1008-1012 | a 226 listing with no data still counts as one name, so the listing check refuses the rename |
| Directory.RootName | FTPClient/FTPService.cs:860-861 | the result is the longest suffix of the path containing neither '/' nor '\' |
| Directory.RootNameIsFileName | FTPClient/FTPService.cs:860-861 | for a path without ':', the directory name created is the file name `Upload` would store under the same path |
| Directory.DriveRelativeDiffers | FTPClient/FTPService.cs:860-861 | a drive-relative path such as "C:dir" keeps its drive in the directory name, while the file name stops at the ':' |
| Directory.UploadDirectory | FTPClient/FTPService.cs:851-892 | logged out throws; otherwise the root name is listed, a failed listing is returned as it is, and the outcome is that of `Prepare`, creating the directory exactly when the listing is empty; credentials, binary flag and local files are unchanged |
| Directory.Prepare | FTPClient/FTPService.cs:864-870 | without creation the outcome is that of `Enter`; with it, MKD of the root name comes first, a failure of it is returned as it is, and then the outcome is that of `Enter` |
| Directory.Enter | FTPClient/FTPService.cs:870-891 | a failed change into the root name is returned as it is; after it the outcome is that of `Fill`; login, socket and local files are kept |
| Directory.Fill | FTPClient/FTPService.cs:873-891 | a failed file upload is returned as it is; after the files the outcome is that of `Descend`; login, socket and local files are kept |
| Directory.Descend | FTPClient/FTPService.cs:880-891 | not recursive, the outcome is that of changing to ".."; recursive, a failed subdirectory upload is returned as it is and otherwise the change to ".." follows |
| Directory.UploadFiles | FTPClient/FTPService.cs:873-877 | no files is a success that sends nothing; otherwise the first file is uploaded with resume, a failure of it is returned as it is, and then the remaining files follow; no CWD is sent |
| Directory.UploadDirs | FTPClient/FTPService.cs:884-888 | no subdirectories is a success that sends nothing; otherwise the first is uploaded, a failure of it is returned as it is, and then the remaining ones follow |
| Directory.UploadDirectoryWalk | FTPClient/FTPService.cs:864-891 | a successful upload changes into the root name, then the walks of the subdirectories when recursive, then "..", in that order |
| Directory.EnterWalk | FTPClient/FTPService.cs:870-891 | from the CWD into the directory on, the CWD history grows by the directory's walk |
| Directory.FillWalk | FTPClient/FTPService.cs:873-891 | inside the directory, the history grows by the subdirectories' walks and a final ".." |
| Directory.DescendWalk | FTPClient/FTPService.cs:880-891 | after the files, the history grows by the subdirectories' walks when recursive and a final ".." |
| Directory.UploadDirsWalk | FTPClient/FTPService.cs:884-888 | the subdirectories' walks are concatenated in order |
| Client.ApplyPreserves | FTPClient/FTPService.cs:190-275 | no modelled call (a public method, the `IsBinary` setter or the internal `LogOut`) changes the credentials, the binary flag or the offers, or shortens the trace, and "logged in implies connected" holds after every call |
| Client.RunPreserves | FTPClient/FTPService.cs:190-275 | the same holds for any sequence of calls |
| Client.BinaryAlwaysResent | FTPClient/FTPService.cs:123-143 | whatever was called before, asking for binary mode on an open connection sends TYPE I again |
| Client.LoggedOutRefused | FTPClient/FTPService.cs:479-484 | logged out, every guarded call throws "You need to log in …" and changes nothing |
| Client.CheckOrder | FTPClient/FTPService.cs:903-917 | logged out, CWD "." reports the missing name while MKD "." reports the login |
| Scenarios.RejectHeard | FTPClient/FTPService.cs:925-927 | a refused reply throws its text followed by the carriage return |
| Scenarios.ExecuteServed | FTPClient/FTPService.cs:299-310 | a command answered by a well-formed reply records the command, the code and the line, and leaves the following replies |
| Scenarios.ExpectServed | FTPClient/FTPService.cs:921-928 | a served command is accepted exactly when its code is demanded, and otherwise throws its text |
| Scenarios.UserSuffices | FTPClient/FTPService.cs:244-256 | USER answered 230 logs in and no PASS is sent |
| Scenarios.PasswordAccepted | FTPClient/FTPService.cs:256-270 | USER answered 331 sends PASS, and 230 or 202 to it logs in |
| Scenarios.UserRefused | FTPClient/FTPService.cs:244-253 | any other answer to USER logs out and throws the reply text |
| Scenarios.GreetingRefused | FTPClient/FTPService.cs:233-241 | a greeting other than 220 sends QUIT and throws the text of the QUIT reply |
| Scenarios.CloseServed | FTPClient/FTPService.cs:282-295 | QUIT on an open connection logs out and succeeds whatever the server answers |
| Scenarios.LoginThrowsLoggedIn | FTPClient/FTPService.cs:270-274 | with the path ".", the final change of directory throws while the session is logged in |
| Scenarios.QuotedBetween | FTPClient/FTPService.cs:943 | the path is the text between the first two double quotes |
| Scenarios.PwdReply | FTPClient/FTPService.cs:933-943 | a PWD reply whose text starts with a quoted path names that path |
| Scenarios.CwdServed | FTPClient/FTPService.cs:921-943 | CWD answered 250 and PWD answered 257 with a quoted path set the path to it |
| Scenarios.SizeServed | FTPClient/FTPService.cs:625-633 | SIZE answered 213 with a decimal number returns that number |
| Scenarios.SizeRefused | FTPClient/FTPService.cs:634-639 | any other answer to SIZE throws its text |
| Scenarios.ResumeServed | FTPClient/FTPService.cs:489-498 | with resume, TYPE I answered 200 and SIZE answered 213 make the remote size the offset |
| Scenarios.ResumeRefused | FTPClient/FTPService.cs:499-503 | a refused SIZE makes the offset 0 |
| Scenarios.UploadResumeServed | FTPClient/FTPService.cs:489-524 | with a served size, the upload continues from the remote size |
| Scenarios.EmptyUploadSkipped | FTPClient/FTPService.cs:499-524 | with resume and a refused SIZE, an empty local file is not sent: only TYPE I and SIZE go out |
| Scenarios.OpenDataServed | FTPClient/FTPService.cs:376-467 | PASV answered 227 with a decodable endpoint whose port is in range connects to an accepting offer, returns its data and records PASV then the connection |
| Scenarios.NamesServed | FTPClient/FTPService.cs:793-831 | NLST answered 150 and a closing 226 returns the listing of the data and sends only NLST |
| Scenarios.ListServed | FTPClient/FTPService.cs:778-841 | PASV answered 227, NLST 150 and the closing reply 226 list the data of the accepted connection; the trace shows PASV, the connection and NLST |
| Scenarios.EmptyListingBlocksRename | FTPClient/FTPService.cs:1008-1012 | a served listing with no data makes the rename check throw "File already exists" |
| Scenarios.RetrieveServed | FTPClient/FTPService.cs:715-768 | RETR answered 150 and a closing 226 succeed, write the data at the given position and send only RETR |
| Scenarios.DownloadServed | FTPClient/FTPService.cs:654-769 | in binary mode, PASV 227, RETR 150 and a closing 226 download the accepted connection's data into the target from position 0; the trace shows PASV, the connection and RETR |
| Scenarios.CwdAnswered | FTPClient/FTPService.cs:921-943 | CWD 250 and PWD 257 with a quoted path succeed, set the path and leave the session logged in with the later replies unread |
| Scenarios.EnterServed | FTPClient/FTPService.cs:870-891 | for an empty local directory, entering it with CWD and PWD answered and returning to ".." succeeds, and the path is the one the last PWD named |
| Scenarios.FillEmpty | FTPClient/FTPService.cs:873-891 | a local directory without files or subdirectories only changes back to ".." |
| Scenarios.EmptyDirectoryUploadServed | FTPClient/FTPService.cs:851-892 | an empty local directory whose listing returns no data is not created (the listing counts one name); it is entered and left, and the upload succeeds with the path the last PWD named |

## Left out

- Sockets, DNS and `IPAddress.TryParse`: replaced by a flag saying whether the server is reachable, the list of control receives, and the list of data-connection offers.
- Wall-clock deadlines (`_timeOut`) in the download and listing loops: the end of a chunk list stands for them.
- Logging, `DoVerbose` and its echo of reply lines; `Logger.cs`, `Program.cs` and `FtpException.cs`. The exception becomes the `Error` datatype.
- The public property setters other than `IsBinary` (server, port, path, credentials, timeout), which only assign a field.
- Null strings: every string is a value. The `dirName == null` checks are therefore unmodelled.
- Characters outside ASCII in commands: `Encoding.ASCII.GetBytes` would send them as '?', and the trace records the command instead.
- `long.Parse` and `int.Parse` accepting trailing NUL characters and culture-specific signs: only ASCII white space and '+'/'-' are modelled.
- Sockets left open after an exception, and the closing of data sockets: they have no observable effect on the protocol.
- `Directory.GetFiles` with a mask and `Path` character validation: the local tree is given with its files already filtered.
