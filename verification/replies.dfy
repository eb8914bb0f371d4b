/** The control-connection reply reader of `FtpService` (ParseHostResponse and
    ReadResponse): chunks are accumulated up to the first short receive, one
    line is picked out of the text, and that line is accepted only when its
    fourth character is a space (the terminal-line form of section 4.2 of
    RFC 959); otherwise the reader reads again, appending to the picked line. */
module Replies {
  import opened Base
  import opened Text
  import opened Numbers

  /** A line the reader accepts: a space at index 3. */
  type Line = s: string | |s| >= 4 && s[3] == ' ' witness "000 "

  datatype Reply = Reply(code: int, line: Line) {

    /** `_result.Substring(4)`: the reply text after the code and its separator. */
    function Message(): string
    {
      line[4..]
    }
  }

  /** The outcome of a read together with the chunks it left unread. */
  datatype Received<+T> = Received(result: Result<T>, rest: seq<Chunk>)

  /** Index of the first receive shorter than the buffer, or -1. */
  function FirstShort(chunks: seq<Chunk>): (k: int)
    ensures -1 <= k < |chunks|
    ensures k >= 0 ==> |chunks[k]| < BufferSize
    ensures forall i :: 0 <= i < |chunks| && (k < 0 || i < k) ==> |chunks[i]| == BufferSize
    decreases |chunks|
  {
    if |chunks| == 0 then -1
    else if |chunks[0]| < BufferSize then 0
    else
      var k := FirstShort(chunks[1..]);
      if k < 0 then -1 else k + 1
  }

  /** The receive loop of ParseHostResponse: append each chunk to `acc` and
      stop after the first one shorter than the buffer. */
  function Accumulate(acc: string, chunks: seq<Chunk>): (r: Received<string>)
    ensures FirstShort(chunks) < 0 ==> r == Received(Err(Stalled), [])
    ensures FirstShort(chunks) >= 0 ==>
              var k := FirstShort(chunks);
              r == Received(Ok(acc + Ascii(Flatten(chunks[..k + 1]))), chunks[k + 1..])
    decreases |chunks|
  {
    if |chunks| == 0 then Received(Err(Stalled), [])
    else
      var text := acc + Ascii(chunks[0]);
      if |chunks[0]| < BufferSize then
        assert chunks[..1] == [chunks[0]];
        assert Flatten(chunks[..1]) == chunks[0] + Flatten([]);
        assert chunks[0] + Flatten([]) == chunks[0];
        Received(Ok(text), chunks[1..])
      else
        var r := Accumulate(text, chunks[1..]);
        var k := FirstShort(chunks);
        if k >= 0 then
          assert FirstShort(chunks[1..]) == k - 1;
          assert r == Received(Ok(text + Ascii(Flatten(chunks[1..][..k]))), chunks[1..][k..]);
          assert chunks[..k + 1] == [chunks[0]] + chunks[1..][..k];
          assert chunks[1..][k..] == chunks[k + 1..];
          assert ([chunks[0]] + chunks[1..][..k])[1..] == chunks[1..][..k];
          assert Flatten(chunks[..k + 1]) == chunks[0] + Flatten(chunks[1..][..k]);
          AsciiAppend(chunks[0], Flatten(chunks[1..][..k]));
          assert acc + Ascii(Flatten(chunks[..k + 1])) == text + Ascii(Flatten(chunks[1..][..k]));
          r
        else r
  }

  /** The line ParseHostResponse picks: the second-to-last piece when more
      than two characters arrived, otherwise the first (`msg[msg.Length - 2]`
      throws when the text holds no line feed). */
  function SelectLine(text: string): (r: Result<string>)
    ensures r.Ok? ==> '\n' !in r.value
    ensures r.Err? <==> '\n' !in text && |text| > 2
    ensures r.Err? ==> r.error == OutOfRange
    ensures '\n' !in text && |text| <= 2 ==> r == Ok(text)
  {
    var pieces := Split(text, '\n');
    SplitCount(text, '\n');
    if |text| <= 2 then Ok(pieces[0])
    else if |pieces| < 2 then Err(OutOfRange)
    else Ok(pieces[|pieces| - 2])
  }

  /** A separator in the text makes at least two pieces; without one the
      text is its only piece. */
  lemma SplitCount(s: string, sep: char)
    ensures sep in s ==> |Split(s, sep)| >= 2
    ensures sep !in s ==> Split(s, sep) == [s]
  {
    if sep in s {
      var k := IndexOf(s, sep);
      assert s == s[..k] + [sep] + s[k + 1..];
      SplitAppend(s[..k], sep, s[k + 1..]);
    } else {
      SplitNoSeparator(s, sep);
    }
  }

  /** The line picked is the one ended by the last line feed, whatever
      lines come before it. */
  lemma SelectLineOf(before: string, line: string, after: string)
    requires '\n' !in line && '\n' !in after
    requires before == "" || before[|before| - 1] == '\n'
    ensures SelectLine(before + line + "\n" + after) == Ok(line)
  {
    var text := before + line + "\n" + after;
    if before == "" {
      LastTwoPieces(line, after);
      assert text == line + ['\n'] + after;
    } else {
      var b := before[..|before| - 1];
      LastTwoPieces(line, after);
      assert text == b + ['\n'] + (line + ['\n'] + after);
      SplitAppend(b, '\n', line + ['\n'] + after);
      assert |Split(text, '\n')| >= 3;
      if |text| <= 2 {
        assert |b| == 0;
      }
    }
  }

  lemma LastTwoPieces(line: string, after: string)
    requires '\n' !in line && '\n' !in after
    ensures Split(line + ['\n'] + after, '\n') == [line, after]
  {
    SplitNoSeparator(line, '\n');
    SplitNoSeparator(after, '\n');
    SplitAppend(line, '\n', after);
  }

  /** ParseHostResponse with `prefix` the current `_statusMessage`: a picked
      line whose fourth character is not a space becomes the prefix of the
      next read. */
  function ReadLine(prefix: string, chunks: seq<Chunk>): (r: Received<Line>)
    ensures Suffix(r.rest, chunks)
    ensures r.result.Ok? ==> |r.rest| < |chunks|
    decreases |chunks|
  {
    var a := Accumulate(prefix, chunks);
    if a.result.Err? then Received(Err(a.result.error), a.rest)
    else
      match Pick(a.result.value)
      case Err(e) => Received(Err(e), a.rest)
      case Ok(Terminal(line)) => Received(Ok(line), a.rest)
      case Ok(Continued(line)) =>
        var r := ReadLine(line, a.rest);
        SuffixOfSuffix(chunks, a.rest, r.rest);
        r
  }

  /** A suffix of a suffix is a suffix of the whole. */
  lemma SuffixOfSuffix<T>(s: seq<T>, a: seq<T>, b: seq<T>)
    requires Suffix(a, s) && Suffix(b, a)
    ensures Suffix(b, s)
  {
    assert a[|a| - |b|..] == s[|s| - |b|..];
  }

  /** What the reader makes of one accumulated text: the terminal line, or a
      line to carry into the next read. */
  datatype Picked = Terminal(line: Line) | Continued(partial: string)

  /** The line picked out of the accumulated text, accepted when its fourth
      character is a space and otherwise the prefix of the next read. */
  function Pick(text: string): (p: Result<Picked>)
    ensures p.Ok? <==> SelectLine(text).Ok? && |SelectLine(text).value| >= 4
    ensures p.Ok? ==> (p.value.Terminal? <==> SelectLine(text).value[3] == ' ')
    ensures p.Ok? && p.value.Terminal? ==> p.value.line == SelectLine(text).value && '\n' !in p.value.line
    ensures p.Ok? && p.value.Continued? ==> p.value.partial == SelectLine(text).value
  {
    match SelectLine(text)
    case Err(e) => Err(e)
    case Ok(line) =>
      if |line| < 4 then Err(OutOfRange)  // Substring(3, 1)
      else if line[3] != ' ' then Ok(Continued(line))
      else Ok(Terminal(line))
  }

  /** ReadResponse: read a line, then parse its first three characters as the
      status code with `int.Parse`. */
  function ReadResponse(chunks: seq<Chunk>): (r: Received<Reply>)
    ensures Suffix(r.rest, chunks)
    ensures r.result.Ok? ==> |r.rest| < |chunks|
    ensures var l := ReadLine("", chunks);
            && r.rest == l.rest
            && (r.result.Ok? <==> l.result.Ok? && ParseInteger(l.result.value[..3], Int32Min, Int32Max).Ok?)
            && (r.result.Ok? ==>
                  && r.result.value.line == l.result.value
                  && ParseInteger(r.result.value.line[..3], Int32Min, Int32Max) == Ok(r.result.value.code))
  {
    var l := ReadLine("", chunks);
    match l.result
    case Err(e) => Received(Err(e), l.rest)
    case Ok(line) =>
      match ParseInteger(line[..3], Int32Min, Int32Max)
      case Err(e) => Received(Err(e), l.rest)
      case Ok(code) => Received(Ok(Reply(code, line)), l.rest)
  }

  // ---------------------------------------------------------------------
  // Scripted replies: a server that writes each reply in one short send.

  predicate IsAscii(s: string)
  {
    forall i :: 0 <= i < |s| ==> s[i] < 0x80 as char
  }

  /** The byte `Encoding.ASCII` decodes as `c`. */
  function AsciiByte(c: char): (b: Byte)
    requires c < 0x80 as char
    ensures AsciiChar(b) == c
  {
    (c as int) as Byte
  }

  /** The bytes `Encoding.ASCII` turns into `s`. */
  function AsciiBytes(s: string): (b: seq<Byte>)
    requires IsAscii(s)
    ensures Ascii(b) == s
  {
    var b := seq(|s|, i requires 0 <= i < |s| && IsAscii(s) => AsciiByte(s[i]));
    assert forall i :: 0 <= i < |s| ==> Ascii(b)[i] == s[i];
    b
  }

  /** A one-line reply a server sends: a three-digit code and a text. */
  datatype ServerReply = ServerReply(code: nat, text: string)

  predicate WellFormed(r: ServerReply)
  {
    100 <= r.code <= 999 && |r.text| <= 500 && IsAscii(r.text) && '\n' !in r.text
  }

  lemma DecimalThreeDigits(n: nat)
    requires 100 <= n <= 999
    ensures |Decimal(n)| == 3 && Decimal(n)[0] != '-' && Decimal(n)[0] != '+'
  {
    assert Decimal(n) == Decimal(n / 10) + [((n % 10) + ('0' as int)) as char];
    assert Decimal(n / 10) == Decimal(n / 100) + [(((n / 10) % 10) + ('0' as int)) as char];
  }

  /** The reply line as the reader returns it: "ddd text" with the CR kept. */
  function LineOf(r: ServerReply): (line: Line)
    requires WellFormed(r)
    ensures '\n' !in line && IsAscii(line) && |line| <= 506
    ensures line[..3] == Decimal(r.code) && line[4..] == r.text + "\r"
  {
    DecimalThreeDigits(r.code);
    var line := Decimal(r.code) + " " + r.text + "\r";
    assert line[..3] == Decimal(r.code);
    line
  }

  function Render(r: ServerReply): Chunk
    requires WellFormed(r)
  {
    AsciiBytes(LineOf(r) + "\n")
  }

  /** The control stream of a server answering with `rs`, one reply per send. */
  function Serve(rs: seq<ServerReply>): seq<Chunk>
    requires forall i :: 0 <= i < |rs| ==> WellFormed(rs[i])
  {
    seq(|rs|, i requires 0 <= i < |rs| => Render(rs[i]))
  }

  /** Rendering a reply and reading it back gives its code and line, and
      leaves the following replies unread. */
  lemma ReadServed(rs: seq<ServerReply>)
    requires |rs| >= 1 && forall i :: 0 <= i < |rs| ==> WellFormed(rs[i])
    ensures ReadResponse(Serve(rs)) == Received(Ok(Reply(rs[0].code, LineOf(rs[0]))), Serve(rs[1..]))
  {
    var line := LineOf(rs[0]);
    var parts: seq<string> := [] + [line, ""];
    assert parts[1..] == [""];
    assert Join(parts, '\n') == line + "\n";
    assert Serve(rs) == [AsciiBytes(Join(parts, '\n'))] + Serve(rs[1..]);
    ReadMultiLine([], rs[0], Serve(rs[1..]));
  }

  /** A multi-line reply that arrives in one short send: whatever the earlier
      lines hold, the last line decides the code. */
  lemma {:induction false} ReadMultiLine(lines: seq<string>, r: ServerReply, rest: seq<Chunk>)
    requires forall i :: 0 <= i < |lines| ==> '\n' !in lines[i] && IsAscii(lines[i])
    requires WellFormed(r)
    requires IsAscii(Join(lines + [LineOf(r), ""], '\n'))
    requires |Join(lines + [LineOf(r), ""], '\n')| < BufferSize
    ensures var text := Join(lines + [LineOf(r), ""], '\n');
            ReadResponse([AsciiBytes(text)] + rest)
              == Received(Ok(Reply(r.code, LineOf(r))), rest)
  {
    var parts := lines + [LineOf(r), ""];
    var text := Join(parts, '\n');
    var chunks: seq<Chunk> := [AsciiBytes(text)] + rest;
    assert FirstShort(chunks) == 0;
    assert chunks[..1] == [AsciiBytes(text)];
    assert Flatten([AsciiBytes(text)]) == AsciiBytes(text) + Flatten([]);
    assert chunks[1..] == rest;
    forall i | 0 <= i < |parts|
      ensures '\n' !in parts[i]
    {
      if i < |lines| {
        assert parts[i] == lines[i];
      }
    }
    SplitJoin(parts, '\n');
    assert |text| >= |LineOf(r)| by {
      JoinLength(parts, '\n', |lines|);
    }
    assert chunks[0] == AsciiBytes(text);
    assert "" + Ascii(chunks[0]) == text;
    assert Accumulate("", chunks) == Received(Ok(text), rest);
    assert SelectLine(text) == Ok(LineOf(r));
    assert ReadLine("", chunks) == Received(Ok(LineOf(r)), rest);
    DecimalThreeDigits(r.code);
    ParseDecimal(r.code, Int32Min, Int32Max);
  }

  lemma {:induction false} JoinLength(parts: seq<string>, sep: char, k: nat)
    requires |parts| >= 1 && k < |parts|
    ensures |Join(parts, sep)| >= |parts[k]|
    decreases |parts|
  {
    if |parts| > 1 && k > 0 {
      JoinLength(parts[1..], sep, k - 1);
    }
  }

  lemma Decimal150()
    ensures Decimal(150) == "150"
  {
    assert Decimal(1) == "1";
    assert Decimal(15) == Decimal(1) + "5";
    assert Decimal(150) == Decimal(15) + "0";
  }

  lemma JoinExample()
    ensures Join(["150-Starting\r", "150 Opening\r", ""], '\n') == "150-Starting\r\n150 Opening\r\n"
  {
    var parts := ["150-Starting\r", "150 Opening\r", ""];
    assert Join(parts[2..], '\n') == "";
    assert Join(parts[1..], '\n') == "150 Opening\r\n";
  }

  lemma MultiLineText(text: string, first: string)
    requires text == "150-Starting\r\n150 Opening\r\n" && first == "150-Starting\r"
    ensures IsAscii(text) && |text| < BufferSize
    ensures IsAscii(first) && '\n' !in first
    ensures Join([first] + ["150 Opening\r", ""], '\n') == text
  {
    JoinExample();
    assert [first] + ["150 Opening\r", ""] == ["150-Starting\r", "150 Opening\r", ""];
  }

  lemma ExampleReply(r: ServerReply)
    requires r == ServerReply(150, "Opening")
    ensures WellFormed(r) && LineOf(r) == "150 Opening\r"
  {
    Decimal150();
  }

  /** The multi-line example of section 4.2 of RFC 959 as the client sees it
      when it arrives in one read: code 150, from the second line. */
  lemma MultiLineExample(text: string)
    requires text == "150-Starting\r\n150 Opening\r\n"
    ensures IsAscii(text)
    ensures ReadResponse([AsciiBytes(text)]).result == Ok(Reply(150, "150 Opening\r"))
  {
    var r := ServerReply(150, "Opening");
    ExampleReply(r);
    var first := "150-Starting\r";
    MultiLineText(text, first);
    var rest: seq<Chunk> := [];
    ReadMultiLine([first], r, rest);
    assert [AsciiBytes(text)] + rest == [AsciiBytes(text)];
  }

  /** One text line per short receive. */
  predicate OneLine(c: Chunk)
  {
    0 < |c| < BufferSize && Ascii(c)[|c| - 1] == '\n' && '\n' !in Ascii(c)[..|c| - 1]
  }

  /** The text of a one-line receive without its line feed. */
  function Body(c: Chunk): string
    requires OneLine(c)
  {
    Ascii(c)[..|c| - 1]
  }

  /** The re-read keeps the picked continuation line and appends the new data
      to it, so when the server sends one line per receive and the first line
      read is a continuation line, every later pick starts with that line and
      is never accepted: the reader runs out of data instead of returning the
      terminal line. */
  lemma {:induction false} ContinuationNeverAccepted(prefix: string, chunks: seq<Chunk>)
    requires '\n' !in prefix
    requires forall i :: 0 <= i < |chunks| ==> OneLine(chunks[i])
    requires |chunks| > 0 ==> |prefix + Body(chunks[0])| >= 4 && (prefix + Body(chunks[0]))[3] != ' '
    ensures ReadLine(prefix, chunks).result == Err(Stalled)
    decreases |chunks|
  {
    if |chunks| > 0 {
      var c := chunks[0];
      var m := Body(c);
      assert FirstShort(chunks) == 0;
      assert chunks[..1] == [c];
      assert Flatten([c]) == c + Flatten([]);
      assert Ascii(c) == m + "\n";
      var text := prefix + Ascii(c);
      assert text == (prefix + m) + ['\n'] + "";
      SplitFirst(prefix + m, '\n', "");
      assert Split(text, '\n') == [prefix + m, ""];
      if |chunks| > 1 {
        assert (prefix + m + Body(chunks[1]))[3] == (prefix + m)[3];
      }
      ContinuationNeverAccepted(prefix + m, chunks[1..]);
    }
  }

  /** The same example split over two receives never completes. */
  lemma SplitReplyStalls(first: string, second: string)
    requires first == "150-Starting\r\n" && second == "150 Opening\r\n"
    ensures IsAscii(first) && IsAscii(second)
    ensures ReadResponse([AsciiBytes(first), AsciiBytes(second)]).result == Err(Stalled)
  {
    var a := AsciiBytes(first);
    var b := AsciiBytes(second);
    assert Ascii(a) == first && Ascii(b) == second;
    assert OneLine(a) && OneLine(b);
    assert Body(a)[3] == '-';
    ContinuationNeverAccepted("", [a, b]);
    assert "" + Body(a) == Body(a);
  }
}
