/** The PASV reply decoder of `OpenSocketForTransfer` (the reply of section
    4.1.2 of RFC 959, "227 Entering Passive Mode (h1,h2,h3,h4,p1,p2)"): the
    text between the first '(' and the first ')' is scanned one character at
    a time into six integer segments, which give a dotted-quad address and a
    port. */
module Passive {
  import opened Base
  import opened Text
  import opened Numbers

  const MalformedPrefix := "Malformed PASV result: "

  datatype Endpoint = Endpoint(address: string, port: int)

  /** `_result.Substring(idx1 + 1, idx2 - idx1 - 1)`, idx1 and idx2 the first
      '(' and the first ')' (-1 when absent): a negative length throws. */
  function Payload(line: string): Result<string>
  {
    var open := IndexOf(line, '(');
    var close := IndexOf(line, ')');
    if close - open - 1 < 0 then Err(OutOfRange) else Ok(line[open + 1..close])
  }

  /** Whatever comes before the parentheses, their content is the payload. */
  lemma PayloadBetween(before: string, data: string, after: string)
    requires '(' !in before && ')' !in before && '(' !in data && ')' !in data
    ensures Payload(before + "(" + data + ")" + after) == Ok(data)
  {
    var line := before + "(" + data + ")" + after;
    assert line[|before|] == '(' && line[..|before|] == before;
    assert line[|before| + 1 + |data|] == ')';
    assert line[..|before| + 1 + |data|] == before + "(" + data;
    assert IndexOf(line, '(') == |before|;
    assert IndexOf(line, ')') == |before| + 1 + |data|;
    assert line[|before| + 1..|before| + 1 + |data|] == data;
  }

  /** A payload character the scanner accepts. */
  predicate Allowed(c: char)
  {
    IsDigit(c) || c == ','
  }

  const Zeros: seq<nat> := [0, 0, 0, 0, 0, 0]

  /** The loop of OpenSocketForTransfer from position i: `digits` is the
      buffer `s`, `segments` the array `msgSegments`, `count` is `partCount`.
      A digit is buffered; any other character but a comma throws; a comma
      stores the parsed buffer (`int.Parse` runs before the store's bounds
      check). The `i + 1 == msgLength` test sits inside the comma branch, so
      the digits after the last comma are never stored. The loop guard
      `partCount <= 6` never stops the loop: the seventh store throws first. */
  function Scan(line: string, data: string, i: nat, digits: string, segments: seq<nat>, count: nat)
    : (r: Result<seq<nat>>)
    requires i <= |data| && AllDigits(digits) && |segments| == 6 && count <= 6
    ensures r.Ok? ==> |r.value| == 6
    decreases |data| - i
  {
    if i == |data| then Ok(segments)
    else if IsDigit(data[i]) then Scan(line, data, i + 1, digits + [data[i]], segments, count)
    else if data[i] != ',' then Err(Ftp(MalformedPrefix + line))
    else
      match ParseInteger(digits, Int32Min, Int32Max)
      case Err(e) => Err(e)
      case Ok(v) =>
        if count == 6 then Err(OutOfRange)
        else Scan(line, data, i + 1, "", segments[count := v], count + 1)
  }

  /** The address and port the client connects to: `seg0.seg1.seg2.seg3` and
      `(seg4 << 8) + seg5` in 32-bit `int` arithmetic. */
  function ToEndpoint(s: seq<nat>): Endpoint
    requires |s| == 6
  {
    Endpoint(Decimal(s[0]) + "." + Decimal(s[1]) + "." + Decimal(s[2]) + "." + Decimal(s[3]),
             Wrap32(Wrap32(s[4] * 256) + s[5]))
  }

  function Decode(line: string): Result<Endpoint>
  {
    var data :- Payload(line);
    var segments :- Scan(line, data, 0, "", Zeros, 0);
    Ok(ToEndpoint(segments))
  }

  // ---------------------------------------------------------------------
  // Reference: the scanner stores the comma-separated pieces but the last.

  /** Position of the first character the scanner rejects, or |data|. */
  function FirstBad(data: string): (b: nat)
    ensures b <= |data|
    ensures forall i :: 0 <= i < b ==> Allowed(data[i])
    ensures b < |data| ==> !Allowed(data[b])
    decreases |data|
  {
    if |data| == 0 || !Allowed(data[0]) then 0 else 1 + FirstBad(data[1..])
  }

  /** The pieces followed by a comma. */
  function Stored(text: string): seq<string>
  {
    var parts := Split(text, ',');
    parts[..|parts| - 1]
  }

  /** A piece `int.Parse` accepts and that fits a segment. */
  predicate Number(p: string)
  {
    |p| > 0 && AllDigits(p) && DigitsValue(p) <= Int32Max
  }

  predicate AllNumbers(pieces: seq<string>)
  {
    forall k :: 0 <= k < |pieces| ==> Number(pieces[k])
  }

  /** Storing whole pieces one after the other, from slot `count` on. */
  function Store(pieces: seq<string>, segments: seq<nat>, count: nat): (r: Result<seq<nat>>)
    requires |segments| == 6 && count <= 6
    ensures r.Ok? ==> |r.value| == 6
    decreases |pieces|
  {
    if |pieces| == 0 then Ok(segments)
    else if |pieces[0]| == 0 || !AllDigits(pieces[0]) then Err(Format)
    else if DigitsValue(pieces[0]) > Int32Max then Err(Overflow)
    else if count == 6 then Err(OutOfRange)
    else Store(pieces[1..], segments[count := DigitsValue(pieces[0])], count + 1)
  }

  function Finish(line: string, r: Result<seq<nat>>, rejected: bool): Result<seq<nat>>
  {
    if r.Ok? && rejected then Err(Ftp(MalformedPrefix + line)) else r
  }

  lemma {:induction false} SplitComma(digits: string, tail: string)
    requires ',' !in digits
    ensures Stored(digits + [','] + tail) == [digits] + Stored(tail)
  {
    SplitFirst(digits, ',', tail);
    var parts := Split(tail, ',');
    assert ([digits] + parts)[..|parts|] == [digits] + parts[..|parts| - 1];
  }

  /** The character scanner agrees with storing the comma-separated pieces:
      up to the first rejected character it stores what `Store` stores, and
      reaching a rejected character after that throws "Malformed PASV
      result". */
  lemma {:induction false} ScanByPieces(line: string, data: string, i: nat, digits: string,
                                        segments: seq<nat>, count: nat)
    requires i <= FirstBad(data) && AllDigits(digits) && |segments| == 6 && count <= 6
    ensures Scan(line, data, i, digits, segments, count)
              == Finish(line, Store(Stored(digits + data[i..FirstBad(data)]), segments, count),
                        FirstBad(data) < |data|)
    decreases FirstBad(data) - i, 2
  {
    var b := FirstBad(data);
    var text := digits + data[i..b];
    if i == b {
      assert text == digits;
      ScanAtEnd(line, data, digits, segments, count);
    } else if IsDigit(data[i]) {
      assert (digits + [data[i]]) + data[i + 1..b] == text;
      ScanByPieces(line, data, i + 1, digits + [data[i]], segments, count);
    } else {
      ScanComma(line, data, i, digits, segments, count);
    }
  }

  /** The comma step of `ScanByPieces`: the buffered digits become the next
      stored piece. */
  lemma {:induction false} ScanComma(line: string, data: string, i: nat, digits: string,
                                     segments: seq<nat>, count: nat)
    requires i < FirstBad(data) && data[i] == ',' && AllDigits(digits) && |segments| == 6 && count <= 6
    ensures Scan(line, data, i, digits, segments, count)
              == Finish(line, Store(Stored(digits + data[i..FirstBad(data)]), segments, count),
                        FirstBad(data) < |data|)
    decreases FirstBad(data) - i, 1
  {
    var b := FirstBad(data);
    var tail := data[i + 1..b];
    assert digits + data[i..b] == digits + [','] + tail;
    SplitComma(digits, tail);
    if Number(digits) && count < 6 {
      ScanCommaStores(line, data, i, digits, segments, count);
    } else {
      ScanRejects(line, data, i, digits, segments, count, Stored(tail));
    }
  }

  /** The comma step when the buffered digits are stored. */
  lemma {:induction false} ScanCommaStores(line: string, data: string, i: nat, digits: string,
                                           segments: seq<nat>, count: nat)
    requires i < FirstBad(data) && data[i] == ',' && AllDigits(digits) && |segments| == 6 && count < 6
    requires Number(digits)
    ensures Scan(line, data, i, digits, segments, count)
              == Finish(line, Store(Stored(digits + data[i..FirstBad(data)]), segments, count),
                        FirstBad(data) < |data|)
    decreases FirstBad(data) - i, 0
  {
    var b := FirstBad(data);
    var tail := data[i + 1..b];
    assert digits + data[i..b] == digits + [','] + tail;
    SplitComma(digits, tail);
    var next := segments[count := DigitsValue(digits)];
    assert Store([digits] + Stored(tail), segments, count) == Store(Stored(tail), next, count + 1) by {
      assert ([digits] + Stored(tail))[1..] == Stored(tail);
    }
    assert "" + data[i + 1..b] == tail;
    ScanStores(line, data, i, digits, segments, count);
    ScanByPieces(line, data, i + 1, "", next, count + 1);
  }

  /** A comma after a number stores it and scans on with an empty buffer. */
  lemma ScanStores(line: string, data: string, i: nat, digits: string, segments: seq<nat>, count: nat)
    requires i < |data| && data[i] == ',' && AllDigits(digits) && |segments| == 6 && count < 6
    requires Number(digits)
    ensures Scan(line, data, i, digits, segments, count)
              == Scan(line, data, i + 1, "", segments[count := DigitsValue(digits)], count + 1)
  {
  }

  /** A comma after an empty or too large buffer, or after the sixth
      segment, fails as storing the pieces does. */
  lemma ScanRejects(line: string, data: string, i: nat, digits: string, segments: seq<nat>, count: nat,
                    rest: seq<string>)
    requires i < |data| && data[i] == ',' && AllDigits(digits) && |segments| == 6 && count <= 6
    requires !(Number(digits) && count < 6)
    ensures Scan(line, data, i, digits, segments, count).Err?
    ensures Scan(line, data, i, digits, segments, count) == Store([digits] + rest, segments, count)
  {
    var parsed := ParseInteger(digits, Int32Min, Int32Max);
    var stored := Store([digits] + rest, segments, count);
    if |digits| == 0 {
      assert parsed == Err(Format) && stored == Err(Format);
    } else if DigitsValue(digits) > Int32Max {
      assert parsed == Err(Overflow) && stored == Err(Overflow);
    } else {
      assert parsed.Ok? && stored == Err(OutOfRange);
    }
  }

  lemma ScanAtEnd(line: string, data: string, digits: string, segments: seq<nat>, count: nat)
    requires AllDigits(digits) && |segments| == 6 && count <= 6
    ensures Scan(line, data, FirstBad(data), digits, segments, count)
              == Finish(line, Store(Stored(digits), segments, count), FirstBad(data) < |data|)
  {
    assert forall j :: 0 <= j < |digits| ==> digits[j] != ',';
    SplitNoSeparator(digits, ',');
    assert Stored(digits) == [];
  }

  /** What `Store` does: it succeeds exactly when every piece is a number
      within `int` and there are at most 6 - count of them, and then fills
      the slots from `count` on in order. */
  lemma {:induction false} StoreSlots(pieces: seq<string>, segments: seq<nat>, count: nat)
    requires |segments| == 6 && count <= 6
    ensures Store(pieces, segments, count).Ok? <==>
              count + |pieces| <= 6 && forall k :: 0 <= k < |pieces| ==> Number(pieces[k])
    ensures Store(pieces, segments, count).Ok? ==>
              forall k :: 0 <= k < 6 ==>
                Store(pieces, segments, count).value[k]
                  == if count <= k < count + |pieces| then DigitsValue(pieces[k - count]) else segments[k]
    decreases |pieces|
  {
    if |pieces| > 0 && Number(pieces[0]) && count < 6 {
      StoreSlots(pieces[1..], segments[count := DigitsValue(pieces[0])], count + 1);
      var r := Store(pieces, segments, count);
      if r.Ok? {
        forall k | 0 <= k < 6
          ensures r.value[k] == if count <= k < count + |pieces| then DigitsValue(pieces[k - count]) else segments[k]
        {
          if count + 1 <= k < count + |pieces| {
            assert pieces[1..][k - (count + 1)] == pieces[k - count];
          }
        }
      }
    }
  }

  /** Decoding a payload of digits and commas: it fails exactly when a
      stored piece is empty or too big for `int`, or more than six pieces
      are followed by a comma; otherwise segment k holds the k-th such piece
      and the segments nobody stored stay 0. */
  lemma DecodeSegments(line: string, data: string)
    requires forall i :: 0 <= i < |data| ==> Allowed(data[i])
    ensures var st := Stored(data);
            var r := Scan(line, data, 0, "", Zeros, 0);
            && (r.Ok? <==> |st| <= 6 && forall k :: 0 <= k < |st| ==> Number(st[k]))
            && (r.Ok? ==> forall k :: 0 <= k < 6 ==> r.value[k] == if k < |st| then DigitsValue(st[k]) else 0)
  {
    assert FirstBad(data) == |data|;
    ScanByPieces(line, data, 0, "", Zeros, 0);
    assert "" + data[0..|data|] == data;
    StoreSlots(Stored(data), Zeros, 0);
  }

  /** A character other than a digit or a comma inside the parentheses makes
      the decoder fail, and with "Malformed PASV result" whenever the pieces
      before it were fine to store. */
  lemma RejectsBadCharacter(line: string, data: string)
    requires exists i :: 0 <= i < |data| && !Allowed(data[i])
    ensures Scan(line, data, 0, "", Zeros, 0).Err?
    ensures Store(Stored(data[..FirstBad(data)]), Zeros, 0).Ok? ==>
              Scan(line, data, 0, "", Zeros, 0) == Err(Ftp(MalformedPrefix + line))
  {
    var b := FirstBad(data);
    assert b < |data|;
    ScanByPieces(line, data, 0, "", Zeros, 0);
    assert "" + data[0..b] == data[..b];
  }

  lemma DigitsNoComma(p: string)
    requires AllDigits(p)
    ensures ',' !in p
  {
    assert forall j :: 0 <= j < |p| ==> p[j] != ',';
  }

  /** Digit pieces joined by commas hold only characters the scanner accepts. */
  lemma {:induction false} JoinAllowed(parts: seq<string>)
    requires |parts| >= 1 && forall k :: 0 <= k < |parts| ==> AllDigits(parts[k])
    ensures forall i :: 0 <= i < |Join(parts, ',')| ==> Allowed(Join(parts, ',')[i])
    decreases |parts|
  {
    if |parts| > 1 {
      JoinAllowed(parts[1..]);
      var t := Join(parts[1..], ',');
      var whole := Join(parts, ',');
      assert whole == parts[0] + [','] + t;
      forall i | 0 <= i < |whole|
        ensures Allowed(whole[i])
      {
        if i > |parts[0]| {
          assert whole[i] == t[i - |parts[0]| - 1];
        }
      }
    }
  }

  /** The trailing piece is never stored: for numbers joined by commas, the
      pieces before the last fill the segments in order, the last one is
      dropped, and segments nobody filled stay 0. */
  lemma DecodeJoined(line: string, pieces: seq<string>, last: string)
    requires |pieces| <= 6 && AllDigits(last)
    requires AllNumbers(pieces)
    ensures var r := Scan(line, Join(pieces + [last], ','), 0, "", Zeros, 0);
            && r.Ok? && |r.value| == 6
            && (forall k :: 0 <= k < |pieces| ==> r.value[k] == DigitsValue(pieces[k]))
            && (forall k :: |pieces| <= k < 6 ==> r.value[k] == 0)
  {
    var parts := pieces + [last];
    var data := Join(parts, ',');
    forall k | 0 <= k < |parts|
      ensures AllDigits(parts[k]) && ',' !in parts[k]
    {
      if k < |pieces| {
        assert parts[k] == pieces[k];
      }
      DigitsNoComma(parts[k]);
    }
    JoinAllowed(parts);
    SplitJoin(parts, ',');
    assert Stored(data) == pieces;
    DecodeSegments(line, data);
  }

  /** Numbers that do not fit the six slots make the seventh store fail. */
  lemma {:induction false} StoreFull(pieces: seq<string>, segments: seq<nat>, count: nat)
    requires |segments| == 6 && count <= 6 && count + |pieces| > 6
    requires AllNumbers(pieces)
    ensures Store(pieces, segments, count) == Err(OutOfRange)
    decreases |pieces|
  {
    assert Number(pieces[0]);
    if count < 6 {
      StoreFull(pieces[1..], segments[count := DigitsValue(pieces[0])], count + 1);
    }
  }

  /** Seven numbers followed by commas overflow the six-slot array: the
      reply is rejected with an index error, not with "Malformed PASV
      result". */
  lemma SevenSegmentsRejected(line: string, pieces: seq<string>, last: string)
    requires |pieces| >= 7 && AllDigits(last)
    requires AllNumbers(pieces)
    ensures Scan(line, Join(pieces + [last], ','), 0, "", Zeros, 0) == Err(OutOfRange)
  {
    var parts := pieces + [last];
    var data := Join(parts, ',');
    forall k | 0 <= k < |parts|
      ensures AllDigits(parts[k]) && ',' !in parts[k]
    {
      if k < |pieces| {
        assert parts[k] == pieces[k];
      }
      DigitsNoComma(parts[k]);
    }
    JoinAllowed(parts);
    SplitJoin(parts, ',');
    assert Stored(data) == pieces;
    assert FirstBad(data) == |data|;
    ScanByPieces(line, data, 0, "", Zeros, 0);
    assert "" + data[0..|data|] == data;
    StoreFull(pieces, Zeros, 0);
  }

  lemma ExamplePieces(data: string)
    requires data == "127,0,0,1,19,136"
    ensures data == Join(["127", "0", "0", "1", "19"] + ["136"], ',')
  {
    var p3 := ["1", "19", "136"];
    var p2 := ["0"] + p3;
    var p1 := ["0"] + p2;
    var p0 := ["127"] + p1;
    assert Join(p3, ',') == "1,19,136" by { ExampleTail(p3); }
    assert Join(p2, ',') == "0,1,19,136" by { JoinCons("0", p3, ','); }
    assert Join(p1, ',') == "0,0,1,19,136" by { JoinCons("0", p2, ','); }
    assert Join(p0, ',') == data by { JoinCons("127", p1, ','); }
    assert ["127", "0", "0", "1", "19"] + ["136"] == p0;
  }

  lemma ExampleTail(p3: seq<string>)
    requires p3 == ["1", "19", "136"]
    ensures Join(p3, ',') == "1,19,136"
  {
    var p4 := ["19", "136"];
    JoinCons("19", ["136"], ',');
    JoinCons("1", p4, ',');
    assert p3 == ["1"] + p4;
  }

  lemma ExampleNumbers()
    ensures Number("127") && Number("0") && Number("1") && Number("19") && AllDigits("136")
    ensures DigitsValue("127") == 127 && DigitsValue("0") == 0 && DigitsValue("1") == 1
    ensures DigitsValue("19") == 19
  {
    assert "127"[..2] == "12" && "12"[..1] == "1" && "19"[..1] == "1";
  }

  lemma ExampleAddress()
    ensures Decimal(127) + "." + Decimal(0) + "." + Decimal(0) + "." + Decimal(1) == "127.0.0.1"
  {
    assert Decimal(12) == "12";
  }

  /** The reply "227 Entering Passive Mode (127,0,0,1,19,136)" leads to
      127.0.0.1 and port 19 * 256 = 4864, not 19 * 256 + 136 = 5000: the
      last segment is never stored. */
  lemma LoopbackExample(line: string)
    requires line == "227 Entering Passive Mode (127,0,0,1,19,136)"
    ensures Decode(line) == Ok(Endpoint("127.0.0.1", 4864))
  {
    var data := "127,0,0,1,19,136";
    ExamplePayload(line, data);
    var segments := ExampleSegments(line, data);
    ExampleAddress();
    assert ToEndpoint(segments) == Endpoint("127.0.0.1", 4864);
  }

  lemma ExamplePayload(line: string, data: string)
    requires line == "227 Entering Passive Mode (127,0,0,1,19,136)"
    requires data == "127,0,0,1,19,136"
    ensures Payload(line) == Ok(data)
  {
    var before := "227 Entering Passive Mode ";
    assert line == before + "(" + data + ")" + "";
    PayloadBetween(before, data, "");
  }

  lemma ExampleSegments(line: string, data: string) returns (segments: seq<nat>)
    requires data == "127,0,0,1,19,136"
    ensures segments == [127, 0, 0, 1, 19, 0]
    ensures Scan(line, data, 0, "", Zeros, 0) == Ok(segments)
  {
    ExamplePieces(data);
    ExampleNumbers();
    var pieces := ["127", "0", "0", "1", "19"];
    DecodeJoined(line, pieces, "136");
    segments := Scan(line, data, 0, "", Zeros, 0).value;
  }
}
