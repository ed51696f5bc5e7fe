/** The wire format of the Redis client: packages/go/redis/client.go:120-186, which speaks RESP,
    the Redis serialization protocol, with arrays of bulk strings out and one reply in. */
module Resp {
  import opened Octets
  import opened Wrappers

  const CR: byte := 13
  const LF: byte := 10
  const STAR: byte := 42
  const PLUS: byte := 43
  const MINUS: byte := 45
  const ZERO: byte := 48
  const COLON: byte := 58
  const DOLLAR: byte := 36
  const CRLF: Bytes := [CR, LF]

  /** The largest value of Go's int. */
  const MAX_INT := 0x7fff_ffff_ffff_ffff

  // ----- numbers -----

  predicate Digit(b: byte) {
    ZERO <= b < ZERO + 10
  }

  /** strconv.Itoa for lengths. */
  function Itoa(n: nat): (s: Bytes)
    ensures |s| > 0 && forall i :: 0 <= i < |s| ==> Digit(s[i])
  {
    if n < 10 then [ZERO + n] else Itoa(n / 10) + [ZERO + n % 10]
  }

  function Decimal(s: Bytes): Option<nat> {
    if s == [] then Some(0)
    else
      var last, rest := s[|s| - 1], Decimal(s[..|s| - 1]);
      if rest.None? || !Digit(last) then None else Some(rest.value * 10 + (last - ZERO))
  }

  /** strconv.Atoi: an optional sign, then digits, within the range of an int. */
  function Atoi(s: Bytes): Option<int> {
    var signed := s != [] && s[0] in {PLUS, MINUS};
    var digits := if signed then s[1..] else s;
    if digits == [] || Decimal(digits).None? then None
    else
      var v := if signed && s[0] == MINUS then -(Decimal(digits).value as int) else Decimal(digits).value;
      if -MAX_INT - 1 <= v <= MAX_INT then Some(v) else None
  }

  lemma {:induction false} DecimalOfItoa(n: nat)
    ensures Decimal(Itoa(n)) == Some(n)
  {
    if n >= 10 {
      DecimalOfItoa(n / 10);
      assert Itoa(n)[..|Itoa(n)| - 1] == Itoa(n / 10);
    } else {
      assert Itoa(n)[..0] == [];
    }
  }

  lemma {:induction false} DecimalDigits(s: Bytes)
    ensures Decimal(s).Some? ==> forall i :: 0 <= i < |s| ==> 48 <= s[i] <= 57
  {
    if s == [] {
    } else {
      DecimalDigits(s[..|s| - 1]);
    }
  }

  /** A number is an optional sign and decimal digits, within 64 bits; signs and digits count. */
  lemma AtoiMeaning(s: Bytes, n: nat)
    ensures Atoi(s).Some? ==>
              && s != [] && (forall i :: 1 <= i < |s| ==> 48 <= s[i] <= 57)
              && (48 <= s[0] <= 57 || (s[0] in {43, 45} && |s| > 1))
              && -0x8000_0000_0000_0000 <= Atoi(s).value <= 0x7fff_ffff_ffff_ffff
    ensures Atoi(Itoa(n)) == Atoi([43] + Itoa(n)) == if n <= 0x7fff_ffff_ffff_ffff then Some(n) else None
    ensures Atoi([45] + Itoa(n)) == if n <= 0x8000_0000_0000_0000 then Some(-(n as int)) else None
  {
    hide Decimal, Itoa;
    DecimalOfItoa(n);
    assert ([43] + Itoa(n))[1..] == Itoa(n) && ([45] + Itoa(n))[1..] == Itoa(n);
    if Atoi(s).Some? {
      var digits := if s[0] in {43, 45} then s[1..] else s;
      DecimalDigits(digits);
      forall i | 1 <= i < |s| ensures 48 <= s[i] <= 57 { assert s[i] == digits[|digits| - |s| + i]; }
      assert s[0] !in {43, 45} ==> s[0] == digits[0];
    }
  }

  // ----- commands -----

  function Bulk(arg: Bytes): Bytes {
    [DOLLAR] + Itoa(|arg|) + CRLF + arg + CRLF
  }

  function Bulks(args: seq<Bytes>): Bytes {
    if args == [] then [] else Bulk(args[0]) + Bulks(args[1..])
  }

  function Command(args: seq<Bytes>): Bytes {
    [STAR] + Itoa(|args|) + CRLF + Bulks(args)
  }

  /** writeCommand, up to handing the bytes to the connection. */
  method WriteCommand(args: seq<Bytes>) returns (out: Bytes)
    ensures out == Command(args)
  {
    hide Itoa, Bulks;
    out := [STAR];
    out := out + Itoa(|args|);
    out := out + CRLF;
    assert args[0..] == args;
    for i := 0 to |args|
      invariant out + Bulks(args[i..]) == Command(args)
    {
      ghost var before := out;
      out := out + [DOLLAR];
      out := out + Itoa(|args[i]|);
      out := out + CRLF;
      out := out + args[i];
      out := out + CRLF;
      BulkWritten(before, args, i);
    }
    BulkWritten(out, args, |args|);
  }

  lemma BulkWritten(before: Bytes, args: seq<Bytes>, i: nat)
    requires i <= |args|
    ensures i < |args| ==>
              before + Bulks(args[i..]) ==
              (before + [DOLLAR] + Itoa(|args[i]|) + CRLF + args[i] + CRLF) + Bulks(args[i + 1..])
    ensures i == |args| ==> before + Bulks(args[i..]) == before
  {
    hide Itoa;
    if i < |args| {
      assert args[i..][0] == args[i] && args[i..][1..] == args[i + 1..];
      assert before + Bulk(args[i]) == before + [DOLLAR] + Itoa(|args[i]|) + CRLF + args[i] + CRLF;
    }
  }

  /** The bytes on the wire: an array of bulk strings, each behind its length. */
  lemma WireBytes(args: seq<Bytes>)
    ensures Command(args) == [42] + Itoa(|args|) + [13, 10] + Bulks(args)
    ensures args != [] ==>
              Bulks(args) == [36] + Itoa(|args[0]|) + [13, 10] + args[0] + [13, 10] + Bulks(args[1..])
  {
    hide Itoa;
  }

  // ----- a decoder for commands -----

  /** The bytes before the next CR LF, and those behind it. */
  function LineOf(s: Bytes): Option<(Bytes, Bytes)> {
    if |s| < 2 then None
    else if s[..2] == CRLF then Some(([], s[2..]))
    else
      var rest := LineOf(s[1..]);
      if rest.None? then None else Some(([s[0]] + rest.value.0, rest.value.1))
  }

  /** A length behind a type byte. */
  function LengthOf(s: Bytes, kind: byte): Option<(nat, Bytes)> {
    if s == [] || s[0] != kind then None
    else
      var line := LineOf(s[1..]);
      if line.None? || line.value.0 == [] || Decimal(line.value.0).None? then None
      else Some((Decimal(line.value.0).value, line.value.1))
  }

  function DecodeBulk(s: Bytes): Option<(Bytes, Bytes)> {
    var length := LengthOf(s, DOLLAR);
    if length.None? then None
    else
      var (n, body) := length.value;
      if |body| < n + 2 || body[n..n + 2] != CRLF then None else Some((body[..n], body[n + 2..]))
  }

  function DecodeBulks(s: Bytes, n: nat): Option<(seq<Bytes>, Bytes)>
    decreases n
  {
    if n == 0 then Some(([], s))
    else
      var first := DecodeBulk(s);
      if first.None? then None
      else
        var rest := DecodeBulks(first.value.1, n - 1);
        if rest.None? then None else Some(([first.value.0] + rest.value.0, rest.value.1))
  }

  function DecodeCommand(s: Bytes): Option<(seq<Bytes>, Bytes)> {
    var length := LengthOf(s, STAR);
    if length.None? then None else DecodeBulks(length.value.1, length.value.0)
  }

  lemma {:induction false} LineEnds(line: Bytes, rest: Bytes)
    requires CR !in line
    ensures LineOf(line + CRLF + rest) == Some((line, rest))
  {
    var s := line + CRLF + rest;
    if line == [] {
      assert s[..2] == CRLF && s[2..] == rest;
    } else {
      LineEnds(line[1..], rest);
      assert s[1..] == line[1..] + CRLF + rest;
      assert s[..2] != CRLF by { assert s[..2][0] == line[0]; }
      assert [line[0]] + line[1..] == line;
    }
  }

  lemma LengthRead(kind: byte, n: nat, rest: Bytes)
    ensures LengthOf([kind] + Itoa(n) + CRLF + rest, kind) == Some((n, rest))
  {
    var s := [kind] + Itoa(n) + CRLF + rest;
    assert s[1..] == Itoa(n) + CRLF + rest;
    LineEnds(Itoa(n), rest);
    DecimalOfItoa(n);
  }

  lemma BulkRead(arg: Bytes, rest: Bytes)
    ensures DecodeBulk(Bulk(arg) + rest) == Some((arg, rest))
  {
    var body := arg + CRLF + rest;
    LengthRead(DOLLAR, |arg|, body);
    assert Bulk(arg) + rest == [DOLLAR] + Itoa(|arg|) + CRLF + body;
    assert body[|arg|..|arg| + 2] == CRLF && body[..|arg|] == arg && body[|arg| + 2..] == rest;
  }

  lemma {:induction false} BulksRead(args: seq<Bytes>, rest: Bytes)
    ensures DecodeBulks(Bulks(args) + rest, |args|) == Some((args, rest))
  {
    if args == [] {
      assert [] + rest == rest;
    } else {
      BulksRead(args[1..], rest);
      BulkRead(args[0], Bulks(args[1..]) + rest);
      assert Bulks(args) + rest == Bulk(args[0]) + (Bulks(args[1..]) + rest);
      assert [args[0]] + args[1..] == args;
    }
  }

  /** Round trip: the decoder recovers the arguments, whatever bytes they hold, and what follows. */
  lemma CommandRoundTrip(args: seq<Bytes>, rest: Bytes)
    ensures DecodeCommand(Command(args) + rest) == Some((args, rest))
  {
    LengthRead(STAR, |args|, Bulks(args) + rest);
    assert Command(args) + rest == [STAR] + Itoa(|args|) + CRLF + (Bulks(args) + rest);
    BulksRead(args, rest);
  }

  // ----- replies -----

  datatype Reply = Answer(value: Bytes) | NoValue | ServerError(message: Bytes) | Broken | Panics

  /** The bytes up to the next LF, and the position behind it. */
  function LineAt(data: Bytes, pos: nat): (r: Option<(Bytes, nat)>)
    requires pos <= |data|
    ensures r.Some? ==> pos < r.value.1 <= |data| && r.value.0 == data[pos..r.value.1 - 1]
    decreases |data| - pos
  {
    if pos == |data| then None
    else if data[pos] == LF then Some(([], pos + 1))
    else
      var rest := LineAt(data, pos + 1);
      if rest.None? then None else Some(([data[pos]] + rest.value.0, rest.value.1))
  }

  /** readLine drops one CR in front of the LF. */
  function Stripped(line: Bytes): Bytes {
    if line != [] && line[|line| - 1] == CR then line[..|line| - 1] else line
  }

  /** readResponse at `pos`: the reply and the position behind what was read. */
  function ReplyAt(data: Bytes, pos: nat): (r: (Reply, nat))
    requires pos <= |data|
    ensures pos <= r.1 <= |data|
  {
    if pos == |data| then (Broken, pos)
    else if data[pos] !in {PLUS, MINUS, COLON, DOLLAR} then (Broken, pos + 1)
    else
      var line := LineAt(data, pos + 1);
      if line.None? then (Broken, |data|)
      else
        var text, next := Stripped(line.value.0), line.value.1;
        if data[pos] == MINUS then (ServerError(text), next)
        else if data[pos] != DOLLAR then (Answer(text), next)
        else BulkAt(data, Atoi(text), next)
  }

  /** The length size + 2 is negative, or overflows to a negative one; for -2 it is the slice of the
      answer that has no length. */
  predicate BreaksClient(size: int) {
    size < -1 || size > MAX_INT - 2
  }

  /** The body of a bulk string: its size and two more bytes, which are not looked at. */
  function BulkAt(data: Bytes, size: Option<int>, pos: nat): (r: (Reply, nat))
    requires pos <= |data|
    ensures pos <= r.1 <= |data|
  {
    if size.None? then (Broken, pos)
    else
      var n := size.value;
      if n == -1 then (NoValue, pos)
      else if BreaksClient(n) then (Panics, pos)
      else if |data| - pos < n + 2 then (Broken, |data|)
      else (Answer(data[pos..pos + n]), pos + n + 2)
  }

  /** A buffered reader over the bytes of a connection. */
  class Reader {
    const data: Bytes
    var pos: nat

    constructor (data: Bytes)
      ensures this.data == data && pos == 0
    {
      this.data, pos := data, 0;
    }

    /** readLine. */
    method ReadLine() returns (line: Option<Bytes>)
      requires pos <= |data|
      modifies this`pos
      ensures var read := LineAt(data, old(pos));
              && line == (if read.None? then None else Some(Stripped(read.value.0)))
              && pos == (if read.None? then |data| else read.value.1)
    {
      hide LineAt;
      var taken: Bytes := [];
      while pos < |data|
        invariant old(pos) <= pos <= |data| && taken == data[old(pos)..pos] && LF !in taken
      {
        pos := pos + 1;
        if data[pos - 1] == LF {
          LineFound(data, old(pos), taken);
          return Some(Stripped(taken));
        }
        taken := taken + [data[pos - 1]];
      }
      NoLine(data, old(pos));
      line := None;
    }

    /** readResponse. */
    method ReadResponse() returns (r: Reply)
      requires pos <= |data|
      modifies this`pos
      ensures (r, pos) == ReplyAt(data, old(pos))
    {
      hide LineAt, Atoi, Stripped;
      if pos == |data| { return Broken; }
      var prefix := data[pos];
      pos := pos + 1;
      if prefix !in {PLUS, MINUS, COLON, DOLLAR} { return Broken; }
      var line := ReadLine();
      if line.None? { return Broken; }
      if prefix == MINUS { return ServerError(line.value); }
      if prefix != DOLLAR { return Answer(line.value); }
      var size := Atoi(line.value);
      if size.None? { return Broken; }
      if size.value == -1 { return NoValue; }
      if BreaksClient(size.value) { return Panics; }
      if |data| - pos < size.value + 2 {
        pos := |data|;
        return Broken;
      }
      var buf := data[pos..pos + size.value + 2];
      pos := pos + size.value + 2;
      assert buf[..size.value] == data[pos - size.value - 2..pos - 2];
      r := Answer(buf[..size.value]);
    }
  }

  lemma {:induction false} LineFound(data: Bytes, pos: nat, line: Bytes)
    requires pos + |line| < |data| && data[pos..pos + |line|] == line && LF !in line && data[pos + |line|] == LF
    ensures LineAt(data, pos) == Some((line, pos + |line| + 1))
    decreases |line|
  {
    if line == [] {
    } else {
      assert data[pos] == line[0] && data[pos + 1..pos + |line|] == line[1..];
      LineFound(data, pos + 1, line[1..]);
    }
  }

  lemma {:induction false} NoLine(data: Bytes, pos: nat)
    requires pos <= |data| && LF !in data[pos..]
    ensures LineAt(data, pos) == None
    decreases |data| - pos
  {
    if pos == |data| {
    } else {
      assert data[pos] == data[pos..][0];
      assert data[pos + 1..] == data[pos..][1..];
      NoLine(data, pos + 1);
    }
  }

  /** A line of a reply is read back. */
  lemma TextLine(data: Bytes, pos: nat, kind: byte, text: Bytes, rest: Bytes)
    requires pos <= |data| && data[pos..] == [kind] + text + [13, 10] + rest && LF !in text
    ensures var next := pos + |text| + 3;
            && next <= |data| && data[next..] == rest && data[pos] == kind
            && LineAt(data, pos + 1) == Some((text + [CR], next)) && Stripped(text + [CR]) == text
  {
    hide LineAt;
    var line := text + [CR];
    var tail := data[pos..];
    assert tail == [kind] + line + [10] + rest;
    assert tail[1..|line| + 1] == line && tail[|line| + 1] == LF && tail[|line| + 2..] == rest;
    assert data[pos + 1..pos + 1 + |line|] == line && data[pos + 1 + |line|] == LF && data[pos] == tail[0];
    assert LF !in line;
    LineFound(data, pos + 1, line);
  }

  /** A number line of a reply is read back. */
  lemma NumberLine(data: Bytes, pos: nat, kind: byte, n: nat, rest: Bytes)
    requires pos <= |data| && data[pos..] == [kind] + Itoa(n) + CRLF + rest && n <= MAX_INT
    ensures var next := pos + |Itoa(n)| + 3;
            && next <= |data| && data[next..] == rest && LineAt(data, pos + 1) == Some((Itoa(n) + [CR], next))
            && Stripped(Itoa(n) + [CR]) == Itoa(n) && Atoi(Itoa(n)) == Some(n)
  {
    hide Itoa, Atoi, LineAt;
    assert LF !in Itoa(n);
    TextLine(data, pos, kind, Itoa(n), rest);
    AtoiMeaning([], n);
  }

  /** Reading back a bulk string of any bytes gives them, and leaves the rest of the input. */
  lemma BulkReplyRoundTrip(data: Bytes, pos: nat, value: Bytes, rest: Bytes)
    requires pos <= |data| && |value| <= MAX_INT - 2 && data[pos..] == Bulk(value) + rest
    ensures ReplyAt(data, pos) == (Answer(value), pos + |Bulk(value)|)
    ensures data[pos + |Bulk(value)|..] == rest
  {
    hide Itoa, LineAt, Stripped, Atoi;
    var body := value + CRLF + rest;
    NumberLine(data, pos, DOLLAR, |value|, body);
    BodyParts(data, pos + |Itoa(|value|)| + 3, value, rest);
    assert data[pos] == data[pos..][0] == DOLLAR;
  }

  lemma BodyParts(data: Bytes, next: nat, value: Bytes, rest: Bytes)
    requires next <= |data| && data[next..] == value + CRLF + rest
    ensures next + |value| + 2 <= |data| && data[next..next + |value|] == value && data[next + |value| + 2..] == rest
  {
    var tail := data[next..];
    assert tail[..|value|] == value && tail[|value| + 2..] == rest;
  }

  /** Integer replies are read back as their digits. */
  lemma IntegerReplyRoundTrip(data: Bytes, pos: nat, n: nat, rest: Bytes)
    requires pos <= |data| && n <= MAX_INT && data[pos..] == [58] + Itoa(n) + [13, 10] + rest
    ensures var (r, next) := ReplyAt(data, pos);
            r == Answer(Itoa(n)) && Atoi(r.value) == Some(n) && data[next..] == rest
  {
    NumberLine(data, pos, COLON, n, rest);
    assert data[pos] == data[pos..][0] == COLON;
  }

  /** Where bulk replies break the expectations of RESP: the two bytes behind the body may be
      anything, and a size below -1 or within two of the largest int brings the client down. */
  lemma BulkReplyMeaning(data: Bytes, pos: nat)
    requires pos < |data| && data[pos] == DOLLAR
    ensures var (r, next) := ReplyAt(data, pos);
            var line := LineAt(data, pos + 1);
            && (r.Answer? <==> line.Some? && Atoi(Stripped(line.value.0)).Some? &&
                               0 <= Atoi(Stripped(line.value.0)).value <= MAX_INT - 2 &&
                               Atoi(Stripped(line.value.0)).value <= |data| - line.value.1 - 2)
            && (r.Answer? ==> |r.value| == Atoi(Stripped(line.value.0)).value && next == line.value.1 + |r.value| + 2 &&
                              r.value == data[line.value.1..next - 2])
            && (r.Panics? <==> line.Some? && Atoi(Stripped(line.value.0)).Some? &&
                               (Atoi(Stripped(line.value.0)).value < -1 ||
                                Atoi(Stripped(line.value.0)).value > MAX_INT - 2))
            && (r.NoValue? <==> line.Some? && Atoi(Stripped(line.value.0)) == Some(-1))
  {
    hide LineAt, Stripped, Atoi;
  }

  /** A status line comes back as its text, and an error line as the error. */
  lemma StatusReplies(data: Bytes, pos: nat, text: Bytes, rest: Bytes)
    requires pos <= |data| && LF !in text
    ensures data[pos..] == [43] + text + [13, 10] + rest ==> ReplyAt(data, pos) == (Answer(text), pos + |text| + 3)
    ensures data[pos..] == [45] + text + [13, 10] + rest ==> ReplyAt(data, pos) == (ServerError(text), pos + |text| + 3)
  {
    hide LineAt, Stripped, Atoi;
    if data[pos..] == [43] + text + [13, 10] + rest { TextLine(data, pos, 43, text, rest); }
    if data[pos..] == [45] + text + [13, 10] + rest { TextLine(data, pos, 45, text, rest); }
  }
}
