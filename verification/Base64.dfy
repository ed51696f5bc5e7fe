/** Base 64 with the URL alphabet and no padding (section 5 of RFC 4648), the encoding of token
    parts in packages/go/auth/service.go:349-361.  The decoder skips line breaks and does not look
    at left-over bits, like Go's. */
module Base64 {
  import opened Octets
  import opened Wrappers

  type sextet = v: int | 0 <= v < 64

  function Letter(v: sextet): char {
    if v < 26 then 'A' + (v as char)
    else if v < 52 then 'a' + ((v - 26) as char)
    else if v < 62 then '0' + ((v - 52) as char)
    else if v == 62 then '-'
    else '_'
  }

  function ValueOf(c: char): Option<sextet> {
    if 'A' <= c <= 'Z' then Some((c as int) - ('A' as int))
    else if 'a' <= c <= 'z' then Some((c as int) - ('a' as int) + 26)
    else if '0' <= c <= '9' then Some((c as int) - ('0' as int) + 52)
    else if c == '-' then Some(62)
    else if c == '_' then Some(63)
    else None
  }

  /** The values of the letters, unless there is a foreign one. */
  function Values(s: string): Option<seq<sextet>> {
    if s == "" then Some([])
    else
      var first, rest := ValueOf(s[0]), Values(s[1..]);
      if first.None? || rest.None? then None else Some([first.value] + rest.value)
  }

  function Letters(vs: seq<sextet>): (s: string)
    ensures |s| == |vs|
  {
    if vs == [] then "" else [Letter(vs[0])] + Letters(vs[1..])
  }

  function Sextets(b: Bytes): seq<sextet> {
    if b == [] then []
    else if |b| == 1 then [b[0] / 4, b[0] % 4 * 16]
    else if |b| == 2 then [b[0] / 4, b[0] % 4 * 16 + b[1] / 16, b[1] % 16 * 4]
    else [b[0] / 4, b[0] % 4 * 16 + b[1] / 16, b[1] % 16 * 4 + b[2] / 64, b[2] % 64] + Sextets(b[3..])
  }

  /** The three octets of a group, from the letters they are spread over. */
  function First(v: int, w: int): int { v * 4 + w / 16 }
  function Second(v: int, w: int): int { v % 16 * 16 + w / 4 }
  function Third(v: int, w: int): int { v % 4 * 64 + w }

  function Group(vs: seq<sextet>): Option<Bytes> {
    if vs == [] then Some([])
    else if |vs| == 1 then None
    else if |vs| == 2 then Some([First(vs[0], vs[1])])
    else if |vs| == 3 then Some([First(vs[0], vs[1]), Second(vs[1], vs[2])])
    else
      var rest := Group(vs[4..]);
      if rest.None? then None
      else Some([First(vs[0], vs[1]), Second(vs[1], vs[2]), Third(vs[2], vs[3])] + rest.value)
  }

  function Encode(b: Bytes): string {
    Letters(Sextets(b))
  }

  function WithoutBreaks(s: string): string {
    if s == "" then "" else (if s[0] in {'\r', '\n'} then "" else [s[0]]) + WithoutBreaks(s[1..])
  }

  function Decode(s: string): Option<Bytes> {
    var vs := Values(WithoutBreaks(s));
    if vs.None? then None else Group(vs.value)
  }

  lemma OctetsBack(a: byte, b: byte, c: byte)
    ensures First(a / 4, a % 4 * 16 + b / 16) == a
    ensures Second(a % 4 * 16 + b / 16, b % 16 * 4 + c / 64) == b
    ensures Third(b % 16 * 4 + c / 64, c % 64) == c
  {}

  /** Four letters give their three octets back, whatever follows them. */
  lemma GroupBack(a: byte, b: byte, c: byte, rest: seq<sextet>)
    requires Group(rest).Some?
    ensures Group([a / 4, a % 4 * 16 + b / 16, b % 16 * 4 + c / 64, c % 64] + rest) ==
            Some([a, b, c] + Group(rest).value)
  {
    hide First, Second, Third;
    OctetsBack(a, b, c);
    var vs: seq<sextet> := [a / 4, a % 4 * 16 + b / 16, b % 16 * 4 + c / 64, c % 64] + rest;
    assert vs[4..] == rest;
  }

  /** The two and three letters of a last group. */
  lemma LastGroupBack(a: byte, b: byte)
    ensures Group([a / 4, a % 4 * 16]) == Some([a])
    ensures Group([a / 4, a % 4 * 16 + b / 16, b % 16 * 4]) == Some([a, b])
  {
    hide First, Second, Third;
    OctetsBack(a, 0, 0);
    OctetsBack(a, b, 0);
  }

  lemma {:induction false} SextetsBack(b: Bytes)
    ensures Group(Sextets(b)) == Some(b)
  {
    hide Group;
    if b == [] {
      NothingBack();
    } else if |b| == 1 {
      LastGroupBack(b[0], 0);
      assert b == [b[0]];
    } else if |b| == 2 {
      LastGroupBack(b[0], b[1]);
      assert b == [b[0], b[1]];
    } else {
      SextetsBack(b[3..]);
      GroupBack(b[0], b[1], b[2], Sextets(b[3..]));
      assert b == [b[0], b[1], b[2]] + b[3..];
    }
  }

  lemma NothingBack()
    ensures Group([]) == Some([])
  {}

  lemma {:induction false} LettersBack(vs: seq<sextet>)
    ensures Values(Letters(vs)) == Some(vs) && WithoutBreaks(Letters(vs)) == Letters(vs)
    ensures '.' !in Letters(vs)
  {
    if vs == [] {
    } else {
      LettersBack(vs[1..]);
      var s := Letters(vs);
      assert s[0] == Letter(vs[0]) && s[1..] == Letters(vs[1..]);
      assert [vs[0]] + vs[1..] == vs && [s[0]] + s[1..] == s;
    }
  }

  /** Any bytes survive the encoding, and it never produces a dot. */
  lemma RoundTrip(b: Bytes)
    ensures Decode(Encode(b)) == Some(b) && '.' !in Encode(b)
  {
    SextetsBack(b);
    LettersBack(Sextets(b));
  }

  /** The alphabet of section 5 of RFC 4648. */
  lemma AlphabetMeaning(v: sextet)
    ensures v < 26 ==> Letter(v) == "ABCDEFGHIJKLMNOPQRSTUVWXYZ"[v]
    ensures 26 <= v < 52 ==> Letter(v) == "abcdefghijklmnopqrstuvwxyz"[v - 26]
    ensures v >= 52 ==> Letter(v) == "0123456789-_"[v - 52]
  {}

  /** The 24 bits of three octets are spread over four letters, most significant first; what is left
      over is filled up with zeros. */
  lemma BitsInOrder(a: byte, b: byte, c: byte)
    ensures var vs := Sextets([a, b, c]);
            |vs| == 4 && a as int * 65536 + b as int * 256 + c as int == Packed(vs[0], vs[1], vs[2], vs[3])
    ensures var vs := Sextets([a, b]);
            |vs| == 3 && a as int * 65536 + b as int * 256 == Packed(vs[0], vs[1], vs[2], 0)
    ensures var vs := Sextets([a]);
            |vs| == 2 && a as int * 65536 == Packed(vs[0], vs[1], 0, 0)
  {
    assert [a, b, c][3..] == [];
  }

  /** Four times six bits. */
  function Packed(w: int, x: int, y: int, z: int): int {
    w * 262144 + x * 4096 + y * 64 + z
  }
}
