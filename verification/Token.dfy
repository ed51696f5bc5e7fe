/** Session tokens: packages/go/auth/service.go:297-361, the compact form of section 7.1 of RFC 7515
    with the claims "exp", "iss" and "aud" of section 4.1 of RFC 7519. */
module Token {
  import opened Clock
  import opened Octets
  import opened Wrappers
  import Base64

  datatype Claims = Claims(
    subject: string,
    email: string,
    role: string,
    approved: bool,
    issuer: string,
    audience: string,
    expires: int)

  /** The key, the JSON codec and the configuration of a service.  `mac` is the keyed hash. */
  datatype Signer = Signer(
    header: Bytes,
    marshal: Claims -> Bytes,
    unmarshal: Bytes -> Option<Claims>,
    mac: string -> Bytes,
    issuer: string,
    audience: string,
    ttl: int)

  /** Time.Unix. */
  function Unix(t: int): int {
    t / SECOND
  }

  function Signature(s: Signer, unsigned: string): string {
    Base64.Encode(s.mac(unsigned))
  }

  /** signToken. */
  function Sign(s: Signer, c: Claims): string {
    var unsigned := Base64.Encode(s.header) + "." + Base64.Encode(s.marshal(c));
    unsigned + "." + Signature(s, unsigned)
  }

  /** The claims of a session that begins at `now`. */
  function ClaimsOf(s: Signer, subject: string, email: string, role: string, approved: bool, now: int): Claims {
    Claims(subject, email, role, approved, s.issuer, s.audience, Unix(now + s.ttl))
  }

  /** strings.Split at dots. */
  function Split(s: string): (parts: seq<string>)
    ensures |parts| > 0
  {
    if s == "" then [""]
    else
      var rest := Split(s[1..]);
      if s[0] == '.' then [""] + rest else [[s[0]] + rest[0]] + rest[1..]
  }

  /** verifyToken. */
  function Verify(s: Signer, token: string, now: int): Option<Claims> {
    var parts := Split(token);
    if |parts| != 3 then None
    else if Signature(s, parts[0] + "." + parts[1]) != parts[2] then None
    else
      var payload := Base64.Decode(parts[1]);
      if payload.None? then None
      else
        var claims := s.unmarshal(payload.value);
        if claims.None? || claims.value.expires <= Unix(now) then None
        else if claims.value.issuer != s.issuer || claims.value.audience != s.audience then None
        else claims
  }

  lemma {:induction false} SplitPart(part: string, rest: string)
    requires '.' !in part
    ensures Split(part + "." + rest) == [part] + Split(rest)
    ensures Split(part) == [part]
  {
    var s := part + "." + rest;
    if part == "" {
      assert s[1..] == rest;
    } else {
      SplitPart(part[1..], rest);
      assert s[1..] == part[1..] + "." + rest;
      assert [part[0]] + part[1..] == part;
    }
  }

  /** A token gives its claims back exactly while the clock is short of its expiry. */
  lemma TokenRoundTrip(s: Signer, c: Claims, now: int)
    requires s.unmarshal(s.marshal(c)) == Some(c) && c.issuer == s.issuer && c.audience == s.audience
    ensures Verify(s, Sign(s, c), now) == if now < c.expires * SECOND then Some(c) else None
  {
    var header, payload := Base64.Encode(s.header), Base64.Encode(s.marshal(c));
    var signature := Signature(s, header + "." + payload);
    Base64.RoundTrip(s.header);
    Base64.RoundTrip(s.marshal(c));
    Base64.RoundTrip(s.mac(header + "." + payload));
    hide Base64.Encode, Base64.Decode, Split;
    SplitPart(header, payload + "." + signature);
    SplitPart(payload, signature);
    SplitPart(signature, "");
    assert Sign(s, c) == header + "." + (payload + "." + signature);
    assert Split(Sign(s, c)) == [header, payload, signature];
    assert c.expires <= Unix(now) <==> c.expires * SECOND <= now;
  }

  /** A session lasts from its signing to the last whole second of its time to live. */
  lemma SessionLasts(s: Signer, subject: string, email: string, role: string, approved: bool, signedAt: int, now: int)
    requires var c := ClaimsOf(s, subject, email, role, approved, signedAt);
             s.unmarshal(s.marshal(c)) == Some(c)
    ensures var c := ClaimsOf(s, subject, email, role, approved, signedAt);
            && c.subject == subject && c.email == email && c.role == role && c.approved == approved
            && (Verify(s, Sign(s, c), now) == Some(c) <==> now < c.expires * SECOND)
            && signedAt + s.ttl - SECOND < c.expires * SECOND <= signedAt + s.ttl
  {
    hide Sign, Verify;
    TokenRoundTrip(s, ClaimsOf(s, subject, email, role, approved, signedAt), now);
  }

  /** Nothing is accepted but three parts, the third of which signs the first two, that carry live
      claims of this issuer and audience. */
  lemma AcceptedMeaning(s: Signer, token: string, now: int)
    requires Verify(s, token, now).Some?
    ensures exists header, payload, signature ::
              && Split(token) == [header, payload, signature]
              && token == header + "." + payload + "." + signature
              && signature == Signature(s, header + "." + payload)
              && Base64.Decode(payload).Some?
              && s.unmarshal(Base64.Decode(payload).value) == Verify(s, token, now)
    ensures var c := Verify(s, token, now).value;
            now < c.expires * SECOND && c.issuer == s.issuer && c.audience == s.audience
  {
    var parts := Split(token);
    hide Split, Base64.Decode, Base64.Encode;
    SplitJoins(token);
    assert parts == [parts[0], parts[1], parts[2]];
    assert parts[1..] == [parts[1], parts[2]] && parts[1..][1..] == [parts[2]];
    assert Joined(parts[1..]) == parts[1] + ("." + parts[2]);
    assert token == parts[0] + ("." + (parts[1] + ("." + parts[2])));
    assert token == parts[0] + "." + parts[1] + "." + parts[2];
  }

  function Joined(parts: seq<string>): string
    requires parts != []
  {
    if |parts| == 1 then parts[0] else parts[0] + ("." + Joined(parts[1..]))
  }

  lemma {:induction false} SplitJoins(s: string)
    ensures Joined(Split(s)) == s
  {
    if s == "" {
    } else {
      SplitJoins(s[1..]);
      var parts, rest := Split(s), Split(s[1..]);
      assert s == [s[0]] + s[1..];
      if s[0] == '.' {
        assert parts[1..] == rest;
      } else {
        assert parts[1..] == rest[1..];
      }
    }
  }
}
