/** Session cookies, internal tokens and signature envelopes: printing, parsing, and what their signatures bind.
    HMAC-SHA256 (section 2 of RFC 2104) is an arbitrary function `mac`; every claim holds for all of them.
    The text that is authenticated is a `string` of byte-sized characters. */
module SignedText {
  import opened Base
  import opened Encoding

  type Digest = d: seq<byte> | |d| == 32 witness seq(32, i => 0)
  type Mac = (seq<byte>, string) -> Digest

  datatype Error = InvalidSignature | Expired | SessionCookieError | InternalTokenError | EnvelopeError
  datatype Result<+T> = Ok(value: T) | Err(error: Error)

  const ENVELOPE_VERSION := "v1"
  const COOKIE_KIND := "session_cookie"
  const COOKIE_VERSION := "v1"
  const TOKEN_KIND := "internal_token"
  const TOKEN_VERSION := "v1"

  // ---------- Go integers ----------

  /** `now - timestamp` on int64. */
  function Age(now: int64, timestamp: int64): int64 {
    Wrap64((now as int) - timestamp)
  }

  // ---------- Authenticated messages ----------

  function EnvelopeMessage(kind: string, timestamp: int64, payload: string): string {
    ENVELOPE_VERSION + "\n" + (kind + "\n" + (PrintInt(timestamp) + "\n" + payload))
  }

  function SessionCookieMessage(encoded: string, timestamp: int64): string {
    COOKIE_KIND + "\n" + (COOKIE_VERSION + "\n" + (PrintInt(timestamp) + "\n" + encoded))
  }

  function InternalTokenMessage(encoded: string, timestamp: int64): string {
    TOKEN_KIND + "\n" + (TOKEN_VERSION + "\n" + (PrintInt(timestamp) + "\n" + encoded))
  }

  /** The authenticated texts, line by line. */
  lemma MessageLines(kind: string, payload: string, encoded: string, timestamp: int64)
    ensures EnvelopeMessage(kind, timestamp, payload) == Join(["v1", kind, PrintInt(timestamp), payload], '\n')
    ensures SessionCookieMessage(encoded, timestamp) ==
            Join(["session_cookie", "v1", PrintInt(timestamp), encoded], '\n')
    ensures InternalTokenMessage(encoded, timestamp) ==
            Join(["internal_token", "v1", PrintInt(timestamp), encoded], '\n')
  {
    hide PrintInt;
    FourLines("v1", kind, PrintInt(timestamp), payload);
    FourLines("session_cookie", "v1", PrintInt(timestamp), encoded);
    FourLines("internal_token", "v1", PrintInt(timestamp), encoded);
  }

  lemma FourLines(a: string, b: string, c: string, d: string)
    ensures Join([a, b, c, d], '\n') == a + "\n" + (b + "\n" + (c + "\n" + d))
  {
    JoinLast(d);
    JoinFirst(c, [d]);
    JoinFirst(b, [c, d]);
    JoinFirst(a, [b, c, d]);
  }

  lemma JoinLast(d: string)
    ensures Join([d], '\n') == d
  {
  }

  lemma JoinFirst(a: string, rest: seq<string>)
    requires rest != []
    ensures Join([a] + rest, '\n') == a + "\n" + Join(rest, '\n')
  {
    assert ([a] + rest)[1..] == rest;
  }

  /** The first line of a text and the text after it are determined by the text. */
  lemma {:induction false} FirstLineDetermined(a: string, x: string, b: string, y: string)
    requires '\n' !in a && '\n' !in b && a + "\n" + x == b + "\n" + y
    ensures a == b && x == y
  {
    var s, t := a + "\n" + x, b + "\n" + y;
    assert s[|a|] == '\n' && t[|b|] == '\n';
    assert forall i | 0 <= i < |a| :: s[i] == a[i];
    assert forall i | 0 <= i < |b| :: t[i] == b[i];
    assert a == s[..|a|] && b == t[..|b|];
    assert x == s[|a| + 1..] && y == t[|b| + 1..];
  }

  lemma TimestampLineDetermined(t: int64, x: string, u: int64, y: string)
    requires PrintInt(t) + "\n" + x == PrintInt(u) + "\n" + y
    ensures t == u && x == y
  {
    FirstLineDetermined(PrintInt(t), x, PrintInt(u), y);
    PrintIntInjective(t, u);
  }

  /** For kinds without a line break, an envelope message determines kind, timestamp and payload. */
  lemma EnvelopeMessageInjective(k1: string, t1: int64, p1: string, k2: string, t2: int64, p2: string)
    requires '\n' !in k1 && '\n' !in k2
    requires EnvelopeMessage(k1, t1, p1) == EnvelopeMessage(k2, t2, p2)
    ensures k1 == k2 && t1 == t2 && p1 == p2
  {
    var r1, r2 := PrintInt(t1) + "\n" + p1, PrintInt(t2) + "\n" + p2;
    FirstLineDetermined(ENVELOPE_VERSION, k1 + "\n" + r1, ENVELOPE_VERSION, k2 + "\n" + r2);
    FirstLineDetermined(k1, r1, k2, r2);
    TimestampLineDetermined(t1, p1, t2, p2);
  }

  /** A kind with a line break followed by a number collides: part of the kind reads as the timestamp. */
  lemma EnvelopeKindWithNewlineCollides(kind: string, t: int64, u: int64, payload: string)
    ensures EnvelopeMessage(kind + "\n" + PrintInt(t), u, payload)
         == EnvelopeMessage(kind, t, PrintInt(u) + "\n" + payload)
  {
    var rest := PrintInt(u) + "\n" + payload;
    assert kind + "\n" + PrintInt(t) + "\n" + rest == kind + "\n" + (PrintInt(t) + "\n" + rest);
  }

  lemma SessionCookieMessageInjective(e1: string, t1: int64, e2: string, t2: int64)
    requires SessionCookieMessage(e1, t1) == SessionCookieMessage(e2, t2)
    ensures e1 == e2 && t1 == t2
  {
    var r1, r2 := PrintInt(t1) + "\n" + e1, PrintInt(t2) + "\n" + e2;
    FirstLineDetermined(COOKIE_KIND, COOKIE_VERSION + "\n" + r1, COOKIE_KIND, COOKIE_VERSION + "\n" + r2);
    FirstLineDetermined(COOKIE_VERSION, r1, COOKIE_VERSION, r2);
    TimestampLineDetermined(t1, e1, t2, e2);
  }

  lemma InternalTokenMessageInjective(e1: string, t1: int64, e2: string, t2: int64)
    requires InternalTokenMessage(e1, t1) == InternalTokenMessage(e2, t2)
    ensures e1 == e2 && t1 == t2
  {
    var r1, r2 := PrintInt(t1) + "\n" + e1, PrintInt(t2) + "\n" + e2;
    FirstLineDetermined(TOKEN_KIND, TOKEN_VERSION + "\n" + r1, TOKEN_KIND, TOKEN_VERSION + "\n" + r2);
    FirstLineDetermined(TOKEN_VERSION, r1, TOKEN_VERSION, r2);
    TimestampLineDetermined(t1, e1, t2, e2);
  }

  /** No text is a message of two of the three forms. */
  lemma MessageFormsDisjoint(kind: string, payload: string, e1: string, e2: string, t1: int64, t2: int64, t3: int64)
    ensures EnvelopeMessage(kind, t1, payload) != SessionCookieMessage(e1, t2)
    ensures EnvelopeMessage(kind, t1, payload) != InternalTokenMessage(e2, t3)
    ensures SessionCookieMessage(e1, t2) != InternalTokenMessage(e2, t3)
  {
    assert EnvelopeMessage(kind, t1, payload)[0] == 'v';
    assert SessionCookieMessage(e1, t2)[0] == 's';
    assert InternalTokenMessage(e2, t3)[0] == 'i';
  }

  // ---------- Signatures ----------

  /** cHMACSHA256Hex: an empty secret is refused. */
  function HmacHex(mac: Mac, secret: seq<byte>, message: string): Option<string> {
    if secret == [] then None else Some(HexEncode(mac(secret, message)))
  }

  /** verifyHMACHex. */
  predicate VerifyHmacHex(mac: Mac, secret: seq<byte>, message: string, signature: string) {
    match (HexDecode(signature), HmacHex(mac, secret, message))
    case (Some(provided), Some(expectedHex)) =>
      (match HexDecode(expectedHex) case Some(expected) => expected == provided case None => false)
    case _ => false
  }

  /** A signature text is accepted exactly when it decodes to the MAC. */
  lemma VerifyHmacHexMeaning(mac: Mac, secret: seq<byte>, message: string, signature: string)
    ensures VerifyHmacHex(mac, secret, message, signature) <==>
            secret != [] && HexDecode(signature) == Some(mac(secret, message))
  {
    HexRoundTrip(mac(secret, message));
  }

  /** The signed text "version.payload.timestamp.signature" and its parts. */
  lemma FourPartsRecovered(encoded: string, timestamp: int64, signature: string)
    requires forall c | c in encoded :: IsSymbol(c)
    requires forall c | c in signature :: IsHex(c)
    ensures Split(Join(["v1", encoded, PrintInt(timestamp), signature], '.'), '.')
         == ["v1", encoded, PrintInt(timestamp), signature]
  {
    SplitJoin(["v1", encoded, PrintInt(timestamp), signature], '.');
  }

  // ---------- Session cookies ----------

  /** cSignSessionCookie. */
  function SignSessionCookie(mac: Mac, secret: seq<byte>, token: seq<byte>, timestamp: int64): Result<string> {
    var encoded := Base64Encode(Url, token);
    match HmacHex(mac, secret, SessionCookieMessage(encoded, timestamp))
    case None => Err(SessionCookieError)
    case Some(signature) => Ok(Join([COOKIE_VERSION, encoded, PrintInt(timestamp), signature], '.'))
  }

  /** cVerifySessionCookie; `maxAge` 0 means no age check. */
  function VerifySessionCookie(mac: Mac, secret: seq<byte>, signed: string, maxAge: uint64,
                               now: int64): Result<seq<byte>>
  {
    var parts := Split(signed, '.');
    if |parts| != 4 || parts[0] != COOKIE_VERSION then Err(InvalidSignature)
    else
      match ParseInt64(parts[2])
      case None => Err(InvalidSignature)
      case Some(timestamp) =>
        if maxAge > 0 && timestamp > now then Err(InvalidSignature)
        else if maxAge > 0 && Age(now, timestamp) > Wrap64(maxAge) then Err(Expired)
        else if !VerifyHmacHex(mac, secret, SessionCookieMessage(parts[1], timestamp), parts[3])
            then Err(InvalidSignature)
        else
          match Base64Decode(Url, parts[1])
          case None => Err(SessionCookieError)
          case Some(token) => Ok(token)
  }

  /** Verifying a cookie this server signed: the token comes back for every token, key and time, unless the cookie is
      from the future or too old. */
  lemma SessionCookieRoundTrip(mac: Mac, secret: seq<byte>, token: seq<byte>, timestamp: int64, maxAge: uint64,
                               now: int64)
    requires secret != []
    ensures var signed := SignSessionCookie(mac, secret, token, timestamp);
      && signed.Ok?
      && VerifySessionCookie(mac, secret, signed.value, maxAge, now) ==
           if maxAge > 0 && timestamp > now then Err(InvalidSignature)
           else if maxAge > 0 && Age(now, timestamp) > Wrap64(maxAge) then Err(Expired)
           else Ok(token)
  {
    hide Split, Join, Base64Encode, Base64Decode, PrintInt, ParseInt64, HexEncode, VerifyHmacHex;
    var encoded := Base64Encode(Url, token);
    var message := SessionCookieMessage(encoded, timestamp);
    var signature := HexEncode(mac(secret, message));
    FourPartsRecovered(encoded, timestamp, signature);
    ParsePrintInt64(timestamp);
    HexRoundTrip(mac(secret, message));
    VerifyHmacHexMeaning(mac, secret, message, signature);
    Base64RoundTrip(Url, token);
  }

  /** The timestamp is neither in the future nor too old; a limit of 0 switches the check off. */
  predicate InTime(timestamp: int64, maxAge: uint64, now: int64) {
    maxAge == 0 || (timestamp <= now && Age(now, timestamp) <= Wrap64(maxAge))
  }

  /** For every text: it is accepted as a cookie, with a token, exactly when it has the four parts, is in time, and
      carries the MAC of the message naming its own token text and timestamp. */
  lemma AcceptedCookieIff(mac: Mac, secret: seq<byte>, text: string, maxAge: uint64, now: int64, token: seq<byte>)
    ensures VerifySessionCookie(mac, secret, text, maxAge, now) == Ok(token) <==>
            var parts := Split(text, '.');
            && |parts| == 4 && parts[0] == "v1" && ParseInt64(parts[2]).Some?
            && InTime(ParseInt64(parts[2]).value, maxAge, now) && secret != []
            && HexDecode(parts[3]) == Some(mac(secret, SessionCookieMessage(parts[1], ParseInt64(parts[2]).value)))
            && Base64Decode(Url, parts[1]) == Some(token)
  {
    hide Split, Base64Decode, ParseInt64, HexDecode, HexEncode, VerifyHmacHex, Age;
    var parts := Split(text, '.');
    if |parts| == 4 && ParseInt64(parts[2]).Some? {
      VerifyHmacHexMeaning(mac, secret, SessionCookieMessage(parts[1], ParseInt64(parts[2]).value), parts[3]);
    }
  }

  // ---------- Internal tokens ----------

  datatype ParsedToken = ParsedToken(moduleId: seq<byte>, timestamp: int64, signatureHex: string)

  /** cGenerateInternalToken; `blank` says which ids consist of white space only. */
  function GenerateInternalToken(mac: Mac, blank: seq<byte> -> bool, secret: seq<byte>, moduleId: seq<byte>,
                                 timestamp: int64)
    : Result<string>
  {
    if blank(moduleId) then Err(InternalTokenError)
    else
      var encoded := Base64Encode(Url, moduleId);
      match HmacHex(mac, secret, InternalTokenMessage(encoded, timestamp))
      case None => Err(InternalTokenError)
      case Some(signature) => Ok(Join([TOKEN_VERSION, encoded, PrintInt(timestamp), signature], '.'))
  }

  /** cVerifyInternalToken: future tokens are refused even without a time to live. */
  function VerifyInternalToken(mac: Mac, secret: seq<byte>, token: string, ttl: uint64,
                               now: int64): Result<ParsedToken>
  {
    var parts := Split(token, '.');
    if |parts| != 4 || parts[0] != TOKEN_VERSION then Err(InvalidSignature)
    else
      match ParseInt64(parts[2])
      case None => Err(InvalidSignature)
      case Some(timestamp) =>
        if timestamp > now then Err(InvalidSignature)
        else if ttl > 0 && Age(now, timestamp) > Wrap64(ttl) then Err(Expired)
        else if !VerifyHmacHex(mac, secret, InternalTokenMessage(parts[1], timestamp), parts[3])
            then Err(InvalidSignature)
        else
          match Base64Decode(Url, parts[1])
          case None => Err(InternalTokenError)
          case Some(moduleId) => Ok(ParsedToken(moduleId, timestamp, parts[3]))
  }

  lemma InternalTokenRoundTrip(mac: Mac, blank: seq<byte> -> bool, secret: seq<byte>, moduleId: seq<byte>,
                               timestamp: int64, ttl: uint64, now: int64)
    requires secret != [] && !blank(moduleId)
    ensures var token := GenerateInternalToken(mac, blank, secret, moduleId, timestamp);
      var signature := HexEncode(mac(secret, InternalTokenMessage(Base64Encode(Url, moduleId), timestamp)));
      && token.Ok?
      && VerifyInternalToken(mac, secret, token.value, ttl, now) ==
           if timestamp > now then Err(InvalidSignature)
           else if ttl > 0 && Age(now, timestamp) > Wrap64(ttl) then Err(Expired)
           else Ok(ParsedToken(moduleId, timestamp, signature))
  {
    hide Split, Join, Base64Encode, Base64Decode, PrintInt, ParseInt64, HexEncode, VerifyHmacHex;
    var encoded := Base64Encode(Url, moduleId);
    var message := InternalTokenMessage(encoded, timestamp);
    var signature := HexEncode(mac(secret, message));
    FourPartsRecovered(encoded, timestamp, signature);
    ParsePrintInt64(timestamp);
    HexRoundTrip(mac(secret, message));
    VerifyHmacHexMeaning(mac, secret, message, signature);
    Base64RoundTrip(Url, moduleId);
  }

  /** For every text: it is accepted as an internal token exactly when it has the four parts, is not from the future and
      in time, and carries the MAC of the message naming its own module text and timestamp. */
  lemma AcceptedTokenIff(mac: Mac, secret: seq<byte>, text: string, ttl: uint64, now: int64, token: ParsedToken)
    ensures VerifyInternalToken(mac, secret, text, ttl, now) == Ok(token) <==>
            var parts := Split(text, '.');
            && |parts| == 4 && parts[0] == "v1" && ParseInt64(parts[2]) == Some(token.timestamp)
            && token.timestamp <= now && InTime(token.timestamp, ttl, now) && secret != []
            && HexDecode(parts[3]) == Some(mac(secret, InternalTokenMessage(parts[1], token.timestamp)))
            && Base64Decode(Url, parts[1]) == Some(token.moduleId) && parts[3] == token.signatureHex
  {
    hide Split, Base64Decode, ParseInt64, HexDecode, HexEncode, VerifyHmacHex, Age;
    var parts := Split(text, '.');
    if |parts| == 4 && ParseInt64(parts[2]).Some? {
      VerifyHmacHexMeaning(mac, secret, InternalTokenMessage(parts[1], ParseInt64(parts[2]).value), parts[3]);
    }
  }

  /** Signing fails exactly without a secret; generating a token also for a blank module id. */
  lemma SigningFailsIff(mac: Mac, blank: seq<byte> -> bool, secret: seq<byte>, bytes: seq<byte>, kind: string,
                        payload: string, timestamp: int64)
    ensures SignSessionCookie(mac, secret, bytes, timestamp).Err? <==> secret == []
    ensures GenerateInternalToken(mac, blank, secret, bytes, timestamp).Err? <==> secret == [] || blank(bytes)
    ensures SignEnvelope(mac, kind, secret, payload, timestamp).Err? <==> secret == []
  {
    hide Base64Encode, Join, HexEncode, PrintInt;
  }

  /** Cookies and internal tokens differ only in their MAC input. A text accepted as both under one secret names two
      different messages, of its own token text and timestamp, that have the same MAC. */
  lemma CookieAndTokenCollide(mac: Mac, secret: seq<byte>, text: string, maxAge: uint64, ttl: uint64, now: int64,
                              now2: int64)
    requires VerifySessionCookie(mac, secret, text, maxAge, now).Ok?
    requires VerifyInternalToken(mac, secret, text, ttl, now2).Ok?
    ensures var parts := Split(text, '.');
      && |parts| == 4 && ParseInt64(parts[2]).Some?
      && var timestamp := ParseInt64(parts[2]).value;
         var m1, m2 := SessionCookieMessage(parts[1], timestamp), InternalTokenMessage(parts[1], timestamp);
         m1 != m2 && mac(secret, m1) == mac(secret, m2)
  {
    hide Split, Base64Decode, ParseInt64, HexDecode, HexEncode, VerifyHmacHex;
    var parts := Split(text, '.');
    var timestamp := ParseInt64(parts[2]).value;
    var m1, m2 := SessionCookieMessage(parts[1], timestamp), InternalTokenMessage(parts[1], timestamp);
    VerifyHmacHexMeaning(mac, secret, m1, parts[3]);
    VerifyHmacHexMeaning(mac, secret, m2, parts[3]);
    MessageFormsDisjoint("", "", parts[1], parts[1], timestamp, timestamp, timestamp);
  }

  // ---------- Envelopes ----------

  /** cSignEnvelope. */
  function SignEnvelope(mac: Mac, kind: string, secret: seq<byte>, payload: string, timestamp: int64): Result<string> {
    match HmacHex(mac, secret, EnvelopeMessage(kind, timestamp, payload))
    case None => Err(EnvelopeError)
    case Some(signature) => Ok(Join([ENVELOPE_VERSION, "t=" + PrintInt(timestamp), "s=" + signature], ';'))
  }

  /** parseEnvelope: timestamp and nonempty signature text. */
  function ParseEnvelope(envelope: string): Option<(int64, string)> {
    var parts := Split(envelope, ';');
    if |parts| != 3 || parts[0] != ENVELOPE_VERSION || !("t=" <= parts[1]) then None
    else
      match ParseInt64(parts[1][2..])
      case None => None
      case Some(timestamp) => if "s=" <= parts[2] && parts[2] != "s=" then Some((timestamp, parts[2][2..])) else None
  }

  /** cVerifyEnvelope. */
  predicate VerifyEnvelope(mac: Mac, kind: string, secret: seq<byte>, payload: string, envelope: string,
                           maxAge: uint64, now: int64)
  {
    match ParseEnvelope(envelope)
    case None => false
    case Some((timestamp, signature)) =>
      && !(maxAge > 0 && (timestamp > now || Age(now, timestamp) > Wrap64(maxAge)))
      && VerifyHmacHex(mac, secret, EnvelopeMessage(kind, timestamp, payload), signature)
  }

  lemma EnvelopeParsesBack(timestamp: int64, digest: Digest)
    ensures ParseEnvelope(Join([ENVELOPE_VERSION, "t=" + PrintInt(timestamp), "s=" + HexEncode(digest)], ';'))
         == Some((timestamp, HexEncode(digest)))
  {
    hide PrintInt, ParseInt64, HexEncode, Split, Join;
    var parts := [ENVELOPE_VERSION, "t=" + PrintInt(timestamp), "s=" + HexEncode(digest)];
    SplitJoin(parts, ';');
    ParsePrintInt64(timestamp);
    assert parts[1][2..] == PrintInt(timestamp) && parts[2][2..] == HexEncode(digest);
  }

  /** An envelope in time verifies for a kind and payload exactly when their message has the MAC of the message signed;
      for newline-free kinds that is another message unless kind and payload are the ones signed. */
  lemma EnvelopeRoundTrip(mac: Mac, kind: string, payload: string, kind': string, payload': string, secret: seq<byte>,
                          timestamp: int64, maxAge: uint64, now: int64)
    requires secret != []
    ensures var signed := SignEnvelope(mac, kind, secret, payload, timestamp);
      var inTime := maxAge == 0 || (timestamp <= now && Age(now, timestamp) <= Wrap64(maxAge));
      var m1, m2 := EnvelopeMessage(kind, timestamp, payload), EnvelopeMessage(kind', timestamp, payload');
      && signed.Ok?
      && (VerifyEnvelope(mac, kind, secret, payload, signed.value, maxAge, now) <==> inTime)
      && (VerifyEnvelope(mac, kind', secret, payload', signed.value, maxAge, now) <==>
            inTime && mac(secret, m2) == mac(secret, m1))
      && ('\n' !in kind && '\n' !in kind' && (kind', payload') != (kind, payload) ==> m1 != m2)
  {
    hide PrintInt, ParseInt64, HexEncode, HexDecode, VerifyHmacHex, ParseEnvelope, Join;
    var m1, m2 := EnvelopeMessage(kind, timestamp, payload), EnvelopeMessage(kind', timestamp, payload');
    var signature := HexEncode(mac(secret, m1));
    EnvelopeParsesBack(timestamp, mac(secret, m1));
    HexRoundTrip(mac(secret, m1));
    VerifyHmacHexMeaning(mac, secret, m1, signature);
    VerifyHmacHexMeaning(mac, secret, m2, signature);
    if m1 == m2 && '\n' !in kind && '\n' !in kind' {
      EnvelopeMessageInjective(kind, timestamp, payload, kind', timestamp, payload');
    }
  }

  /** For every text: it is accepted as an envelope of a kind and payload exactly when it has the version, a timestamp
      in time and a signature that decodes to the MAC of the message of that kind, its own timestamp and that
      payload. */
  lemma AcceptedEnvelopeIff(mac: Mac, kind: string, secret: seq<byte>, payload: string, text: string, maxAge: uint64,
                            now: int64)
    ensures VerifyEnvelope(mac, kind, secret, payload, text, maxAge, now) <==>
            var parts := Split(text, ';');
            && |parts| == 3 && parts[0] == "v1" && "t=" <= parts[1] && "s=" < parts[2]
            && ParseInt64(parts[1][2..]).Some? && secret != []
            && var timestamp := ParseInt64(parts[1][2..]).value;
               && InTime(timestamp, maxAge, now)
               && HexDecode(parts[2][2..]) == Some(mac(secret, EnvelopeMessage(kind, timestamp, payload)))
  {
    hide Split, ParseInt64, HexDecode, HexEncode, VerifyHmacHex, Age;
    var parts := Split(text, ';');
    if |parts| == 3 && "t=" <= parts[1] && "s=" <= parts[2] && ParseInt64(parts[1][2..]).Some? {
      var timestamp := ParseInt64(parts[1][2..]).value;
      VerifyHmacHexMeaning(mac, secret, EnvelopeMessage(kind, timestamp, payload), parts[2][2..]);
    }
  }

  // ---------- Wrappers on durations ----------

  const SECOND: int := 1_000_000_000
  const MILLISECOND: int := 1_000_000

  /** VerifySessionCookieValue and VerifyEnvelope: a positive age limit is cut down to whole seconds. */
  function WholeSeconds(maxAge: int64): uint64 {
    if maxAge > 0 then (maxAge as int) / SECOND else 0
  }

  /** VerifyInternalToken: a positive limit is cut down to milliseconds but stays positive. */
  function WholeMillis(ttl: int64): uint64 {
    if ttl <= 0 then 0 else if (ttl as int) / MILLISECOND == 0 then 1 else (ttl as int) / MILLISECOND
  }

  const TWO63: int := 0x8000_0000_0000_0000

  lemma WholeUnits(age: nat, limit: nat, unit: nat)
    requires unit > 0
    ensures age > limit / unit <==> age * unit > limit
  {
    var q, r := limit / unit, limit % unit;
    assert limit == q * unit + r;
    if age > q {
      UnitsGrow(q + 1, age, unit);
      assert (q + 1) * unit == q * unit + unit;
    } else {
      UnitsGrow(age, q, unit);
    }
  }

  lemma UnitsGrow(x: nat, y: nat, unit: nat)
    requires x <= y
    ensures x * unit <= y * unit
  {
  }

  /** When a signed cookie is refused as expired, for all times and limits: the limit must be at least a second, since a
      shorter positive one is read as "no limit"; the cookie must be older than it; and the int64 age must not wrap. */
  lemma CookieExpiredIff(mac: Mac, secret: seq<byte>, token: seq<byte>, timestamp: int64, maxAge: int64, now: int64)
    requires secret != []
    ensures VerifySessionCookie(mac, secret, SignSessionCookie(mac, secret, token, timestamp).value,
                                WholeSeconds(maxAge), now) == Err(Expired)
            <==> maxAge >= SECOND && 0 <= now as int - timestamp < TWO63 && (now as int - timestamp) * SECOND > maxAge
  {
    hide VerifySessionCookie, SignSessionCookie;
    SessionCookieRoundTrip(mac, secret, token, timestamp, WholeSeconds(maxAge), now);
    if 0 <= now as int - timestamp < TWO63 && maxAge > 0 { WholeUnits(now as int - timestamp, maxAge, SECOND); }
  }

  /** When an internal token is refused as expired: a positive limit is enforced whatever its size, as one millisecond
      if it is shorter than that; the token must be older than it; and the int64 age must not wrap. */
  lemma TokenExpiredIff(mac: Mac, blank: seq<byte> -> bool, secret: seq<byte>, moduleId: seq<byte>,
                        timestamp: int64, ttl: int64, now: int64)
    requires secret != [] && !blank(moduleId)
    ensures VerifyInternalToken(mac, secret, GenerateInternalToken(mac, blank, secret, moduleId, timestamp).value,
                                WholeMillis(ttl), now) == Err(Expired)
            <==> ttl > 0 && 0 <= now as int - timestamp < TWO63
                 && (now as int - timestamp) * MILLISECOND > if ttl < MILLISECOND then MILLISECOND else ttl
  {
    hide VerifyInternalToken, GenerateInternalToken;
    InternalTokenRoundTrip(mac, blank, secret, moduleId, timestamp, WholeMillis(ttl), now);
    if 0 <= now as int - timestamp < TWO63 && ttl > 0 {
      WholeUnits(now as int - timestamp, if ttl < MILLISECOND then MILLISECOND else ttl, MILLISECOND);
    }
  }
}
