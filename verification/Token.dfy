/** Session tokens, `TokenCodec` of `src/session.rs`: four colon-separated fields,
    the last of which authenticates the other three. The MAC is any function from
    the signed text to bytes; a keyed HMAC (RFC 2104) is one. */
module Token {
  import opened Prelude
  import opened Text

  type Mac = string -> seq<byte>

  datatype Claims = Claims(payer: string, expiresAt: nat, sessionId: string)

  datatype Rejection = Malformed | Expired | Unknown | WrongPolicy | QuotaExhausted | Backend

  function SignedPart(payer: string, expires: string, sessionId: string): string {
    Join([payer, expires, sessionId], ":")
  }

  function Mint(mac: Mac, payer: string, expiresAt: nat, sessionId: string): string {
    var signedPart := SignedPart(payer, Decimal(expiresAt), sessionId);
    signedPart + ":" + HexEncode(mac(signedPart))
  }

  function Verify(mac: Mac, token: string, now: nat): Result<Claims, Rejection> {
    var parts := Split(Trim(token), ':');
    if |parts| != 4 then Err(Malformed)
    else
      var presented := HexDecode(parts[3]);
      if presented.None? then Err(Malformed)
      else if mac(SignedPart(parts[0], parts[1], parts[2])) != presented.value then Err(Malformed)
      else
        match ParseUnsigned(parts[1], U64_MAX)
        case None => Err(Malformed)
        case Some(expiresAt) =>
          if now >= expiresAt then Err(Expired)
          else Ok(Claims(parts[0], expiresAt, parts[2]))
  }

  // ----------------------------------------------------------------- four fields

  function Fields(payer: string, expires: string, sessionId: string, macHex: string): string {
    SignedPart(payer, expires, sessionId) + ":" + macHex
  }

  lemma FieldsAreJoined(payer: string, expires: string, sessionId: string, macHex: string)
    ensures Fields(payer, expires, sessionId, macHex)
            == Join([payer, expires, sessionId, macHex], ":")
            == payer + ":" + expires + ":" + sessionId + ":" + macHex
    ensures SignedPart(payer, expires, sessionId) == payer + ":" + expires + ":" + sessionId
  {
    assert [payer, expires, sessionId][1..] == [expires, sessionId];
    assert [expires, sessionId][1..] == [sessionId];
    assert [payer, expires, sessionId, macHex][1..] == [expires, sessionId, macHex];
    assert [expires, sessionId, macHex][1..] == [sessionId, macHex];
    assert [sessionId, macHex][1..] == [macHex];
    assert Join([expires, sessionId], ":") == expires + ":" + sessionId;
    assert Join([sessionId, macHex], ":") == sessionId + ":" + macHex;
    assert Join([expires, sessionId, macHex], ":") == expires + ":" + (sessionId + ":" + macHex);
  }

  predicate Clean(s: string) {
    ':' !in s
  }

  lemma FourFields(payer: string, expires: string, sessionId: string, macHex: string)
    requires Clean(payer) && Clean(expires) && Clean(sessionId) && Clean(macHex)
    ensures Split(Fields(payer, expires, sessionId, macHex), ':')
            == [payer, expires, sessionId, macHex]
  {
    FieldsAreJoined(payer, expires, sessionId, macHex);
    SplitJoin([payer, expires, sessionId, macHex], ':');
  }

  // ------------------------------------------------------------------ what is proved

  /** A minted token verifies to exactly its own claims until it expires; this fails
      precisely when a field holds a colon or the payer starts with white space. */
  lemma MintedTokenVerifies(mac: Mac, payer: string, expiresAt: nat, sessionId: string, now: nat)
    requires expiresAt <= U64_MAX
    ensures Verify(mac, Mint(mac, payer, expiresAt, sessionId), now)
            == Ok(Claims(payer, expiresAt, sessionId))
            <==> Clean(payer) && Clean(sessionId) && (payer == "" || !IsSpace(payer[0]))
                 && now < expiresAt
    ensures Clean(payer) && Clean(sessionId) && (payer == "" || !IsSpace(payer[0]))
            && now >= expiresAt ==>
              Verify(mac, Mint(mac, payer, expiresAt, sessionId), now) == Err(Expired)
  {
    if Clean(payer) && Clean(sessionId) && (payer == "" || !IsSpace(payer[0])) {
      CleanTokenVerifies(mac, payer, expiresAt, sessionId, now);
    }
    var token := Mint(mac, payer, expiresAt, sessionId);
    if Verify(mac, token, now) == Ok(Claims(payer, expiresAt, sessionId)) {
      AcceptedFieldsAreClean(mac, token, now);
    }
  }

  lemma CleanTokenVerifies(mac: Mac, payer: string, expiresAt: nat, sessionId: string, now: nat)
    requires expiresAt <= U64_MAX
    requires Clean(payer) && Clean(sessionId) && (payer == "" || !IsSpace(payer[0]))
    ensures Verify(mac, Mint(mac, payer, expiresAt, sessionId), now)
            == if now < expiresAt then Ok(Claims(payer, expiresAt, sessionId)) else Err(Expired)
  {
    var expires := Decimal(expiresAt);
    var signed := mac(SignedPart(payer, expires, sessionId));
    MintedIsUnpadded(payer, expires, sessionId, HexEncode(signed));
    FourFields(payer, expires, sessionId, HexEncode(signed));
    ParseDecimal(expiresAt, U64_MAX);
    HexRoundTrip(signed);
  }

  lemma MintedIsUnpadded(payer: string, expires: string, sessionId: string, macHex: string)
    requires payer == "" || !IsSpace(payer[0])
    requires macHex == "" || !IsSpace(macHex[|macHex| - 1])
    ensures Trim(Fields(payer, expires, sessionId, macHex)) == Fields(payer, expires, sessionId, macHex)
  {
    var token := Fields(payer, expires, sessionId, macHex);
    FieldsAreJoined(payer, expires, sessionId, macHex);
    assert token[0] == if payer == "" then ':' else payer[0];
    assert token[|token| - 1] == if macHex == "" then ':' else macHex[|macHex| - 1];
    TrimClean(token);
  }

  lemma AcceptedFieldsAreClean(mac: Mac, token: string, now: nat)
    requires Verify(mac, token, now).Ok?
    ensures var c := Verify(mac, token, now).value;
            Clean(c.payer) && Clean(c.sessionId) && (c.payer == "" || !IsSpace(c.payer[0]))
  {
    var parts := Split(Trim(token), ':');
    JoinSplit(Trim(token), ':');
    TrimClean(token);
    assert parts == [parts[0], parts[1], parts[2], parts[3]];
    FieldsAreJoined(parts[0], parts[1], parts[2], parts[3]);
    if parts[0] != "" {
      assert Trim(token)[0] == parts[0][0];
    }
  }

  /** `token` is, up to surrounding white space, a text of four colon-free fields
      whose last is the MAC of the first three, in hex of either case. */
  ghost predicate Authentic(mac: Mac, token: string, c: Claims, expires: string, macHex: string) {
    && Trim(token) == Fields(c.payer, expires, c.sessionId, macHex)
    && Clean(c.payer) && Clean(expires) && Clean(c.sessionId) && Clean(macHex)
    && HexDecode(macHex) == Some(mac(SignedPart(c.payer, expires, c.sessionId)))
    && ParseUnsigned(expires, U64_MAX) == Some(c.expiresAt)
  }

  /** Exactly the authentic, unexpired tokens are accepted. */
  lemma AcceptedIffAuthentic(mac: Mac, token: string, now: nat, c: Claims)
    ensures Verify(mac, token, now) == Ok(c)
            <==> now < c.expiresAt
                 && exists expires, macHex :: Authentic(mac, token, c, expires, macHex)
  {
    if expires, macHex :| Authentic(mac, token, c, expires, macHex) {
      FourFields(c.payer, expires, c.sessionId, macHex);
    }
    if Verify(mac, token, now) == Ok(c) {
      var parts := Split(Trim(token), ':');
      JoinSplit(Trim(token), ':');
      assert parts == [parts[0], parts[1], parts[2], parts[3]];
      FieldsAreJoined(parts[0], parts[1], parts[2], parts[3]);
      assert Authentic(mac, token, c, parts[1], parts[3]);
    }
  }

  /** Bytes cannot be shifted between fields: whatever text of three fields equals one of
      three colon-free fields has the same fields. */
  lemma SignedPartInjective(p: string, e: string, s: string, p': string, e': string, s': string)
    requires Clean(p) && Clean(e) && Clean(s)
    requires SignedPart(p, e, s) == SignedPart(p', e', s')
    ensures p == p' && e == e' && s == s'
  {
    SplitJoin([p, e, s], ':');
    FieldsAreJoined(p', e', s', "");
    SplitConcat(p' + ":" + e', s', ':');
    SplitConcat(p', e', ':');
    assert Split(p', ':') + Split(e', ':') + Split(s', ':') == [p, e, s];
    OneField(p', Split(p', ':'), Split(e', ':') + Split(s', ':'), [p, e, s]);
    OneField(e', Split(e', ':'), Split(s', ':'), [e, s]);
    OneField(s', Split(s', ':'), [], [s]);
  }

  /** A text that contributes its share of fields contributes itself. */
  lemma OneField(x: string, parts: seq<string>, rest: seq<string>, fields: seq<string>)
    requires parts == Split(x, ':') && parts + rest == fields
    requires |fields| <= |rest| + 1
    ensures x == fields[0] && rest == fields[1..]
  {
    JoinSplit(x, ':');
    assert parts == [fields[0]];
  }

  ghost predicate Injective(mac: Mac) {
    forall a, b :: mac(a) == mac(b) ==> a == b
  }

  /** The MAC a token presents. */
  function PresentedMac(token: string): Option<seq<byte>> {
    var parts := Split(Trim(token), ':');
    HexDecode(parts[|parts| - 1])
  }

  /** Under a MAC without collisions, two accepted tokens presenting the same MAC
      carry the same claims. */
  lemma SameMacSameClaims(mac: Mac, a: string, b: string, nowA: nat, nowB: nat)
    requires Injective(mac)
    requires Verify(mac, a, nowA).Ok? && Verify(mac, b, nowB).Ok?
    requires PresentedMac(a) == PresentedMac(b)
    ensures Verify(mac, a, nowA) == Verify(mac, b, nowB)
  {
    var fs, gs := Split(Trim(a), ':'), Split(Trim(b), ':');
    JoinSplit(Trim(a), ':');
    JoinSplit(Trim(b), ':');
    assert mac(SignedPart(fs[0], fs[1], fs[2])) == mac(SignedPart(gs[0], gs[1], gs[2]));
    SignedPartInjective(fs[0], fs[1], fs[2], gs[0], gs[1], gs[2]);
  }
}
