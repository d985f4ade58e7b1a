/** CSRF tokens: issue time, nonce and a keyed signature over session, time and nonce. */
module Csrf {
  import opened Prelude
  import opened TextCodec

  /** The url-safe, unpadded text of the keyed digest of a payload. */
  type Signer = (string, string) -> string

  const MAX_SKEW_SECONDS := 60

  ghost predicate DotFree(sign: Signer) {
    forall k, p :: '.' !in sign(k, p)
  }

  /** No two key/payload pairs share a signature. */
  ghost predicate Injective(sign: Signer) {
    forall k, p, j, q :: sign(k, p) == sign(j, q) ==> k == j && p == q
  }

  function Payload(session: string, issued: int, nonce: string): string {
    session + "." + Dec(issued) + "." + nonce
  }

  function Issue(session: string, secret: string, now: int, nonce: string, sign: Signer): string {
    Dec(now) + "." + nonce + "." + sign(secret, Payload(session, now, nonce))
  }

  function Validate(token: string, session: string, secret: string, maxAge: int, now: int, sign: Signer): bool {
    var parts := Split(token, '.');
    if |parts| != 3 then false
    else
      match ParseInt(parts[0])
      case None => false
      case Some(issued) =>
        if issued > now + MAX_SKEW_SECONDS || issued + maxAge < now then false
        else sign(secret, Payload(session, issued, parts[1])) == parts[2]
  }

  // ---- the parts of a token, and what its signature covers

  lemma TokenParts(text: string, nonce: string, sig: string)
    requires '.' !in text && '.' !in nonce && '.' !in sig
    ensures Split(text + "." + nonce + "." + sig, '.') == [text, nonce, sig]
  {
    assert text + "." + nonce + "." + sig == text + ['.'] + (nonce + ['.'] + sig);
    SplitFirst(text, nonce + ['.'] + sig, '.');
    SplitFirst(nonce, sig, '.');
    SplitNone(sig, '.');
  }

  lemma IssuedParts(session: string, secret: string, now: int, nonce: string, sign: Signer)
    requires '.' !in nonce && DotFree(sign)
    ensures Split(Issue(session, secret, now, nonce, sign), '.')
            == [Dec(now), nonce, sign(secret, Payload(session, now, nonce))]
  {
    DecHasNo(now, '.');
    TokenParts(Dec(now), nonce, sign(secret, Payload(session, now, nonce)));
  }

  /** The last separator is the same in two equal texts. */
  lemma LastDot(a: string, b: string, x: string, y: string)
    requires '.' !in x && '.' !in y && a + "." + x == b + "." + y
    ensures a == b && x == y
  {
    var s, t := a + "." + x, b + "." + y;
    assert s[|a|] == '.' && t[|b|] == '.';
    assert forall i | |a| < i < |s| :: s[i] == x[i - |a| - 1] && x[i - |a| - 1] in x;
    assert forall i | |b| < i < |t| :: t[i] == y[i - |b| - 1] && y[i - |b| - 1] in y;
    assert |a| == |b|;
    assert s[..|a|] == a && t[..|b|] == b;
    assert s[|a| + 1..] == x && t[|b| + 1..] == y;
  }

  /** A payload names its session, time and nonce, whatever separators the session has. */
  lemma PayloadNames(session: string, a: int, nonce: string, session2: string, b: int, nonce2: string)
    requires '.' !in nonce && '.' !in nonce2
    ensures Payload(session, a, nonce) == Payload(session2, b, nonce2)
            <==> session == session2 && a == b && nonce == nonce2
  {
    if Payload(session, a, nonce) == Payload(session2, b, nonce2) {
      DecHasNo(a, '.');
      DecHasNo(b, '.');
      LastDot(session + "." + Dec(a), session2 + "." + Dec(b), nonce, nonce2);
      LastDot(session, session2, Dec(a), Dec(b));
      ParseDec(a);
      ParseDec(b);
    }
  }

  /** A token with any time text and nonce that carries an issued signature. */
  function Tampered(text: string, nonce2: string, session: string, secret: string, issuedAt: int, nonce: string,
                    sign: Signer): string
  {
    text + "." + nonce2 + "." + sign(secret, Payload(session, issuedAt, nonce))
  }

  /** Whatever else is changed about a token, an issued signature is accepted exactly for the
      session, key and nonce it was issued for, with a time text that reads as its time, and
      within its window. */
  lemma TamperedExactly(text: string, nonce2: string, session: string, secret: string, issuedAt: int, nonce: string,
                        sign: Signer, session2: string, secret2: string, maxAge: int, now: int)
    requires '.' !in text && '.' !in nonce && '.' !in nonce2 && DotFree(sign) && Injective(sign)
    ensures Validate(Tampered(text, nonce2, session, secret, issuedAt, nonce, sign), session2, secret2, maxAge, now,
                     sign)
       <==> session2 == session && secret2 == secret && nonce2 == nonce
            && ParseInt(text) == Some(issuedAt) && issuedAt - 60 <= now <= issuedAt + maxAge
  {
    TokenParts(text, nonce2, sign(secret, Payload(session, issuedAt, nonce)));
    if ParseInt(text).Some? {
      PayloadNames(session, issuedAt, nonce, session2, ParseInt(text).value, nonce2);
    }
  }

  // ---- issued tokens

  /** A token validates exactly for the session and key it was issued with, from a minute
      before its issue time until its maximal age has passed. */
  lemma ValidatesExactly(session: string, secret: string, issuedAt: int, nonce: string, sign: Signer,
                         otherSession: string, otherSecret: string, maxAge: int, now: int)
    requires '.' !in nonce && DotFree(sign) && Injective(sign)
    ensures Validate(Issue(session, secret, issuedAt, nonce, sign), otherSession, otherSecret, maxAge, now, sign)
       <==> otherSession == session && otherSecret == secret && issuedAt - 60 <= now <= issuedAt + maxAge
  {
    hide Validate;
    DecHasNo(issuedAt, '.');
    ParseDec(issuedAt);
    TamperedExactly(Dec(issuedAt), nonce, session, secret, issuedAt, nonce, sign, otherSession, otherSecret, maxAge,
                    now);
  }

  /** Without any assumption on collisions: the issuing session and key are accepted
      exactly within the window. */
  lemma ValidatesOwnToken(session: string, secret: string, issuedAt: int, nonce: string, sign: Signer, maxAge: int,
                          now: int)
    requires '.' !in nonce && DotFree(sign)
    ensures Validate(Issue(session, secret, issuedAt, nonce, sign), session, secret, maxAge, now, sign)
            <==> issuedAt - 60 <= now <= issuedAt + maxAge
  {
    IssuedParts(session, secret, issuedAt, nonce, sign);
    ParseDec(issuedAt);
  }

  /** The signature covers the number read from the time, not its text: a token has other
      spellings that are accepted whenever it is. */
  lemma OtherTextsValidate(session: string, secret: string, issuedAt: nat, nonce: string, sign: Signer, maxAge: int,
                           now: int, text: string)
    requires '.' !in nonce && DotFree(sign) && Injective(sign)
    requires text in {" " + Dec(issuedAt), Dec(issuedAt) + " ", "+" + Dec(issuedAt), "0" + Dec(issuedAt)}
    ensures var token := Issue(session, secret, issuedAt, nonce, sign);
            var other := Tampered(text, nonce, session, secret, issuedAt, nonce, sign);
            && other != token
            && Validate(other, session, secret, maxAge, now, sign)
               == Validate(token, session, secret, maxAge, now, sign)
  {
    hide Validate, ParseInt;
    DecHasNo(issuedAt, '.');
    OtherSpellings(issuedAt);
    TamperedExactly(text, nonce, session, secret, issuedAt, nonce, sign, session, secret, maxAge, now);
    ValidatesExactly(session, secret, issuedAt, nonce, sign, session, secret, maxAge, now);
    var token, other := Issue(session, secret, issuedAt, nonce, sign),
      Tampered(text, nonce, session, secret, issuedAt, nonce, sign);
    assert |other| == |token| + 1;
  }

  lemma {:induction false} PartsHaveNoSeparator(s: string)
    ensures forall i | 0 <= i < |Split(s, '.')| :: '.' !in Split(s, '.')[i]
  {
    if s != [] {
      PartsHaveNoSeparator(s[1..]);
    }
  }

  lemma ThreeParts(token: string)
    requires |Split(token, '.')| == 3
    ensures var parts := Split(token, '.');
            && token == parts[0] + "." + parts[1] + "." + parts[2]
            && '.' !in parts[0] && '.' !in parts[1] && '.' !in parts[2]
  {
    hide Split;
    var parts := Split(token, '.');
    PartsHaveNoSeparator(token);
    JoinSplit(token, '.');
    assert parts[1..][1..] == [parts[2]];
    assert Join(parts[1..], '.') == parts[1] + "." + parts[2];
    assert Join(parts, '.') == parts[0] + "." + Join(parts[1..], '.');
  }

  /** A time text, a nonce and the signature over the session, the time `issued` and the nonce. */
  ghost predicate Consists(token: string, text: string, nonce: string, issued: int, session: string, secret: string,
                           sign: Signer)
  {
    var sig := sign(secret, session + "." + Dec(issued) + "." + nonce);
    token == text + "." + nonce + "." + sig && '.' !in text && '.' !in nonce && '.' !in sig
  }

  /** Any text at all validates exactly when it consists of a text that reads as a time within
      the window, a nonce and the signature over the session, that time and the nonce. */
  lemma AcceptedExactly(token: string, session: string, secret: string, maxAge: int, now: int, sign: Signer)
    ensures Validate(token, session, secret, maxAge, now, sign)
       <==> exists text, nonce, issued :: Consists(token, text, nonce, issued, session, secret, sign)
              && ParseInt(text) == Some(issued) && issued - 60 <= now <= issued + maxAge
  {
    hide ParseInt, Split;
    if text, nonce, issued :| (Consists(token, text, nonce, issued, session, secret, sign)
                               && ParseInt(text) == Some(issued) && issued - 60 <= now <= issued + maxAge)
    {
      TokenParts(text, nonce, sign(secret, session + "." + Dec(issued) + "." + nonce));
    }
    if Validate(token, session, secret, maxAge, now, sign) {
      ThreeParts(token);
      var parts := Split(token, '.');
      assert Consists(token, parts[0], parts[1], ParseInt(parts[0]).value, session, secret, sign);
    }
  }
}
