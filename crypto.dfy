/**
 * Symbolic models of the three cryptographic libraries the backend calls:
 * `@nestjs/jwt` (JSON Web Tokens), `csrf` (anti-forgery tokens) and `bcrypt`
 * (password digests). A signed value records the secret it was made with, so
 * verification is a comparison of secrets; no algorithm is modelled. Values a
 * client sends back in a cookie or header are `Wire` values: either something
 * these libraries produced, or arbitrary text.
 */
module Crypto {
  import opened Wrappers

  /** The `type` claim of a session token. */
  datatype TokenType = Access | Refresh

  /** The claims the backend puts in a session token: username, `sub` (the user id) and `type`. */
  datatype Payload = Payload(username: string, sub: int, typ: TokenType)

  /** A value carried by a cookie or a header. */
  datatype Wire =
    | Jwt(secret: string, payload: Payload, iat: int, exp: int)  // a token signed with `secret`, valid while now < exp
    | CsrfToken(secret: string, salt: nat)                       // an anti-forgery token made from `secret`
    | Text(text: string)                                         // anything else a client may send

  /** JavaScript truthiness of an optional cookie or header value: present and not the empty string. */
  predicate Truthy(v: Option<Wire>) {
    v.Some? && v.value != Text("")
  }

  /** `jwtService.sign(payload, {secret, expiresIn})` at time `now` (seconds), for a lifetime of `ttl` seconds. */
  function JwtSign(payload: Payload, secret: string, ttl: nat, now: int): (t: Wire)
    ensures t.Jwt? && t.payload == payload && t.secret == secret && t.exp - t.iat == ttl && t.iat == now
  {
    Jwt(secret, payload, now, now + ttl)
  }

  /**
   * `jwtService.verify(token, {secret})` at time `now`: the payload when the
   * token was signed with `secret` and has not expired, otherwise failure
   * (bad signature, expired, or not a token at all).
   */
  function JwtVerify(t: Wire, secret: string, now: int): (r: Option<Payload>)
    ensures r.Some? <==> t.Jwt? && t.secret == secret && now < t.exp
    ensures r.Some? ==> r.value == t.payload
  {
    match t
    case Jwt(s, p, _, exp) => if s == secret && now < exp then Some(p) else None
    case _ => None
  }

  /** A token verifies, under its own secret, exactly until its lifetime elapses. */
  lemma JwtRoundTrip(payload: Payload, secret: string, ttl: nat, now: int, later: int)
    requires now <= later
    ensures JwtVerify(JwtSign(payload, secret, ttl, now), secret, later) == (if later < now + ttl then Some(payload) else None)
  {
  }

  /** A token never verifies under a secret other than the one it was signed with. */
  lemma JwtWrongSecret(payload: Payload, secret: string, other: string, ttl: nat, now: int, later: int)
    requires other != secret
    ensures JwtVerify(JwtSign(payload, secret, ttl, now), other, later).None?
  {
  }

  /** `tokens.create(secret)`: a fresh anti-forgery token; `salt` stands for the library's randomness. */
  function CsrfCreate(secret: string, salt: nat): (t: Wire)
    ensures t.CsrfToken? && t.secret == secret
  {
    CsrfToken(secret, salt)
  }

  /** `tokens.verify(secret, token)`: the token was made from `secret`, whatever its salt. */
  predicate CsrfVerify(secret: string, t: Wire) {
    t.CsrfToken? && t.secret == secret
  }

  /** Every token made from a secret verifies against it, and against no other secret. */
  lemma CsrfRoundTrip(secret: string, other: string, salt: nat)
    ensures CsrfVerify(secret, CsrfCreate(secret, salt))
    ensures other != secret ==> !CsrfVerify(other, CsrfCreate(secret, salt))
  {
  }

  /** The bcrypt cost factor used by every hashing call in the backend. */
  const SaltRounds: nat := 10

  /** bcrypt hashes at most this many bytes of a password; the rest is ignored. */
  const BcryptMaxKeyBytes: nat := 72

  type Byte = b: int | 0 <= b < 256

  /**
   * The UTF-8 encoding of one character: one byte below U+0080, then two,
   * three or four bytes. The lead byte alone tells how many bytes follow.
   */
  function Utf8Char(c: char): (r: seq<Byte>)
    ensures 1 <= |r| <= 4
    ensures |r| == 1 <==> r[0] < 0x80
    ensures |r| == 2 <==> 0xC0 <= r[0] < 0xE0
    ensures |r| == 3 <==> 0xE0 <= r[0] < 0xF0
    ensures |r| == 4 <==> 0xF0 <= r[0]
    ensures |r| == 1 <==> (c as int) < 0x80
  {
    var n := c as int;
    var t := n / 0x40;
    var u := t / 0x40;
    if n < 0x80 then [n]
    else if n < 0x800 then [0xC0 + t, 0x80 + n % 0x40]
    else if n < 0x1_0000 then [0xE0 + u, 0x80 + t % 0x40, 0x80 + n % 0x40]
    else [0xF0 + u / 0x40, 0x80 + u % 0x40, 0x80 + t % 0x40, 0x80 + n % 0x40]
  }

  /** The code point spelled by an encoded character: six payload bits per continuation byte. */
  function Utf8Decode(e: seq<int>): int
    requires 1 <= |e| <= 4
  {
    if |e| == 1 then e[0]
    else if |e| == 2 then (e[0] - 0xC0) * 0x40 + (e[1] - 0x80)
    else if |e| == 3 then ((e[0] - 0xE0) * 0x40 + (e[1] - 0x80)) * 0x40 + (e[2] - 0x80)
    else (((e[0] - 0xF0) * 0x40 + (e[1] - 0x80)) * 0x40 + (e[2] - 0x80)) * 0x40 + (e[3] - 0x80)
  }

  /** Decoding an encoded character gives the character back. */
  lemma Utf8CharRoundTrip(c: char)
    ensures Utf8Decode(Utf8Char(c)) == c as int
  {
    var n := c as int;
    var t := n / 0x40;
    var u := t / 0x40;
    assert n == t * 0x40 + n % 0x40;
    assert t == u * 0x40 + t % 0x40;
    assert u == (u / 0x40) * 0x40 + u % 0x40;
  }

  /** Distinct characters have distinct encodings. */
  lemma Utf8CharInjective(a: char, b: char)
    requires Utf8Char(a) == Utf8Char(b)
    ensures a == b
  {
    Utf8CharRoundTrip(a);
    Utf8CharRoundTrip(b);
  }

  /** `Buffer.from(s, 'utf8')`: the bytes of a string, at least one and at most four per character. */
  function Utf8(s: string): (r: seq<Byte>)
    ensures |s| <= |r| <= 4 * |s|
  {
    if s == [] then [] else Utf8Char(s[0]) + Utf8(s[1..])
  }

  /** Encoding a concatenation concatenates the encodings. */
  lemma {:induction false} Utf8Append(a: string, b: string)
    ensures Utf8(a + b) == Utf8(a) + Utf8(b)
  {
    if a != [] {
      assert (a + b)[0] == a[0] && (a + b)[1..] == a[1..] + b;
      assert Utf8(a + b) == Utf8Char(a[0]) + Utf8(a[1..] + b);
      assert Utf8(a) == Utf8Char(a[0]) + Utf8(a[1..]);
      Utf8Append(a[1..], b);
      assert Utf8(a + b) == Utf8Char(a[0]) + (Utf8(a[1..]) + Utf8(b));
    } else {
      assert a + b == b;
    }
  }

  /** A string of characters below U+0080 encodes to one byte per character. */
  lemma {:induction false} AsciiUtf8Length(s: string)
    requires forall i | 0 <= i < |s| :: (s[i] as int) < 0x80
    ensures |Utf8(s)| == |s|
  {
    if s != [] {
      assert forall i | 0 <= i < |s[1..]| :: s[1..][i] == s[i + 1];
      AsciiUtf8Length(s[1..]);
    }
  }

  /** UTF-8 is a one-to-one encoding: equal bytes mean equal strings. */
  lemma {:induction false} Utf8Injective(a: string, b: string)
    requires Utf8(a) == Utf8(b)
    ensures a == b
  {
    if a != [] && b != [] {
      var ea, eb := Utf8Char(a[0]), Utf8Char(b[0]);
      assert Utf8(a) == ea + Utf8(a[1..]) && Utf8(b) == eb + Utf8(b[1..]);
      assert ea[0] == Utf8(a)[0] == eb[0];
      assert ea == Utf8(a)[..|ea|] == eb;
      Utf8CharInjective(a[0], b[0]);
      assert Utf8(a[1..]) == Utf8(a)[|ea|..] == Utf8(b[1..]);
      Utf8Injective(a[1..], b[1..]);
      assert a == [a[0]] + a[1..] && b == [b[0]] + b[1..];
    }
  }

  /** The bytes bcrypt actually hashes: the first 72 bytes of the password's UTF-8 encoding. */
  function BcryptKey(password: string): (r: seq<Byte>)
    ensures |r| <= BcryptMaxKeyBytes
    ensures |Utf8(password)| <= BcryptMaxKeyBytes ==> r == Utf8(password)
    ensures |Utf8(password)| > BcryptMaxKeyBytes ==> r == Utf8(password)[..BcryptMaxKeyBytes]
  {
    var bytes := Utf8(password);
    if |bytes| <= BcryptMaxKeyBytes then bytes else bytes[..BcryptMaxKeyBytes]
  }

  /** A stored password digest: one made by bcrypt, or a value that is not a valid bcrypt digest. */
  datatype Digest = Bcrypt(plain: string, salt: nat, rounds: nat) | Malformed(text: string)

  /** `bcrypt.hash(plain, 10)`; `salt` stands for the random salt, so equal passwords give different digests. */
  function Hash(plain: string, salt: nat): (d: Digest)
    ensures d.Bcrypt? && d.rounds == SaltRounds && d.salt == salt
  {
    Bcrypt(plain, salt, SaltRounds)
  }

  /**
   * `bcrypt.compare(plain, digest)`: true exactly when `plain` has the same
   * bcrypt key (first 72 UTF-8 bytes) as the password the digest was made
   * from; a malformed digest never matches.
   */
  predicate Compare(plain: string, d: Digest) {
    d.Bcrypt? && BcryptKey(d.plain) == BcryptKey(plain)
  }

  /**
   * A digest matches the password it was made from; it matches no other
   * password as long as both encode to at most 72 bytes (for instance, both
   * have at most 18 characters).
   */
  lemma HashCompare(plain: string, other: string, salt: nat)
    ensures Compare(plain, Hash(plain, salt))
    ensures other != plain && |Utf8(plain)| <= BcryptMaxKeyBytes && |Utf8(other)| <= BcryptMaxKeyBytes ==>
      !Compare(other, Hash(plain, salt))
  {
    if other != plain && |Utf8(plain)| <= BcryptMaxKeyBytes && |Utf8(other)| <= BcryptMaxKeyBytes
      && Compare(other, Hash(plain, salt)) {
      Utf8Injective(plain, other);
    }
  }

  /** The all-passwords form of `HashCompare`, for contracts that quantify over the password tried. */
  lemma HashMatchesOnlyItsKey(plain: string, salt: nat)
    ensures Compare(plain, Hash(plain, salt))
    ensures forall p | p != plain && |Utf8(p)| <= BcryptMaxKeyBytes && |Utf8(plain)| <= BcryptMaxKeyBytes ::
      !Compare(p, Hash(plain, salt))
  {
    forall p | p != plain && |Utf8(p)| <= BcryptMaxKeyBytes && |Utf8(plain)| <= BcryptMaxKeyBytes
      ensures !Compare(p, Hash(plain, salt))
    {
      HashCompare(plain, p, salt);
    }
  }

  /**
   * Two passwords that agree on a prefix of at least 72 bytes match each
   * other's digests, whatever follows the prefix.
   */
  lemma {:induction false} SharedPrefixCollides(prefix: string, a: string, b: string, salt: nat)
    requires |Utf8(prefix)| >= BcryptMaxKeyBytes
    ensures Compare(prefix + b, Hash(prefix + a, salt))
  {
    Utf8Append(prefix, a);
    Utf8Append(prefix, b);
    assert (Utf8(prefix) + Utf8(a))[..BcryptMaxKeyBytes] == Utf8(prefix)[..BcryptMaxKeyBytes];
    assert (Utf8(prefix) + Utf8(b))[..BcryptMaxKeyBytes] == Utf8(prefix)[..BcryptMaxKeyBytes];
  }

  /**
   * "Aa1" followed by 69 x's and then "y" is 73 characters long; its digest
   * also accepts the same text ending in "z".
   */
  lemma LongPasswordsCollide(salt: nat)
    ensures var prefix := "Aa1" + seq(69, _ => 'x');
      && prefix + "y" != prefix + "z"
      && |prefix + "y"| == 73
      && Compare(prefix + "z", Hash(prefix + "y", salt))
  {
    var prefix := "Aa1" + seq(69, _ => 'x');
    assert forall i | 0 <= i < |prefix| :: (prefix[i] as int) < 0x80;
    AsciiUtf8Length(prefix);
    SharedPrefixCollides(prefix, "y", "z", salt);
    assert (prefix + "y")[72] == 'y' && (prefix + "z")[72] == 'z';
  }
}
