/** The cryptographic services the backend calls but does not implement:
    bcrypt password hashing and JSON Web Token signing. Both are stand-ins
    that keep exactly the properties the handlers depend on. */
module Crypto {
  import opened Common

  // ---------------------------------------------------------------------
  // bcrypt
  // ---------------------------------------------------------------------

  /** The UTF-8 encoding of one character: one byte below 0x80, otherwise a
      lead byte from 0xC0 up followed by continuation bytes. Only the NUL
      character encodes to a zero byte. */
  function Utf8Char(c: char): (b: seq<int>)
    ensures 1 <= |b| <= 4
    ensures forall i :: 0 <= i < |b| ==> 0 <= b[i] < 0x100
    ensures c as int < 0x80 <==> b == [c as int]
    ensures c as int >= 0x80 ==> b[0] >= 0xC0
    ensures c != '\0' ==> forall i :: 0 <= i < |b| ==> b[i] != 0
  {
    var n := c as int;
    if n < 0x80 then [n]
    else if n < 0x800 then [0xC0 + n / 0x40, 0x80 + n % 0x40]
    else if n < 0x10000 then [0xE0 + n / 0x1000, 0x80 + (n / 0x40) % 0x40, 0x80 + n % 0x40]
    else [0xF0 + n / 0x40000, 0x80 + (n / 0x1000) % 0x40, 0x80 + (n / 0x40) % 0x40, 0x80 + n % 0x40]
  }

  /** The UTF-8 encoding of a string, as bcrypt sees a password. */
  function Utf8(s: string): (b: seq<int>)
    ensures |s| <= |b| <= 4 * |s|
  {
    if s == [] then [] else Utf8Char(s[0]) + Utf8(s[1..])
  }

  /** bcrypt reads this many bytes of key material from a password. */
  const MaxPasswordBytes: nat := 72

  /** The first `n` bytes of `b` read round and round, as bcrypt's key
      schedule streams its key: it starts with `b`, and `CyclePeriodic`
      shows that it repeats every `|b|` bytes. */
  function Cycle(b: seq<int>, n: nat): (c: seq<int>)
    requires b != []
    ensures |c| == n
    ensures n <= |b| ==> c == b[..n]
    ensures n > |b| ==> c[..|b|] == b
    decreases n
  {
    if n <= |b| then b[..n] else b + Cycle(b, n - |b|)
  }

  /** The stream repeats with period `|b|`. */
  lemma {:induction false} CyclePeriodic(b: seq<int>, n: nat, i: nat)
    requires b != [] && |b| <= i < n
    ensures Cycle(b, n)[i] == Cycle(b, n)[i - |b|]
    decreases n
  {
    var m := |b|;
    if i >= 2 * m {
      CyclePeriodic(b, n - m, i - m);
    } else {
      assert Cycle(b, n)[i] == Cycle(b, n - m)[i - m];
      assert Cycle(b, n - m)[i - m] == b[i - m];
    }
  }

  /** What bcrypt reads of a password under a `$2a$` salt (the kind
      `genSalt` makes): the UTF-8 encoding followed by one NUL byte, read
      round and round until it has 72 bytes. A long password is cut at 72
      bytes; a short one is followed by a NUL and then by itself again. */
  function PasswordKey(plain: string): (k: seq<int>)
    ensures |k| == MaxPasswordBytes
    ensures |Utf8(plain)| >= MaxPasswordBytes ==> k == Utf8(plain)[..MaxPasswordBytes]
    ensures |Utf8(plain)| < MaxPasswordBytes ==>
      k[..|Utf8(plain)|] == Utf8(plain) && k[|Utf8(plain)|] == 0
  {
    Cycle(Utf8(plain) + [0], MaxPasswordBytes)
  }

  /** A bcrypt hash: what matters to the backend is which plain passwords
      it accepts; the salt records that two hashes of one password differ. */
  datatype Digest = Digest(key: seq<int>, salt: string)

  /** `bcrypt.compare(plain, hash)`. */
  predicate Matches(plain: string, d: Digest) {
    PasswordKey(plain) == d.key
  }

  /** `bcrypt.hash(plain, salt)`: the hash accepts `plain`, and exactly the
      passwords that bcrypt reads as the same 72 bytes. */
  function Hash(plain: string, salt: string): (d: Digest)
    ensures Matches(plain, d)
    ensures forall p :: Matches(p, d) <==> PasswordKey(p) == PasswordKey(plain)
  {
    Digest(PasswordKey(plain), salt)
  }

  lemma {:induction false} Utf8Append(x: string, y: string)
    ensures Utf8(x + y) == Utf8(x) + Utf8(y)
  {
    if x != [] {
      assert (x + y)[1..] == x[1..] + y;
      Utf8Append(x[1..], y);
    } else {
      assert x + y == y;
    }
  }

  /** Whatever follows the first 72 bytes of a password is not read: two
      passwords that share a prefix of at least 72 bytes are each accepted
      by the other's hash. */
  lemma ReadsOnlyFirst72Bytes(p: string, x: string, y: string, salt: string)
    requires |Utf8(p)| >= MaxPasswordBytes
    ensures Matches(p + x, Hash(p + y, salt))
  {
    SharedPrefixKey(p, x);
    SharedPrefixKey(p, y);
  }

  /** A password with at least 72 bytes fixes the key of every extension. */
  lemma SharedPrefixKey(p: string, x: string)
    requires |Utf8(p)| >= MaxPasswordBytes
    ensures PasswordKey(p + x) == Utf8(p)[..MaxPasswordBytes]
  {
    var b := Utf8(p + x);
    Utf8Append(p, x);
    assert forall k :: 0 <= k < MaxPasswordBytes ==> b[k] == Utf8(p)[k];
  }

  /** For instance, seventy-two `a`s followed by `Y` log in to an account
      whose password is seventy-two `a`s followed by `X`. */
  lemma SeventyThirdByteIgnored(salt: string)
    ensures var a72 := seq(MaxPasswordBytes, _ => 'a');
      Matches(a72 + "Y", Hash(a72 + "X", salt))
  {
    var a72: string := seq(MaxPasswordBytes, _ => 'a');
    Utf8OfAscii(a72);
    ReadsOnlyFirst72Bytes(a72, "Y", "X", salt);
  }

  /** Because the key is read round and round, a password followed by a
      NUL character and by itself again reads as the same 72 bytes, and is
      accepted by the original's hash. */
  lemma NulRepeatAccepted(p: string, salt: string)
    ensures Matches(p + "\0" + p, Hash(p, salt))
  {
    var b := Utf8(p) + [0];
    Utf8Append(p + "\0", p);
    Utf8Append(p, "\0");
    assert Utf8("\0") == [0];
    assert Utf8(p + "\0" + p) + [0] == b + b;
    CycleTwice(b, MaxPasswordBytes);
  }

  /** Reading `b + b` round and round is reading `b` round and round. */
  lemma {:induction false} CycleTwice(b: seq<int>, n: nat)
    requires b != []
    ensures Cycle(b + b, n) == Cycle(b, n)
    decreases n
  {
    if n <= 2 * |b| {
      CycleTwiceShort(b, n);
    } else {
      var rest := Cycle(b, n - 2 * |b|);
      CycleTwice(b, n - 2 * |b|);
      calc {
        Cycle(b + b, n);
        (b + b) + Cycle(b + b, n - 2 * |b|);
        (b + b) + rest;
        { assert (b + b) + rest == b + (b + rest); }
        b + (b + rest);
        { assert Cycle(b, n - |b|) == b + rest; }
        Cycle(b, n);
      }
    }
  }

  /** Within its first two periods, `b + b` read round and round is `b`
      read round and round. */
  lemma CycleTwiceShort(b: seq<int>, n: nat)
    requires b != [] && n <= 2 * |b|
    ensures Cycle(b + b, n) == Cycle(b, n)
  {
    if n > |b| {
      assert Cycle(b, n - |b|) == b[..n - |b|];
      assert (b + b)[..n] == b + b[..n - |b|];
    } else {
      assert (b + b)[..n] == b[..n];
    }
  }

  /** For instance, `abcdef\0abcdef` logs in to an account whose password is
      `abcdef`. */
  lemma NulRepeatExample(salt: string)
    ensures Matches("abcdef\0abcdef", Hash("abcdef", salt))
  {
    Utf8OfAscii("abcdef");
    assert "abcdef" + "\0" + "abcdef" == "abcdef\0abcdef";
    NulRepeatAccepted("abcdef", salt);
  }

  predicate IsAscii(s: string) {
    forall i :: 0 <= i < |s| ==> s[i] as int < 0x80
  }

  lemma {:induction false} Utf8OfAscii(s: string)
    requires IsAscii(s)
    ensures |Utf8(s)| == |s|
    ensures forall i :: 0 <= i < |s| ==> Utf8(s)[i] == s[i] as int
  {
    if s != [] {
      Utf8OfAscii(s[1..]);
    }
  }

  /** The encoding of a string without NUL characters has no zero byte. */
  lemma {:induction false} Utf8NoZero(s: string)
    requires '\0' !in s
    ensures forall i :: 0 <= i < |Utf8(s)| ==> Utf8(s)[i] != 0
  {
    if s != [] {
      assert s[0] in s;
      assert forall c :: c in s[1..] ==> c in s;
      Utf8NoZero(s[1..]);
    }
  }

  /** An ASCII string is the only string with its encoding. */
  lemma {:induction false} Utf8AsciiUnique(p: string, q: string)
    requires IsAscii(p) && Utf8(q) == Utf8(p)
    ensures q == p
  {
    Utf8OfAscii(p);
    if p != [] {
      assert q != [];
      var head := Utf8Char(q[0]);
      assert Utf8(q) == head + Utf8(q[1..]);
      assert head[0] == Utf8(p)[0] == p[0] as int;
      assert head == [q[0] as int];
      assert Utf8(q[1..]) == Utf8(q)[1..] == Utf8(p)[1..] == Utf8(p[1..]);
      Utf8AsciiUnique(p[1..], q[1..]);
      assert q == [q[0]] + q[1..];
      assert p == [p[0]] + p[1..];
    } else {
      assert |q| <= |Utf8(q)| == 0;
    }
  }

  /** Without NUL characters, a password of fewer than 72 ASCII characters
      is accepted by its hash and by no other password: its key ends at the
      first zero byte. */
  lemma ShortAsciiPasswordExact(p: string, q: string, salt: string)
    requires IsAscii(p) && |p| < MaxPasswordBytes
    requires '\0' !in p && '\0' !in q
    ensures Matches(q, Hash(p, salt)) <==> q == p
  {
    Utf8OfAscii(p);
    if Matches(q, Hash(p, salt)) {
      var k := PasswordKey(p);
      var n := |Utf8(p)|;
      var m := |Utf8(q)|;
      assert PasswordKey(q) == k;
      Utf8NoZero(p);
      Utf8NoZero(q);
      assert k[n] == 0;
      assert forall i :: 0 <= i < n ==> k[i] == Utf8(p)[i] != 0;
      assert forall i :: 0 <= i < m && i < MaxPasswordBytes ==> k[i] == Utf8(q)[i] != 0;
      assert m <= n;
      assert k[m] == 0;
      assert Utf8(q) == k[..n] == Utf8(p);
      Utf8AsciiUnique(p, q);
    }
  }

  /** The payload of a session token: the user's id and the session id. */
  datatype Claims = Claims(id: UserId, sessionId: SessionId)

  /** `jwt.sign(claims, secret, {expiresIn})`, with the secret and expiry fixed. */
  type Signer = Claims -> string

  /** `jwt.verify(token, secret)`: the claims, or `None` where it throws (bad
      signature, malformed or expired token). */
  type Verifier = string -> Option<Claims>

  /** The two agree: a signed token is never empty, and every signed token
      verifies to its own claims whenever it is checked. This says that no
      token has expired yet: the lemmas that assume `Agree` speak of tokens
      still within their `expiresIn` lifetime. */
  ghost predicate Agree(sign: Signer, verify: Verifier) {
    forall c :: sign(c) != "" && verify(sign(c)) == Some(c)
  }
}
