// Keyed hashing and the passphrase derivation of Module/md5.c.
module Hmac {
  import opened Words
  import opened Streaming
  import opened Sequences
  import Md5
  import Sha1

  // ----- the definitions -----

  /** Every byte of s xored with c. */
  function XorAll(s: seq<Byte>, c: Byte): (r: seq<Byte>)
    ensures |r| == |s|
  {
    seq(|s|, i requires 0 <= i < |s| => XorByte(s[i], c))
  }

  /** A key as long as a block: a long one is hashed first, then zeros are appended. */
  function BlockKey(H: seq<Byte> -> seq<Byte>, key: seq<Byte>): seq<Byte> {
    var k := if |key| > BLOCK then H(key) else key;
    k + Zeros(if |k| < BLOCK then BLOCK - |k| else 0)
  }

  /** HMAC over a hash function, section 2 of RFC 2104. */
  function Mac(H: seq<Byte> -> seq<Byte>, key: seq<Byte>, text: seq<Byte>): seq<Byte> {
    var k := BlockKey(H, key);
    H(XorAll(k, 0x5c) + H(XorAll(k, 0x36) + text))
  }

  /** Written out: the key is hashed only when it is longer than a block of 64 bytes, filled up with zeros,
      and xored into an inner and an outer pad. */
  lemma MacIs(H: seq<Byte> -> seq<Byte>, key: seq<Byte>, text: seq<Byte>, k: seq<Byte>, ipad: seq<Byte>, opad: seq<Byte>)
    requires |H(key)| <= 64 && |k| == |ipad| == |opad| == 64
    requires k == if |key| <= 64 then key + Zeros(64 - |key|) else H(key) + Zeros(64 - |H(key)|)
    requires forall i: nat :: i < 64 ==> ipad[i] == XorByte(0x36, k[i]) && opad[i] == XorByte(0x5c, k[i])
    ensures Mac(H, key, text) == H(opad + H(ipad + text))
  {
    forall i: nat | i < 64 ensures ipad[i] == XorByte(k[i], 0x36) && opad[i] == XorByte(k[i], 0x5c) {
      Commutes(k[i], 0x36, 8);
      Commutes(k[i], 0x5c, 8);
    }
    assert BlockKey(H, key) == k;
    assert ipad == XorAll(k, 0x36) && opad == XorAll(k, 0x5c);
  }

  function MacSha1(key: seq<Byte>, text: seq<Byte>): (d: seq<Byte>)
    ensures |d| == 20
  {
    var k := BlockKey(Sha1.Digest, key);
    assert Mac(Sha1.Digest, key, text)
        == Sha1.Digest(XorAll(k, 0x5c) + Sha1.Digest(XorAll(k, 0x36) + text));
    Mac(Sha1.Digest, key, text)
  }

  function XorSeq(a: seq<Byte>, b: seq<Byte>): (r: seq<Byte>)
    requires |a| == |b|
    ensures |r| == |a|
  {
    seq(|a|, i requires 0 <= i < |a| => XorByte(a[i], b[i]))
  }

  /** U_n of section 5.2 of RFC 2898 for block i. */
  function U(password: seq<Byte>, salt: seq<Byte>, i: nat, n: nat): (u: seq<Byte>)
    requires 1 <= n && i < TWO32
    ensures |u| == 20
  {
    if n == 1 then MacSha1(password, salt + BigBytes(i))
    else MacSha1(password, U(password, salt, i, n - 1))
  }

  /** F (P, S, c, i) = U_1 xor U_2 xor ... xor U_c */
  function BlockF(password: seq<Byte>, salt: seq<Byte>, i: nat, c: nat): (t: seq<Byte>)
    requires 1 <= c && i < TWO32
    ensures |t| == 20
  {
    if c == 1 then U(password, salt, i, 1)
    else XorSeq(BlockF(password, salt, i, c - 1), U(password, salt, i, c))
  }

  /** T_1 || T_2 || ... || T_l */
  function Pbkdf2Blocks(password: seq<Byte>, salt: seq<Byte>, c: nat, l: nat): (k: seq<Byte>)
    requires 1 <= c && l < TWO32
    ensures |k| == 20 * l
  {
    if l == 0 then []
    else Pbkdf2Blocks(password, salt, c, l - 1) + BlockF(password, salt, l, c)
  }

  const ITERATIONS: nat := 4096

  lemma TwoBlocks(password: seq<Byte>, salt: seq<Byte>, c: nat)
    requires 1 <= c
    ensures Pbkdf2Blocks(password, salt, c, 2) == BlockF(password, salt, 1, c) + BlockF(password, salt, 2, c)
  {
    assert Pbkdf2Blocks(password, salt, c, 0) == [];
    assert Pbkdf2Blocks(password, salt, c, 1) == BlockF(password, salt, 1, c);
  }

  // ----- the code -----

  /** The two pads of both HMAC routines: the key in 65 zeroed bytes, 64 of them xored. */
  method Pads(key: seq<Byte>) returns (ipad: seq<Byte>, opad: seq<Byte>)
    requires |key| <= BLOCK
    ensures var k := key + Zeros(BLOCK - |key|); ipad == XorAll(k, 0x36) && opad == XorAll(k, 0x5c)
  {
    var k_ipad := new Byte[65](_ => 0);
    var k_opad := new Byte[65](_ => 0);
    CopyInto(k_ipad, 0, key);
    CopyInto(k_opad, 0, key);
    ghost var k := key + Zeros(BLOCK - |key|);
    assert k_ipad[..BLOCK] == k && k_opad[..BLOCK] == k;
    for i := 0 to BLOCK
      invariant forall j :: 0 <= j < i ==> k_ipad[j] == XorByte(k[j], 0x36) && k_opad[j] == XorByte(k[j], 0x5c)
      invariant forall j :: i <= j < BLOCK ==> k_ipad[j] == k[j] && k_opad[j] == k[j]
    {
      k_ipad[i] := XorByte(k_ipad[i], 0x36);
      k_opad[i] := XorByte(k_opad[i], 0x5c);
    }
    ipad, opad := k_ipad[..BLOCK], k_opad[..BLOCK];
  }

  /** MD5Final on a context that was fed m. */
  method Md5Of(context: Md5.MD5Context, ghost m: seq<Byte>) returns (d: seq<Byte>)
    requires context.Valid() && context.fed == m
    modifies context.buf, context.inb
    ensures d == Md5.Digest(m)
  {
    d := context.MD5Final();
  }

  method HmacMd5(key: seq<Byte>, data: seq<Byte>) returns (mac: seq<Byte>)
    requires |key| < TWO32 && |data| < TWO32
    ensures mac == Mac(Md5.Digest, key, data)
  {
    var k := key;
    if |key| > BLOCK {
      var ttcontext := new Md5.MD5Context();
      ttcontext.MD5Update(key);
      EmptyPrefix(key);
      k := Md5Of(ttcontext, key);
    }
    var ipad, opad := Pads(k);
    var inner := Md5Both(ipad, data);
    mac := Md5Both(opad, inner);
  }

  method Md5Both(a: seq<Byte>, b: seq<Byte>) returns (d: seq<Byte>)
    requires |a| < TWO32 && |b| < TWO32
    ensures d == Md5.Digest(a + b)
  {
    var context := new Md5.MD5Context();
    context.MD5Update(a);
    context.MD5Update(b);
    EmptyPrefix(a);
    d := Md5Of(context, a + b);
  }

  /** MD5(key | data | key). */
  method Md5Mac(key: seq<Byte>, data: seq<Byte>) returns (mac: seq<Byte>)
    requires |key| < TWO32 && |data| < TWO32
    ensures mac == Md5.Digest(key + data + key)
  {
    var context := new Md5.MD5Context();
    context.MD5Update(key);
    context.MD5Update(data);
    context.MD5Update(key);
    EmptyPrefix(key);
    mac := Md5Of(context, key + data + key);
  }

  /** SHAFinal on a context that was fed m. */
  method Sha1Of(context: Sha1.SHA_CTX, ghost m: seq<Byte>) returns (d: seq<Byte>)
    requires context.Valid() && context.fed == m
    modifies context, context.H, context.W
    ensures d == Sha1.Digest(m)
  {
    d := context.SHAFinal();
  }

  method Sha1Both(a: seq<Byte>, b: seq<Byte>) returns (d: seq<Byte>)
    ensures d == Sha1.Digest(a + b)
  {
    var context := new Sha1.SHA_CTX();
    context.SHAUpdate(a);
    context.SHAUpdate(b);
    EmptyPrefix(a);
    d := Sha1Of(context, a + b);
  }

  method HashKey(a: seq<Byte>) returns (d: seq<Byte>)
    ensures d == Sha1.Digest(a)
  {
    var tctx := new Sha1.SHA_CTX();
    tctx.SHAUpdate(a);
    EmptyPrefix(a);
    d := Sha1Of(tctx, a);
  }

  lemma MacSha1Is(key: seq<Byte>, text: seq<Byte>, k: seq<Byte>)
    requires |k| <= BLOCK && k == if |key| > BLOCK then Sha1.Digest(key) else key
    ensures var z := k + Zeros(BLOCK - |k|);
            MacSha1(key, text) == Sha1.Digest(XorAll(z, 0x5c) + Sha1.Digest(XorAll(z, 0x36) + text))
  {
  }

  method MacOfShortKey(text: seq<Byte>, k: seq<Byte>, ghost key: seq<Byte>) returns (digest: seq<Byte>)
    requires |k| <= BLOCK && k == if |key| > BLOCK then Sha1.Digest(key) else key
    ensures digest == MacSha1(key, text)
  {
    var ipad, opad := Pads(k);
    var inner := Sha1Both(ipad, text);
    digest := Sha1Both(opad, inner);
    MacSha1Is(key, text, k);
  }

  /**
   * HMAC-SHA-1 of the first key_len bytes of the caller's key buffer. A key
   * longer than a block is hashed into that very buffer.
   */
  method HmacSha1(text: seq<Byte>, key: array<Byte>, key_len: nat) returns (digest: seq<Byte>)
    requires key_len <= key.Length
    modifies key
    ensures digest == MacSha1(old(key[..key_len]), text)
    ensures key_len <= BLOCK ==> key[..] == old(key[..])
    ensures key_len > BLOCK ==> key[..] == Sha1.Digest(old(key[..key_len])) + old(key[20..])
  {
    var k := key[..key_len];
    if key_len > BLOCK {
      k := HashKey(key[..key_len]);
      CopyInto(key, 0, k);
      EmptyPrefix(k);
      assert key[..20] == k;
    }
    digest := MacOfShortKey(text, k, old(key[..key_len]));
  }

  /** F of the passphrase derivation, into output from offset at. */
  method F(password: array<Byte>, ssid: seq<Byte>, iterations: nat, count: nat, output: array<Byte>, at: nat)
    requires password.Length <= BLOCK && |ssid| <= 32 && 1 <= iterations && count < TWO32
    requires at + 20 <= output.Length && output != password
    modifies password, output
    ensures password[..] == old(password[..])
    ensures output[..]
            == old(output[..])[..at] + BlockF(old(password[..]), ssid, count, iterations) + old(output[..])[at + 20..]
  {
    ghost var P := password[..];
    var digest1 := ShortHmac(ssid + BigBytes(count), password);
    var out := digest1;
    for i := 1 to iterations
      invariant password[..] == P && output[..] == old(output[..])
      invariant digest1 == U(P, ssid, count, i) && out == BlockF(P, ssid, count, i)
    {
      var digest := ShortHmac(digest1, password);
      NextBlockF(P, ssid, count, i, digest1, digest);
      digest1 := digest;
      out := XorSeq(out, digest);
    }
    CopyInto(output, at, out);
  }

  lemma NextBlockF(P: seq<Byte>, ssid: seq<Byte>, count: nat, i: nat, u: seq<Byte>, v: seq<Byte>)
    requires 1 <= i && count < TWO32 && u == U(P, ssid, count, i) && v == MacSha1(P, u)
    ensures v == U(P, ssid, count, i + 1)
    ensures BlockF(P, ssid, count, i + 1) == XorSeq(BlockF(P, ssid, count, i), v)
  {
  }

  method ShortHmac(text: seq<Byte>, password: array<Byte>) returns (digest: seq<Byte>)
    requires password.Length <= BLOCK
    modifies password
    ensures password[..] == old(password[..])
    ensures digest == MacSha1(old(password[..]), text)
  {
    assert password[..password.Length] == password[..];
    digest := HmacSha1(text, password, password.Length);
  }

  lemma TwoWritten(start: seq<Byte>, middle: seq<Byte>, end: seq<Byte>, password: seq<Byte>, salt: seq<Byte>, c: nat)
    requires |start| >= 40 && 1 <= c
    requires middle == start[..0] + BlockF(password, salt, 1, c) + start[20..]
    requires end == middle[..20] + BlockF(password, salt, 2, c) + middle[40..]
    ensures end[..40] == Pbkdf2Blocks(password, salt, c, 2) && end[40..] == start[40..]
  {
    TwoBlocks(password, salt, c);
  }

  /** Two blocks of derived key, one after the other. */
  method DeriveTwo(password: array<Byte>, ssid: seq<Byte>, iterations: nat, output: array<Byte>)
    requires password.Length <= BLOCK && |ssid| <= 32 && 1 <= iterations
    requires output.Length >= 40 && output != password
    modifies password, output
    ensures password[..] == old(password[..])
    ensures output[..40] == Pbkdf2Blocks(old(password[..]), ssid, iterations, 2)
    ensures output[40..] == old(output[40..])
  {
    ghost var P, start := password[..], output[..];
    F(password, ssid, iterations, 1, output, 0);
    ghost var middle := output[..];
    F(password, ssid, iterations, 2, output, 20);
    TwoWritten(start, middle, output[..], P, ssid, iterations);
  }

  /**
   * The pre-shared key: PBKDF2 with 4096 iterations, 40 bytes of it, unless the
   * passphrase or the network name is too long.
   */
  method PasswordHash(password: array<Byte>, ssid: seq<Byte>, output: array<Byte>) returns (r: int)
    requires output.Length >= 40 && output != password
    modifies password, output
    ensures password[..] == old(password[..])
    ensures r == if password.Length > 63 || |ssid| > 32 then 0 else 1
    ensures r == 0 ==> output[..] == old(output[..])
    ensures r == 1 ==> output[..40] == Pbkdf2Blocks(old(password[..]), ssid, 4096, 2)
    ensures r == 1 ==> output[40..] == old(output[40..])
  {
    if password.Length > 63 || |ssid| > 32 {
      return 0;
    }
    DeriveTwo(password, ssid, ITERATIONS, output);
    return 1;
  }
}
