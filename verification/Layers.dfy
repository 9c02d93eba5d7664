/**
 * The concrete cipher layers over abstract primitives, and the pipeline built from a
 * configuration.
 */
module Layers {
  import opened Wrappers
  import opened Frames
  import opened Pipeline

  // ----------------------------------------------- PKCS #7 padding, 16-byte blocks

  function PadLength(n: nat): (k: nat)
    ensures 1 <= k <= 16 && (n + k) % 16 == 0
  {
    16 - n % 16
  }

  function Pad(x: Bytes): (r: Bytes)
    ensures |r| == |x| + PadLength(|x|)
  {
    var k := PadLength(|x|);
    x + seq(k, _ => k)
  }

  function Unpad(p: Bytes): Option<Bytes> {
    if p == [] || |p| % 16 != 0 then None
    else
      var k := p[|p| - 1];
      if 1 <= k <= 16 && forall i :: |p| - k <= i < |p| ==> p[i] == k then Some(p[..|p| - k]) else None
  }

  /** PKCS #7: between 1 and 16 bytes up to whole blocks, each the number of bytes added. */
  lemma PaddingBytes(x: Bytes)
    ensures var k := |Pad(x)| - |x|;
      && 1 <= k <= 16 && |Pad(x)| % 16 == 0
      && x <= Pad(x) && forall i :: |x| <= i < |Pad(x)| ==> Pad(x)[i] == k
  {
  }

  lemma UnpadPad(x: Bytes)
    ensures Unpad(Pad(x)) == Some(x)
  {
  }

  // The padding is determined by the data: only Pad(x) unpads to x.
  lemma PadUnpad(p: Bytes)
    requires Unpad(p).Some?
    ensures Pad(Unpad(p).value) == p
  {
  }

  // ------------------------------------------------------------------- the ciphers

  // `Camellia256GCMCipher`: CBC with a MAC over iv and ciphertext; iv, mac, ciphertext.
  function Camellia(cbcEncrypt: (Bytes, Bytes) -> Bytes, cbcDecrypt: (Bytes, Bytes) -> Bytes,
                    mac: Bytes -> Bytes): Cipher
  {
    Cipher("camellia-256-gcm",
           (iv: Bytes, x: Bytes) => iv + mac(iv + cbcEncrypt(iv, Pad(x))) + cbcEncrypt(iv, Pad(x)),
           (m: Bytes) => CamelliaOpen(cbcDecrypt, mac, m),
           16, 32, true)
  }

  // A slice past the end is empty, as in the original.
  function Slice(m: Bytes, from: nat, to: nat): Bytes
    requires from <= to
  {
    if |m| < from then [] else if |m| < to then m[from..] else m[from..to]
  }

  function CamelliaOpen(cbcDecrypt: (Bytes, Bytes) -> Bytes, mac: Bytes -> Bytes, m: Bytes): Option<Bytes> {
    var iv, tag, ct := Slice(m, 0, 16), Slice(m, 16, 48), Slice(m, 48, if |m| < 48 then 48 else |m|);
    if tag != mac(iv + ct) || |ct| % 16 != 0 then None else Unpad(cbcDecrypt(iv, ct))
  }

  ghost predicate CbcOk(cbcEncrypt: (Bytes, Bytes) -> Bytes, cbcDecrypt: (Bytes, Bytes) -> Bytes, mac: Bytes -> Bytes) {
    && (forall iv, x :: |iv| == 16 && |x| % 16 == 0 ==>
          |cbcEncrypt(iv, x)| == |x| && cbcDecrypt(iv, cbcEncrypt(iv, x)) == x)
    && (forall x :: |mac(x)| == 32)
  }

  /** The Camellia layer meets the cipher contract for any CBC mode and 32-byte MAC. */
  lemma CamelliaMeetsContract(e: (Bytes, Bytes) -> Bytes, d: (Bytes, Bytes) -> Bytes, mac: Bytes -> Bytes)
    requires CbcOk(e, d, mac)
    ensures Camellia(e, d, mac).Valid()
  {
    var c := Camellia(e, d, mac);
    forall iv, x | c.NonceOk(iv)
      ensures c.decrypt(c.encrypt(iv, x)) == Some(x)
      ensures |c.encrypt(iv, x)| == |x| + c.Growth(|x|)
    {
      var ct := e(iv, Pad(x));
      var tag := mac(iv + ct);
      var m := iv + tag + ct;
      assert c.encrypt(iv, x) == m;
      assert |ct| == |Pad(x)| && d(iv, ct) == Pad(x);
      assert Slice(m, 0, 16) == iv && Slice(m, 16, 48) == tag && Slice(m, 48, |m|) == ct;
      UnpadPad(x);
      assert CamelliaOpen(d, mac, m) == Some(x);
    }
  }

  /** IV, MAC over IV and ciphertext, ciphertext of the padded text; opening gives the text back. */
  lemma CamelliaLayout(e: (Bytes, Bytes) -> Bytes, d: (Bytes, Bytes) -> Bytes, mac: Bytes -> Bytes,
                       iv: Bytes, x: Bytes)
    requires CbcOk(e, d, mac) && |iv| == 16
    ensures var m := Camellia(e, d, mac).encrypt(iv, x); var ct := e(iv, Pad(x));
      && m == iv + mac(iv + ct) + ct && |m| >= 48 && m[..16] == iv
      && CamelliaOpen(d, mac, m) == Some(x)
  {
    var ct := e(iv, Pad(x));
    var m := iv + mac(iv + ct) + ct;
    assert Slice(m, 0, 16) == iv && Slice(m, 16, 48) == mac(iv + ct) && Slice(m, 48, |m|) == ct;
    UnpadPad(x);
  }

  /**
   * The Camellia layer opens a message exactly when it is what the layer would make of the text with
   * the message's own IV: no other message opens.  For any CBC mode that is a permutation of whole
   * blocks.
   */
  lemma CamelliaOpensExactly(e: (Bytes, Bytes) -> Bytes, d: (Bytes, Bytes) -> Bytes, mac: Bytes -> Bytes,
                             m: Bytes, x: Bytes)
    requires CbcOk(e, d, mac)
    requires forall iv, y :: |iv| == 16 && |y| % 16 == 0 ==> |d(iv, y)| == |y| && e(iv, d(iv, y)) == y
    ensures CamelliaOpen(d, mac, m) == Some(x) <==> |m| >= 48 && m == Camellia(e, d, mac).encrypt(m[..16], x)
  {
    if CamelliaOpen(d, mac, m) == Some(x) {
      CamelliaTag(d, mac, m);
      PadUnpad(d(m[..16], m[48..]));
      CamelliaLayout(e, d, mac, m[..16], x);
      assert m == m[..16] + m[16..48] + m[48..];
    }
    if |m| >= 48 && m == Camellia(e, d, mac).encrypt(m[..16], x) {
      CamelliaLayout(e, d, mac, m[..16], x);
    }
  }

  /** A Camellia message opens only if its tag is the MAC of its IV and ciphertext. */
  lemma CamelliaTag(d: (Bytes, Bytes) -> Bytes, mac: Bytes -> Bytes, m: Bytes)
    requires CamelliaOpen(d, mac, m).Some? && forall x :: |mac(x)| == 32
    ensures |m| >= 48 && |m[48..]| % 16 == 0
    ensures m[16..48] == mac(m[..16] + m[48..]) && CamelliaOpen(d, mac, m) == Unpad(d(m[..16], m[48..]))
  {
    assert |Slice(m, 16, 48)| == 32;
    assert Slice(m, 0, 16) == m[..16] && Slice(m, 16, 48) == m[16..48] && Slice(m, 48, |m|) == m[48..];
  }

  // AES-256-GCM and ChaCha20-Poly1305: the nonce, then what the library seals.
  function Aead(name: string, seal: (Bytes, Bytes) -> Bytes, open: (Bytes, Bytes) -> Option<Bytes>): Cipher {
    Cipher(name,
           (nonce: Bytes, x: Bytes) => nonce + seal(nonce, x),
           (m: Bytes) => open(Slice(m, 0, 12), Slice(m, 12, if |m| < 12 then 12 else |m|)),
           12, 16, false)
  }

  /** The nonce comes first, then what the library sealed; a message is opened in the same two parts. */
  lemma AeadLayout(name: string, seal: (Bytes, Bytes) -> Bytes, open: (Bytes, Bytes) -> Option<Bytes>,
                   nonce: Bytes, x: Bytes, m: Bytes)
    requires |m| >= 12
    ensures Aead(name, seal, open).encrypt(nonce, x) == nonce + seal(nonce, x)
    ensures Aead(name, seal, open).decrypt(m) == open(m[..12], m[12..])
  {
    assert Slice(m, 0, 12) == m[..12] && Slice(m, 12, |m|) == m[12..];
  }

  ghost predicate SealOk(seal: (Bytes, Bytes) -> Bytes, open: (Bytes, Bytes) -> Option<Bytes>) {
    forall nonce, x :: |nonce| == 12 ==> open(nonce, seal(nonce, x)) == Some(x) && |seal(nonce, x)| == |x| + 16
  }

  lemma AeadMeetsContract(name: string, seal: (Bytes, Bytes) -> Bytes, open: (Bytes, Bytes) -> Option<Bytes>)
    requires SealOk(seal, open)
    ensures Aead(name, seal, open).Valid()
  {
    var c := Aead(name, seal, open);
    forall nonce, x | c.NonceOk(nonce)
      ensures c.decrypt(c.encrypt(nonce, x)) == Some(x)
      ensures |c.encrypt(nonce, x)| == |x| + c.Growth(|x|)
    {
      var m := nonce + seal(nonce, x);
      assert Slice(m, 0, 12) == nonce && Slice(m, 12, |m|) == seal(nonce, x);
    }
  }

  // ------------------------------------------------------------ from a configuration

  datatype Algorithm = Algorithm(keySize: nat, make: Bytes -> Cipher)

  datatype Registry = Registry(ciphers: map<string, Algorithm>, compressors: map<string, Compressor>)

  datatype ConfigError = UnknownCompressor(name: string) | UnknownCipher(name: string)

  // `hkdf(secret, info, length)`
  type Kdf = (Bytes, string, nat) -> Bytes

  function DeriveKey(kdf: Kdf, secret: Bytes, name: string, index: nat, length: nat): Bytes {
    if length == 0 then [] else kdf(secret, KeyInfo(name, index), length)
  }

  function KeyInfo(name: string, index: nat): string {
    "cipher:" + name + ":" + Decimal(index)
  }

  function Decimal(n: nat): (s: string)
    ensures ':' !in s && s != []
  {
    if n < 10 then [Digit(n)] else Decimal(n / 10) + [Digit(n % 10)]
  }

  function Digit(d: nat): (c: char)
    requires d < 10
    ensures c != ':'
  {
    "0123456789"[d]
  }

  // The number a string of decimal digits denotes.
  function Value(s: string): int {
    if s == [] then 0 else 10 * Value(s[..|s| - 1]) + (s[|s| - 1] as int - '0' as int)
  }

  /** Decimal(n) is the usual notation: digits only, denoting n, without leading zeros. */
  lemma {:induction false} DecimalDenotes(n: nat)
    ensures Value(Decimal(n)) == n
    ensures forall c :: c in Decimal(n) ==> '0' <= c <= '9'
    ensures n > 0 ==> Decimal(n)[0] != '0'
    ensures |Decimal(0)| == 1
    decreases n
  {
    if n < 10 {
      assert Decimal(n)[..0] == [] && Value([]) == 0;
    } else {
      DecimalDenotes(n / 10);
      assert Decimal(n)[..|Decimal(n)| - 1] == Decimal(n / 10);
    }
  }

  lemma DigitInjective(d: nat, e: nat)
    requires d < 10 && e < 10 && Digit(d) == Digit(e)
    ensures d == e
  {
  }

  lemma {:induction false} DecimalInjective(m: nat, n: nat)
    requires Decimal(m) == Decimal(n)
    ensures m == n
    decreases m
  {
    var s, t := Decimal(m), Decimal(n);
    assert s[|s| - 1] == Digit(m % 10) && t[|t| - 1] == Digit(n % 10);
    DigitInjective(m % 10, n % 10);
    if m >= 10 && n >= 10 {
      assert s[..|s| - 1] == Decimal(m / 10) && t[..|t| - 1] == Decimal(n / 10);
      DecimalInjective(m / 10, n / 10);
    }
  }

  // The text after the last colon and the text before it can be told apart.
  lemma LastColon(x: string, d: string, y: string, e: string)
    requires ':' !in d && ':' !in e && x + [':'] + d == y + [':'] + e
    ensures x == y && d == e
  {
    var s := x + [':'] + d;
    forall i | |x| < i < |s|
      ensures s[i] != ':'
    {
      assert s[i] == d[i - |x| - 1];
    }
    forall i | |y| < i < |s|
      ensures s[i] != ':'
    {
      assert s[i] == e[i - |y| - 1];
    }
    assert s[|x|] == ':' && s[|y|] == ':';
    assert s[..|x|] == x && s[..|y|] == y;
    assert s[|x| + 1..] == d && s[|y| + 1..] == e;
  }

  /**
   * The key derivation context names the cipher and its position unambiguously, whatever the names
   * contain: two layers share one only if they are the same cipher at the same position.
   */
  lemma KeyInfoInjective(name1: string, i: nat, name2: string, j: nat)
    requires KeyInfo(name1, i) == KeyInfo(name2, j)
    ensures name1 == name2 && i == j
  {
    assert KeyInfo(name1, i) == ("cipher:" + name1) + [':'] + Decimal(i);
    assert KeyInfo(name2, j) == ("cipher:" + name2) + [':'] + Decimal(j);
    LastColon("cipher:" + name1, Decimal(i), "cipher:" + name2, Decimal(j));
    assert ("cipher:" + name1)[7..] == name1 && ("cipher:" + name2)[7..] == name2;
    DecimalInjective(i, j);
  }

  // Key derivation that tells secrets and contexts apart and gives keys of the length asked for.
  ghost predicate KdfOk(kdf: Kdf) {
    && (forall s, i, n :: |kdf(s, i, n)| == n)
    && (forall s, i, s', i', n :: n > 0 && kdf(s, i, n) == kdf(s', i', n) ==> s == s' && i == i')
  }

  /**
   * With such a derivation two layers have the same key only if they have the same secret, are the
   * same cipher and are at the same position, or their ciphers take no key.
   */
  lemma KeysTellLayersApart(kdf: Kdf, s: Bytes, name: string, i: nat, m: nat, s': Bytes, name': string, j: nat, n: nat)
    requires KdfOk(kdf) && DeriveKey(kdf, s, name, i, m) == DeriveKey(kdf, s', name', j, n)
    ensures m == n
    ensures m > 0 ==> s == s' && name == name' && i == j
  {
    assert |DeriveKey(kdf, s, name, i, m)| == m && |DeriveKey(kdf, s', name', j, n)| == n;
    if m > 0 {
      KeyInfoInjective(name, i, name', j);
    }
  }

  // The keys of the layers, in configuration order.
  function LayerKeys(reg: Registry, kdf: Kdf, secret: Bytes, names: seq<string>): (keys: seq<Bytes>)
    requires forall n :: n in names ==> n in reg.ciphers
    ensures |keys| == |names|
  {
    seq(|names|, i requires 0 <= i < |names| =>
      DeriveKey(kdf, secret, names[i], i, reg.ciphers[names[i]].keySize))
  }

  lemma DistinctKeys(reg: Registry, kdf: Kdf, secret: Bytes, names: seq<string>, i: nat, j: nat)
    requires KdfOk(kdf) && i < j < |names| && forall n :: n in names ==> n in reg.ciphers
    ensures var keys := LayerKeys(reg, kdf, secret, names); keys[i] == keys[j] ==> keys[i] == []
  {
    var keys := LayerKeys(reg, kdf, secret, names);
    if keys[i] == keys[j] {
      KeysTellLayersApart(kdf, secret, names[i], i, reg.ciphers[names[i]].keySize,
                          secret, names[j], j, reg.ciphers[names[j]].keySize);
      assert |keys[i]| == 0;
    }
  }

  /**
   * `from_config`: the layers in configuration order, each cipher keyed for its name and position;
   * or the first unknown compressor, or else the first unknown cipher.
   */
  method FromConfig(reg: Registry, kdf: Kdf, secret: Bytes, cipherNames: seq<string>, compressorNames: seq<string>)
      returns (r: Result<Pipe, ConfigError>)
    ensures r.Ok? <==> (forall n :: n in compressorNames ==> n in reg.compressors)
                       && (forall n :: n in cipherNames ==> n in reg.ciphers)
    ensures r.Ok? ==> |r.value.compressors| == |compressorNames| && |r.value.ciphers| == |cipherNames|
    ensures r.Ok? ==> forall i :: 0 <= i < |compressorNames| ==>
              r.value.compressors[i] == reg.compressors[compressorNames[i]]
    ensures r.Ok? ==>
              var keys := LayerKeys(reg, kdf, secret, cipherNames);
              && (forall i :: 0 <= i < |cipherNames| ==>
                    var a := reg.ciphers[cipherNames[i]];
                    && r.value.ciphers[i] == a.make(keys[i])
                    && keys[i] == if a.keySize == 0 then [] else
                                    kdf(secret, "cipher:" + cipherNames[i] + ":" + Decimal(i), a.keySize))
              && (KdfOk(kdf) ==>
                    forall i, j :: 0 <= i < j < |keys| && keys[i] != [] ==> keys[i] != keys[j])
    ensures r.Err? && r.error.UnknownCompressor? ==>
              exists i :: 0 <= i < |compressorNames| && r.error.name == compressorNames[i]
                          && r.error.name !in reg.compressors
                          && forall j :: 0 <= j < i ==> compressorNames[j] in reg.compressors
    ensures r.Err? && r.error.UnknownCipher? ==>
              && (forall n :: n in compressorNames ==> n in reg.compressors)
              && exists i :: 0 <= i < |cipherNames| && r.error.name == cipherNames[i] && r.error.name !in reg.ciphers
                          && forall j :: 0 <= j < i ==> cipherNames[j] in reg.ciphers
  {
    var compressors: seq<Compressor> := [];
    for i := 0 to |compressorNames|
      invariant |compressors| == i
      invariant forall j :: 0 <= j < i ==>
                  compressorNames[j] in reg.compressors && compressors[j] == reg.compressors[compressorNames[j]]
    {
      var name := compressorNames[i];
      if name !in reg.compressors {
        return Err(UnknownCompressor(name));
      }
      compressors := compressors + [reg.compressors[name]];
    }
    var ciphers: seq<Cipher> := [];
    for i := 0 to |cipherNames|
      invariant |ciphers| == i
      invariant forall j :: 0 <= j < i ==> cipherNames[j] in reg.ciphers
      invariant forall j :: 0 <= j < i ==>
        var a := reg.ciphers[cipherNames[j]];
        ciphers[j] == a.make(DeriveKey(kdf, secret, cipherNames[j], j, a.keySize))
    {
      var name := cipherNames[i];
      if name !in reg.ciphers {
        return Err(UnknownCipher(name));
      }
      var a := reg.ciphers[name];
      ciphers := ciphers + [a.make(DeriveKey(kdf, secret, name, i, a.keySize))];
    }
    if KdfOk(kdf) {
      forall i, j | 0 <= i < j < |cipherNames|
        ensures var keys := LayerKeys(reg, kdf, secret, cipherNames); keys[i] == keys[j] ==> keys[i] == []
      {
        DistinctKeys(reg, kdf, secret, cipherNames, i, j);
      }
    }
    return Ok(Pipe(ciphers, compressors));
  }
}
