/**
 * The layered compression and encryption pipeline, over ciphers and compressors that meet
 * the contract of crypto/base.py.  A layer that raises answers None.
 */
module Pipeline {
  import opened Wrappers
  import opened Frames

  // `encrypt` takes the random nonce as its first argument.
  datatype Cipher = Cipher(
    name: string,
    encrypt: (Bytes, Bytes) -> Bytes,
    decrypt: Bytes -> Option<Bytes>,
    nonceSize: nat,
    tagSize: nat,
    padded: bool)
  {
    function Overhead(): nat {
      nonceSize + tagSize
    }

    // What one encryption adds to n bytes.  A padding cipher fills up to a whole block, or
    // adds a whole block (PKCS #7 padding, section 6.3 of RFC 5652).
    function Growth(n: nat): nat {
      Overhead() + if padded then 16 - n % 16 else 0
    }

    // What the library chooses for a nonce.
    predicate NonceOk(nonce: Bytes) {
      |nonce| == nonceSize
    }

    ghost predicate Valid() {
      && (forall nonce, x :: NonceOk(nonce) ==> decrypt(encrypt(nonce, x)) == Some(x))
      && (forall nonce, x :: NonceOk(nonce) ==> |encrypt(nonce, x)| == |x| + Growth(|x|))
    }
  }

  datatype Compressor = Compressor(name: string, compress: Bytes -> Bytes, decompress: Bytes -> Option<Bytes>) {
    ghost predicate Valid() {
      forall x :: decompress(compress(x)) == Some(x)
    }
  }

  datatype Pipe = Pipe(ciphers: seq<Cipher>, compressors: seq<Compressor>) {
    ghost predicate Valid() {
      && (forall c :: c in ciphers ==> c.Valid())
      && (forall c :: c in compressors ==> c.Valid())
    }

    // One nonce for each cipher.
    ghost predicate NoncesOk(nonces: seq<Bytes>) {
      |nonces| == |ciphers| && forall i :: 0 <= i < |ciphers| ==> ciphers[i].NonceOk(nonces[i])
    }

    function OverheadPerChunk(): nat {
      Sum(ciphers)
    }

    /** `process` */
    method DoProcess(data: Bytes, nonces: seq<Bytes>) returns (r: Bytes)
      requires |nonces| == |ciphers|
      ensures r == Process(this, data, nonces)
    {
      r := data;
      for i := 0 to |compressors|
        invariant Compress(compressors[i..], r) == Compress(compressors, data)
      {
        r := compressors[i].compress(r);
      }
      ghost var inner := r;
      for i := 0 to |ciphers|
        invariant Encrypt(ciphers[i..], nonces[i..], r) == Encrypt(ciphers, nonces, inner)
      {
        r := ciphers[i].encrypt(nonces[i], r);
      }
    }

    /** `unprocess`: both loops run backwards. */
    method DoUnprocess(data: Bytes) returns (r: Option<Bytes>)
      ensures r == Unprocess(this, data)
    {
      r := Some(data);
      var i := |ciphers|;
      assert ciphers[..i] == ciphers;
      while i > 0 && r.Some?
        invariant 0 <= i <= |ciphers|
        invariant Decrypt(ciphers, data) == if r.Some? then Decrypt(ciphers[..i], r.value) else None
      {
        i := i - 1;
        assert ciphers[..i + 1][..i] == ciphers[..i];
        r := ciphers[i].decrypt(r.value);
      }
      i := |compressors|;
      assert compressors[..i] == compressors;
      ghost var inner := r;
      while i > 0 && r.Some?
        invariant 0 <= i <= |compressors|
        invariant inner.Some? ==>
                    Decompress(compressors, inner.value)
                    == if r.Some? then Decompress(compressors[..i], r.value) else None
        invariant inner.None? ==> r.None?
      {
        i := i - 1;
        assert compressors[..i + 1][..i] == compressors[..i];
        r := compressors[i].decompress(r.value);
      }
    }
  }

  function Compress(cs: seq<Compressor>, data: Bytes): Bytes
    decreases |cs|
  {
    if cs == [] then data else Compress(cs[1..], cs[0].compress(data))
  }

  function Encrypt(cs: seq<Cipher>, nonces: seq<Bytes>, data: Bytes): Bytes
    requires |nonces| == |cs|
    decreases |cs|
  {
    if cs == [] then data else Encrypt(cs[1..], nonces[1..], cs[0].encrypt(nonces[0], data))
  }

  function Process(p: Pipe, data: Bytes, nonces: seq<Bytes>): Bytes
    requires |nonces| == |p.ciphers|
  {
    Encrypt(p.ciphers, nonces, Compress(p.compressors, data))
  }

  function Decrypt(cs: seq<Cipher>, data: Bytes): Option<Bytes>
    decreases |cs|
  {
    if cs == [] then Some(data)
    else
      match cs[|cs| - 1].decrypt(data)
      case None => None
      case Some(x) => Decrypt(cs[..|cs| - 1], x)
  }

  function Decompress(cs: seq<Compressor>, data: Bytes): Option<Bytes>
    decreases |cs|
  {
    if cs == [] then Some(data)
    else
      match cs[|cs| - 1].decompress(data)
      case None => None
      case Some(x) => Decompress(cs[..|cs| - 1], x)
  }

  function Unprocess(p: Pipe, data: Bytes): Option<Bytes> {
    match Decrypt(p.ciphers, data)
    case None => None
    case Some(x) => Decompress(p.compressors, x)
  }

  function Sum(cs: seq<Cipher>): nat {
    if cs == [] then 0 else cs[0].Overhead() + Sum(cs[1..])
  }

  function PaddedLayers(cs: seq<Cipher>): nat {
    if cs == [] then 0 else (if cs[0].padded then 1 else 0) + PaddedLayers(cs[1..])
  }

  // ------------------------------------------------------------------- round trip

  // Peeling the outer layers first is peeling layer by layer.
  lemma {:induction false} DecryptSplit(c: Cipher, cs: seq<Cipher>, data: Bytes)
    ensures Decrypt([c] + cs, data) == match Decrypt(cs, data) case None => None case Some(x) => c.decrypt(x)
    decreases |cs|
  {
    if cs == [] {
      assert [c] + cs == [c] && [c][..0] == [];
    } else {
      var last := cs[|cs| - 1];
      assert ([c] + cs)[|cs|] == last && ([c] + cs)[..|cs|] == [c] + cs[..|cs| - 1];
      match last.decrypt(data)
      case None =>
      case Some(x) => DecryptSplit(c, cs[..|cs| - 1], x);
    }
  }

  lemma {:induction false} DecompressSplit(c: Compressor, cs: seq<Compressor>, data: Bytes)
    ensures Decompress([c] + cs, data) == match Decompress(cs, data) case None => None case Some(x) => c.decompress(x)
    decreases |cs|
  {
    if cs == [] {
      assert [c] + cs == [c] && [c][..0] == [];
    } else {
      var last := cs[|cs| - 1];
      assert ([c] + cs)[|cs|] == last && ([c] + cs)[..|cs|] == [c] + cs[..|cs| - 1];
      match last.decompress(data)
      case None =>
      case Some(x) => DecompressSplit(c, cs[..|cs| - 1], x);
    }
  }

  lemma {:induction false} DecryptEncrypt(cs: seq<Cipher>, nonces: seq<Bytes>, data: Bytes)
    requires |nonces| == |cs|
    requires forall i :: 0 <= i < |cs| ==> cs[i].Valid() && cs[i].NonceOk(nonces[i])
    ensures Decrypt(cs, Encrypt(cs, nonces, data)) == Some(data)
    decreases |cs|
  {
    if cs == [] {
    } else {
      var x := cs[0].encrypt(nonces[0], data);
      DecryptEncrypt(cs[1..], nonces[1..], x);
      DecryptSplit(cs[0], cs[1..], Encrypt(cs, nonces, data));
      assert cs == [cs[0]] + cs[1..];
      assert cs[0].Valid() && cs[0].NonceOk(nonces[0]);
    }
  }

  lemma {:induction false} DecompressCompress(cs: seq<Compressor>, data: Bytes)
    requires forall c :: c in cs ==> c.Valid()
    ensures Decompress(cs, Compress(cs, data)) == Some(data)
    decreases |cs|
  {
    if cs == [] {
    } else {
      assert cs[0] in cs;
      DecompressCompress(cs[1..], cs[0].compress(data));
      DecompressSplit(cs[0], cs[1..], Compress(cs, data));
      assert cs == [cs[0]] + cs[1..];
    }
  }

  /** For every list of layers and every choice of nonces, `unprocess` undoes `process`. */
  lemma UnprocessProcess(p: Pipe, data: Bytes, nonces: seq<Bytes>)
    requires p.Valid() && p.NoncesOk(nonces)
    ensures Unprocess(p, Process(p, data, nonces)) == Some(data)
  {
    DecryptEncrypt(p.ciphers, nonces, Compress(p.compressors, data));
    DecompressCompress(p.compressors, data);
  }

  // ------------------------------------------------------------------------ order

  lemma {:induction false} EncryptSnoc(cs: seq<Cipher>, nonces: seq<Bytes>, c: Cipher, nonce: Bytes, data: Bytes)
    requires |nonces| == |cs|
    ensures Encrypt(cs + [c], nonces + [nonce], data) == c.encrypt(nonce, Encrypt(cs, nonces, data))
    decreases |cs|
  {
    if cs == [] {
      assert cs + [c] == [c] && nonces + [nonce] == [nonce] && |[c][1..]| == 0;
    } else {
      assert (cs + [c])[1..] == cs[1..] + [c] && (nonces + [nonce])[1..] == nonces[1..] + [nonce];
      EncryptSnoc(cs[1..], nonces[1..], c, nonce, cs[0].encrypt(nonces[0], data));
    }
  }

  lemma {:induction false} CompressSnoc(cs: seq<Compressor>, c: Compressor, data: Bytes)
    ensures Compress(cs + [c], data) == c.compress(Compress(cs, data))
    decreases |cs|
  {
    if cs == [] {
      assert cs + [c] == [c] && |[c][1..]| == 0;
    } else {
      assert (cs + [c])[1..] == cs[1..] + [c];
      CompressSnoc(cs[1..], c, cs[0].compress(data));
    }
  }

  /**
   * The order of the layers: the last cipher is the outermost, and below all ciphers the last
   * compressor is the outermost; with no layers left the data is as it was.
   */
  lemma ProcessInOrder(cs: seq<Cipher>, ks: seq<Compressor>, c: Cipher, k: Compressor,
                       data: Bytes, nonces: seq<Bytes>, nonce: Bytes)
    requires |nonces| == |cs|
    ensures Process(Pipe(cs + [c], ks), data, nonces + [nonce]) == c.encrypt(nonce, Process(Pipe(cs, ks), data, nonces))
    ensures Process(Pipe([], ks + [k]), data, []) == k.compress(Process(Pipe([], ks), data, []))
    ensures Process(Pipe([], []), data, []) == data
  {
    EncryptSnoc(cs, nonces, c, nonce, Compress(ks, data));
    CompressSnoc(ks, k, data);
  }

  /** Peeling the ciphers alone gives the compressed data: compression comes first. */
  lemma CiphersAreOutside(p: Pipe, data: Bytes, nonces: seq<Bytes>)
    requires p.Valid() && p.NoncesOk(nonces)
    ensures Unprocess(Pipe(p.ciphers, []), Process(p, data, nonces)) == Some(Process(Pipe([], p.compressors), data, []))
  {
    DecryptEncrypt(p.ciphers, nonces, Compress(p.compressors, data));
  }

  /**
   * What `unprocess` does to any message, honest or not: it opens the last cipher, then goes on with
   * the others; then the last compressor; and it fails where one of them fails.
   */
  lemma UnprocessInOrder(cs: seq<Cipher>, ks: seq<Compressor>, c: Cipher, k: Compressor, m: Bytes)
    ensures Unprocess(Pipe(cs + [c], ks), m)
            == match c.decrypt(m) case None => None case Some(x) => Unprocess(Pipe(cs, ks), x)
    ensures Unprocess(Pipe([], ks + [k]), m)
            == match k.decompress(m) case None => None case Some(x) => Unprocess(Pipe([], ks), x)
    ensures Unprocess(Pipe([], []), m) == Some(m)
  {
    assert (cs + [c])[..|cs|] == cs && (ks + [k])[..|ks|] == ks;
  }

  // ----------------------------------------------------------------------- length

  lemma {:induction false} EncryptLength(cs: seq<Cipher>, nonces: seq<Bytes>, data: Bytes)
    requires |nonces| == |cs|
    requires forall i :: 0 <= i < |cs| ==> cs[i].Valid() && cs[i].NonceOk(nonces[i])
    ensures |data| + Sum(cs) + PaddedLayers(cs) <= |Encrypt(cs, nonces, data)|
    ensures |Encrypt(cs, nonces, data)| <= |data| + Sum(cs) + 16 * PaddedLayers(cs)
    decreases |cs|
  {
    if cs == [] {
    } else {
      assert cs[0].Valid() && cs[0].NonceOk(nonces[0]);
      EncryptLength(cs[1..], nonces[1..], cs[0].encrypt(nonces[0], data));
    }
  }

  /**
   * Without compressors the growth lies between the reported overhead plus 1 and plus 16 for each
   * padding layer; so the reported overhead is exact exactly when no layer pads.
   */
  lemma LengthGrowth(p: Pipe, data: Bytes, nonces: seq<Bytes>)
    requires p.Valid() && p.NoncesOk(nonces) && p.compressors == []
    ensures var m := PaddedLayers(p.ciphers); var n := |Process(p, data, nonces)|;
      && |data| + p.OverheadPerChunk() + m <= n <= |data| + p.OverheadPerChunk() + 16 * m
      && (n == |data| + p.OverheadPerChunk() <==> forall c :: c in p.ciphers ==> !c.padded)
  {
    EncryptLength(p.ciphers, nonces, data);
    NoPadding(p.ciphers);
  }

  lemma {:induction false} NoPadding(cs: seq<Cipher>)
    ensures PaddedLayers(cs) == 0 <==> forall c :: c in cs ==> !c.padded
  {
    if cs == [] {
    } else {
      NoPadding(cs[1..]);
      assert cs == [cs[0]] + cs[1..];
    }
  }
}
