/** The browser-side Kyber bridge of public/kyber.js: the closure state
    `sizes` and `initialized` that `ready` sets, the readiness guard of every
    operation, the buffers the KEM calls read and write, and the message
    encryption layered on top (a keystream derived from the shared secret,
    XORed into the message and framed after the KEM ciphertext).

    The KEM itself (the ML-KEM-512 primitive of FIPS 203 behind `cwrap`) is a
    parameter: a `Kem` value holding the three C entry points. */
module Kyber {
  import opened Wrappers

  /** Why a bridge operation throws. */
  datatype Error =
    | NotReady                              // `initialized` is false
    | RangeError                            // `view.set` of an input longer than its buffer
    | PrimitiveFailed                       // the C function returned a nonzero code
    | TooShort(expected: nat, actual: nat)  // `decrypt` input shorter than a ciphertext

  datatype Result<T> = Ok(value: T) | Err(error: Error)

  /** Byte lengths of the public key, secret key, KEM ciphertext and shared secret. */
  datatype Sizes = Sizes(pk: nat, sk: nat, ct: nat, ss: nat)

  /** The ML-KEM-512 parameter set (section 8 of FIPS 203): the lengths the
      bridge falls back to when the module reports none. */
  const MlKem512 := Sizes(800, 1632, 768, 32)

  /** What loading the WASM module yields: failure (script, factory or
      binding), or the values of the four size getters. */
  datatype Load = LoadFailed | Loaded(getters: Sizes)

  /** The three C entry points. Each gets its input buffers and yields the
      bytes it writes, or `None` for a nonzero return code. */
  datatype Kem = Kem(
    keypair: () -> Option<(seq<bv8>, seq<bv8>)>,
    encaps: seq<bv8> -> Option<(seq<bv8>, seq<bv8>)>,
    decaps: (seq<bv8>, seq<bv8>) -> Option<seq<bv8>>)

  datatype KeyPair = KeyPair(publicKey: seq<bv8>, secretKey: seq<bv8>)
  datatype Encapsulation = Encapsulation(ciphertext: seq<bv8>, sharedSecret: seq<bv8>)

  /** `x || d` for a size: the getter's value unless it is zero. */
  function OrDefault(x: nat, d: nat): (r: nat)
    requires d > 0
    ensures r > 0
    ensures x != 0 ==> r == x
    ensures x == 0 ==> r == d
  {
    if x != 0 then x else d
  }

  /** The sizes `ready` stores: each getter value, or its ML-KEM-512 default. */
  function WithDefaults(g: Sizes): (s: Sizes)
    ensures s.pk > 0 && s.sk > 0 && s.ct > 0 && s.ss > 0
    ensures g.pk != 0 ==> s.pk == g.pk
    ensures g.sk != 0 ==> s.sk == g.sk
    ensures g.ct != 0 ==> s.ct == g.ct
    ensures g.ss != 0 ==> s.ss == g.ss
    ensures g == Sizes(0, 0, 0, 0) ==> s == MlKem512
  {
    Sizes(OrDefault(g.pk, 800), OrDefault(g.sk, 1632), OrDefault(g.ct, 768), OrDefault(g.ss, 32))
  }

  /** A zero-filled `Uint8Array(n)` after `view.set(bytes)`: `bytes` followed
      by zeros, provided it fits. */
  function Fit(bytes: seq<bv8>, n: nat): (b: seq<bv8>)
    requires |bytes| <= n
    ensures |b| == n && b[..|bytes|] == bytes
    ensures forall i :: |bytes| <= i < n ==> b[i] == 0
  {
    bytes + seq(n - |bytes|, _ => 0)
  }

  /** The bytes read back from a buffer of `n` bytes the C side wrote
      `out` into. */
  function ReadBack(out: seq<bv8>, n: nat): (b: seq<bv8>)
    ensures |b| == n
    ensures |out| >= n ==> b == out[..n]
    ensures |out| < n ==> b[..|out|] == out
  {
    if |out| >= n then out[..n] else Fit(out, n)
  }

  /** Keystream byte `i`: the XOR of three consecutive secret bytes, cyclically.
      With an empty secret every index is undefined and the XOR of three
      undefined values is 0. */
  function KeyByte(ss: seq<bv8>, i: nat): (k: bv8)
    ensures |ss| == 0 ==> k == 0
    ensures |ss| == 1 ==> k == ss[0]
    ensures |ss| > 0 ==> k ^ ss[(i + 1) % |ss|] ^ ss[(i + 2) % |ss|] == ss[i % |ss|]
  {
    if |ss| == 0 then 0
    else ss[i % |ss|] ^ ss[(i + 1) % |ss|] ^ ss[(i + 2) % |ss|]
  }

  /** The keystream XOR applied to `data`. */
  function Scrambled(data: seq<bv8>, ss: seq<bv8>): (r: seq<bv8>)
    ensures |r| == |data|
    ensures forall i :: 0 <= i < |r| ==> r[i] ^ data[i] == KeyByte(ss, i)
  {
    seq(|data|, i requires 0 <= i < |data| => data[i] ^ KeyByte(ss, i))
  }

  /** Scrambling twice with the same secret gives the data back. */
  lemma ScrambleInvolution(data: seq<bv8>, ss: seq<bv8>)
    ensures Scrambled(Scrambled(data, ss), ss) == data
  {
    var once := Scrambled(data, ss);
    var twice := Scrambled(once, ss);
    forall i | 0 <= i < |data|
      ensures twice[i] == data[i]
    {
      assert once[i] == data[i] ^ KeyByte(ss, i);
      assert twice[i] == once[i] ^ KeyByte(ss, i);
    }
  }

  /** The keystream repeats with the length of the secret: with the 32-byte
      ML-KEM-512 secret, message bytes 32 apart are XORed with the same byte. */
  lemma KeystreamPeriodic(ss: seq<bv8>, i: nat)
    ensures KeyByte(ss, i + |ss|) == KeyByte(ss, i)
  {
    if |ss| > 0 {
      ModPeriod(i, |ss|);
      ModPeriod(i + 1, |ss|);
      ModPeriod(i + 2, |ss|);
    }
  }

  lemma ModPeriod(a: nat, n: nat)
    requires n > 0
    ensures (a + n) % n == a % n
  {
    var q, r := a / n, a % n;
    var q', r' := (a + n) / n, (a + n) % n;
    assert (q' - q - 1) * n == r - r' by {
      assert a == q * n + r && a + n == q' * n + r';
    }
    var k := q' - q - 1;
    if k > 0 {
      assert k * n == (k - 1) * n + n;
    } else if k < 0 {
      assert k * n == -((-k - 1) * n) - n;
    }
  }

  /** The module closure of public/kyber.js: `sizes` and `initialized`. */
  class KyberBridge {
    var sizes: Sizes
    var initialized: bool

    /** Once ready, every size is positive. */
    ghost predicate Valid()
      reads this
    {
      initialized ==> sizes.pk > 0 && sizes.sk > 0 && sizes.ct > 0 && sizes.ss > 0
    }

    constructor ()
      ensures Valid() && !initialized && sizes == Sizes(0, 0, 0, 32)
    {
      sizes := Sizes(0, 0, 0, 32);
      initialized := false;
    }

    /** `ready`: a no-op once initialized; otherwise a failed load leaves the
        state alone and yields false, and a load that completes stores the
        sizes with defaults and marks the bridge ready. */
    method Ready(load: Load) returns (ok: bool)
      requires Valid()
      modifies this
      ensures Valid()
      ensures old(initialized) ==> ok && sizes == old(sizes) && initialized
      ensures !old(initialized) && load.LoadFailed? ==>
        !ok && sizes == old(sizes) && !initialized
      ensures !old(initialized) && load.Loaded? ==>
        ok && initialized && sizes == WithDefaults(load.getters)
      ensures ok <==> initialized
    {
      if initialized {
        return true;
      }
      match load
      case LoadFailed =>
        ok := false;
      case Loaded(g) =>
        sizes := WithDefaults(g);
        initialized := true;
        ok := true;
    }

    /** `keypair`: both buffers of the configured sizes, read back after a
        successful call. */
    function Keypair(kem: Kem): (r: Result<KeyPair>)
      reads this
      ensures !initialized ==> r == Err(NotReady)
      ensures initialized && kem.keypair().None? ==> r == Err(PrimitiveFailed)
      ensures r.Ok? <==> initialized && kem.keypair().Some?
      ensures r.Ok? ==> |r.value.publicKey| == sizes.pk && |r.value.secretKey| == sizes.sk
      ensures r.Ok? ==> var out := kem.keypair().value;
        r.value == KeyPair(ReadBack(out.0, sizes.pk), ReadBack(out.1, sizes.sk))
    {
      if !initialized then Err(NotReady)
      else match kem.keypair()
        case None => Err(PrimitiveFailed)
        case Some(out) => Ok(KeyPair(ReadBack(out.0, sizes.pk), ReadBack(out.1, sizes.sk)))
    }

    /** `encapsulate`: the peer's key is copied into a public-key buffer (a
        longer key throws), and a ciphertext and a secret of the configured
        sizes come back. */
    function Encapsulate(kem: Kem, peerPk: seq<bv8>): (r: Result<Encapsulation>)
      reads this
      ensures !initialized ==> r == Err(NotReady)
      ensures initialized && |peerPk| > sizes.pk ==> r == Err(RangeError)
      ensures r.Ok? <==> initialized && |peerPk| <= sizes.pk && kem.encaps(Fit(peerPk, sizes.pk)).Some?
      ensures r.Ok? ==> |r.value.ciphertext| == sizes.ct && |r.value.sharedSecret| == sizes.ss
      ensures r.Ok? ==> var out := kem.encaps(Fit(peerPk, sizes.pk)).value;
        r.value == Encapsulation(ReadBack(out.0, sizes.ct), ReadBack(out.1, sizes.ss))
    {
      if !initialized then Err(NotReady)
      else if |peerPk| > sizes.pk then Err(RangeError)
      else match kem.encaps(Fit(peerPk, sizes.pk))
        case None => Err(PrimitiveFailed)
        case Some(out) => Ok(Encapsulation(ReadBack(out.0, sizes.ct), ReadBack(out.1, sizes.ss)))
    }

    /** `decapsulate`: ciphertext and secret key are copied into buffers of
        the configured sizes (either one too long throws), and a secret of
        the configured size comes back. */
    function Decapsulate(kem: Kem, ct: seq<bv8>, sk: seq<bv8>): (r: Result<seq<bv8>>)
      reads this
      ensures !initialized ==> r == Err(NotReady)
      ensures initialized && (|ct| > sizes.ct || |sk| > sizes.sk) ==> r == Err(RangeError)
      ensures r.Ok? <==>
        initialized && |ct| <= sizes.ct && |sk| <= sizes.sk && kem.decaps(Fit(ct, sizes.ct), Fit(sk, sizes.sk)).Some?
      ensures r.Ok? ==> |r.value| == sizes.ss
      ensures r.Ok? ==> r.value == ReadBack(kem.decaps(Fit(ct, sizes.ct), Fit(sk, sizes.sk)).value, sizes.ss)
    {
      if !initialized then Err(NotReady)
      else if |ct| > sizes.ct || |sk| > sizes.sk then Err(RangeError)
      else match kem.decaps(Fit(ct, sizes.ct), Fit(sk, sizes.sk))
        case None => Err(PrimitiveFailed)
        case Some(out) => Ok(ReadBack(out, sizes.ss))
    }

    /** The split point of `decrypt`: `sizes.ct || 768`. */
    function CiphertextLength(): (n: nat)
      reads this
      ensures n > 0
      ensures sizes.ct != 0 ==> n == sizes.ct
      ensures sizes.ct == 0 ==> n == MlKem512.ct
    {
      OrDefault(sizes.ct, 768)
    }

    /** What `encrypt` returns: the KEM ciphertext followed by the scrambled
        message, or the error of the guard or of `encapsulate`. */
    function EncryptOf(kem: Kem, peerPk: seq<bv8>, msg: seq<bv8>): (r: Result<seq<bv8>>)
      reads this
      ensures r.Err? <==> Encapsulate(kem, peerPk).Err?
      ensures r.Err? ==> r.error == Encapsulate(kem, peerPk).error
      ensures r.Ok? ==>
        var e := Encapsulate(kem, peerPk).value;
        && |r.value| == sizes.ct + |msg|
        && r.value[..sizes.ct] == e.ciphertext
        && forall i :: 0 <= i < |msg| ==> r.value[sizes.ct + i] == msg[i] ^ KeyByte(e.sharedSecret, i)
    {
      if !initialized then Err(NotReady)
      else match Encapsulate(kem, peerPk)
        case Err(e) => Err(e)
        case Ok(e) =>
          var body := Scrambled(msg, e.sharedSecret);
          var out := e.ciphertext + body;
          assert forall i :: 0 <= i < |msg| ==> out[sizes.ct + i] == body[i];
          Ok(out)
    }

    /** What `decrypt` returns: after the guard and the length check, the
        first `CiphertextLength()` bytes go to `decapsulate` and the rest is
        unscrambled with the secret it yields. */
    function DecryptOf(kem: Kem, data: seq<bv8>, sk: seq<bv8>): (r: Result<seq<bv8>>)
      reads this
      ensures !initialized ==> r == Err(NotReady)
      ensures initialized && |data| < CiphertextLength() ==> r == Err(TooShort(CiphertextLength(), |data|))
      ensures r.Ok? <==>
        initialized && CiphertextLength() <= |data| && Decapsulate(kem, data[..CiphertextLength()], sk).Ok?
      ensures initialized && CiphertextLength() <= |data| && Decapsulate(kem, data[..CiphertextLength()], sk).Err? ==>
        r == Err(Decapsulate(kem, data[..CiphertextLength()], sk).error)
      ensures r.Ok? ==>
        var n := CiphertextLength();
        && n <= |data| && |r.value| == |data| - n
        && Decapsulate(kem, data[..n], sk).Ok?
        && forall i :: 0 <= i < |r.value| ==>
             r.value[i] == data[n + i] ^ KeyByte(Decapsulate(kem, data[..n], sk).value, i)
    {
      if !initialized then Err(NotReady)
      else
        var n := CiphertextLength();
        if |data| < n then Err(TooShort(n, |data|))
        else match Decapsulate(kem, data[..n], sk)
          case Err(e) => Err(e)
          case Ok(ss) => Ok(Scrambled(data[n..], ss))
    }

    /** `encrypt`: the keystream loop fills a fresh buffer, which is framed
        after the ciphertext. */
    method Encrypt(kem: Kem, peerPk: seq<bv8>, msg: seq<bv8>) returns (r: Result<seq<bv8>>)
      ensures r == EncryptOf(kem, peerPk, msg)
    {
      if !initialized {
        return Err(NotReady);
      }
      var enc := Encapsulate(kem, peerPk);
      if enc.Err? {
        return Err(enc.error);
      }
      var body := ScrambleBytes(msg, enc.value.sharedSecret);
      r := Ok(enc.value.ciphertext + body);
    }

    /** `decrypt`: guard, length check, split, decapsulate, then the same
        keystream loop over the body. */
    method Decrypt(kem: Kem, data: seq<bv8>, sk: seq<bv8>) returns (r: Result<seq<bv8>>)
      ensures r == DecryptOf(kem, data, sk)
    {
      if !initialized {
        return Err(NotReady);
      }
      var n := if sizes.ct != 0 then sizes.ct else 768;
      if |data| < n {
        return Err(TooShort(n, |data|));
      }
      var ss := Decapsulate(kem, data[..n], sk);
      if ss.Err? {
        return Err(ss.error);
      }
      var body := ScrambleBytes(data[n..], ss.value);
      r := Ok(body);
    }
  }

  /** The loop of `encrypt` and `decrypt`: byte `i` of the output is byte
      `i` of the input XOR keystream byte `i`. */
  method ScrambleBytes(data: seq<bv8>, ss: seq<bv8>) returns (r: seq<bv8>)
    ensures r == Scrambled(data, ss)
  {
    var out := new bv8[|data|];
    for i := 0 to |data|
      invariant forall j :: 0 <= j < i ==> out[j] == data[j] ^ KeyByte(ss, j)
    {
      out[i] := data[i] ^ KeyByte(ss, i);
    }
    r := out[..];
  }

  /** Every operation throws before `ready` has succeeded. */
  lemma NotReadyGuardsEverything(b: KyberBridge, kem: Kem, pk: seq<bv8>, sk: seq<bv8>, msg: seq<bv8>)
    requires !b.initialized
    ensures b.Keypair(kem) == Err(NotReady)
    ensures b.Encapsulate(kem, pk) == Err(NotReady)
    ensures b.Decapsulate(kem, msg, sk) == Err(NotReady)
    ensures b.EncryptOf(kem, pk, msg) == Err(NotReady)
    ensures b.DecryptOf(kem, msg, sk) == Err(NotReady)
  {
  }

  /** Once ready, `decrypt` splits exactly where `encrypt` framed: the 768
      fallback is never used. */
  lemma ReadySplitsAtCiphertextSize(b: KyberBridge)
    requires b.Valid() && b.initialized
    ensures b.CiphertextLength() == b.sizes.ct
  {
  }

  /** Round trip: when decapsulating the ciphertext `encapsulate` produced
      yields the same secret, `decrypt` of `encrypt`'s output is the message. */
  lemma EncryptDecryptRoundTrip(b: KyberBridge, kem: Kem, pk: seq<bv8>, sk: seq<bv8>, msg: seq<bv8>)
    requires b.Valid()
    requires b.Encapsulate(kem, pk).Ok?
    requires var e := b.Encapsulate(kem, pk).value;
      b.Decapsulate(kem, e.ciphertext, sk) == Ok(e.sharedSecret)
    ensures b.EncryptOf(kem, pk, msg).Ok?
    ensures b.DecryptOf(kem, b.EncryptOf(kem, pk, msg).value, sk) == Ok(msg)
  {
    var e := b.Encapsulate(kem, pk).value;
    var data := b.EncryptOf(kem, pk, msg).value;
    var n := b.CiphertextLength();
    assert n == b.sizes.ct == |e.ciphertext|;
    assert data == e.ciphertext + Scrambled(msg, e.sharedSecret);
    assert data[..n] == e.ciphertext;
    assert data[n..] == Scrambled(msg, e.sharedSecret);
    ScrambleInvolution(msg, e.sharedSecret);
  }
}
