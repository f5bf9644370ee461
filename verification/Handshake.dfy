// The secure channel handshake of src/osdp_sc.c: CHLNG, CCRYPT, SCRYPT, RMAC_I.
module Handshake {
  import opened Bytes
  import opened SecureChannel

  type Random = r: seq<byte> | |r| == 8 witness Zeros(8)

  // What one end has gathered of the handshake; a session once it is over.
  datatype Party = Party(cpRandom: Random, pdRandom: Random, session: Session)

  // 01 82, 01 01 or 01 02, six bytes of the panel's random number, zeros.
  function Seed(second: byte, cpRandom: Random): (b: seq<byte>)
    ensures |b| == 16
  {
    [1, second] + cpRandom[..6] + Zeros(8)
  }

  // osdp_compute_session_keys; key is the SCBK in use, the default one included.
  function SessionKeys(c: Cipher, key: Block, p: Party): Party
    requires c.Valid()
  {
    p.(session := p.session.(
         sEnc := c.enc(key, Seed(0x82, p.cpRandom)),
         sMac1 := c.enc(key, Seed(0x01, p.cpRandom)),
         sMac2 := c.enc(key, Seed(0x02, p.cpRandom))))
  }

  // osdp_compute_pd_cryptogram, osdp_compute_cp_cryptogram
  function PdCryptogram(c: Cipher, p: Party): Block
    requires c.Valid()
  {
    c.enc(p.session.sEnc, p.cpRandom + p.pdRandom)
  }

  function CpCryptogram(c: Cipher, p: Party): Block
    requires c.Valid()
  {
    c.enc(p.session.sEnc, p.pdRandom + p.cpRandom)
  }

  // osdp_compute_rmac_i
  function InitialRMac(c: Cipher, p: Party, cpCryptogram: Block): Block
    requires c.Valid()
  {
    c.enc(p.session.sMac2, c.enc(p.session.sMac1, cpCryptogram))
  }

  // osdp_sc_setup: everything but the key wiped.
  function Setup(): Session {
    Session(Zeros(16), Zeros(16), Zeros(16), Zeros(16), Zeros(16))
  }

  datatype Ccrypt = Ccrypt(pdRandom: Random, cryptogram: Block)

  // The device on CMD_CHLNG.
  function Challenged(c: Cipher, pdKey: Block, cpRandom: Random, pdRandom: Random): (Party, Ccrypt)
    requires c.Valid()
  {
    var p := SessionKeys(c, pdKey, Party(cpRandom, pdRandom, Setup()));
    (p, Ccrypt(pdRandom, PdCryptogram(c, p)))
  }

  // The panel on REPLY_CCRYPT: keys, then the device's proof. None: the handshake fails.
  function Checked(c: Cipher, cpKey: Block, cpRandom: Random, m: Ccrypt): Option<Party>
    requires c.Valid()
  {
    var p := SessionKeys(c, cpKey, Party(cpRandom, m.pdRandom, Setup()));
    if m.cryptogram == PdCryptogram(c, p) then Some(p) else None
  }

  // The device on CMD_SCRYPT: the panel's proof, then the first R-MAC.
  function Confirmed(c: Cipher, p: Party, cryptogram: Block): Option<Session>
    requires c.Valid()
  {
    if cryptogram == CpCryptogram(c, p) then Some(p.session.(rMac := InitialRMac(c, p, cryptogram))) else None
  }

  // The panel on REPLY_RMAC_I takes the R-MAC as it comes.
  function Adopted(p: Party, rMac: Block): Session { p.session.(rMac := rMac) }

  // The sessions the two ends hold when both proofs are accepted.
  function Handshake(c: Cipher, cpKey: Block, pdKey: Block, cpRandom: Random, pdRandom: Random): Option<(Session, Session)>
    requires c.Valid()
  {
    var (pd, m) := Challenged(c, pdKey, cpRandom, pdRandom);
    match Checked(c, cpKey, cpRandom, m)
    case None => None
    case Some(cp) =>
      match Confirmed(c, pd, CpCryptogram(c, cp))
      case None => None
      case Some(s) => Some((Adopted(cp, s.rMac), s))
  }

  // With one key the handshake always succeeds and leaves both ends with the same session: keys,
  // R-MAC and (still blank) C-MAC.
  lemma SameKeyAgrees(c: Cipher, key: Block, cpRandom: Random, pdRandom: Random)
    requires c.Valid()
    ensures var r := Handshake(c, key, key, cpRandom, pdRandom);
            r.Some? && r.value.0 == r.value.1 && r.value.0.cMac == Zeros(16)
  {
  }

  // The three session keys come from the key in use and the panel's random number, each with a mark of its
  // own; deciphered, they give that back.
  lemma KeysDerived(c: Cipher, key: Block, p: Party)
    requires c.Valid()
    ensures var s := SessionKeys(c, key, p).session;
            && c.dec(key, s.sEnc) == [0x01, 0x82] + p.cpRandom[..6] + Zeros(8)
            && c.dec(key, s.sMac1) == [0x01, 0x01] + p.cpRandom[..6] + Zeros(8)
            && c.dec(key, s.sMac2) == [0x01, 0x02] + p.cpRandom[..6] + Zeros(8)
  {
  }

  // So no two of them are alike, and another random number gives three others.
  lemma KeysDiffer(c: Cipher, key: Block, p: Party, q: Party)
    requires c.Valid()
    ensures var s := SessionKeys(c, key, p).session; s.sEnc != s.sMac1 && s.sEnc != s.sMac2 && s.sMac1 != s.sMac2
    ensures var s, t := SessionKeys(c, key, p).session, SessionKeys(c, key, q).session;
            p.cpRandom[..6] != q.cpRandom[..6] ==> s.sEnc != t.sEnc && s.sMac1 != t.sMac1 && s.sMac2 != t.sMac2
  {
    hide SessionKeys;
    KeysDerived(c, key, p);
    KeysDerived(c, key, q);
    var a, b, d := [0x01, 0x82] + p.cpRandom[..6] + Zeros(8), [0x01, 0x01] + p.cpRandom[..6] + Zeros(8), [0x01, 0x02] + p.cpRandom[..6] + Zeros(8);
    assert a[1] == 0x82 && b[1] == 0x01 && d[1] == 0x02;
    forall m: byte ensures ([0x01, m] + p.cpRandom[..6] + Zeros(8))[2..8] == p.cpRandom[..6] {
    }
    forall m: byte ensures ([0x01, m] + q.cpRandom[..6] + Zeros(8))[2..8] == q.cpRandom[..6] {
    }
  }

  // The first R-MAC carries both random numbers: deciphered under the three keys in turn it gives them
  // back.
  lemma FirstRMac(c: Cipher, key: Block, cpRandom: Random, pdRandom: Random)
    requires c.Valid()
    ensures var r := Handshake(c, key, key, cpRandom, pdRandom);
            r.Some? && var s := r.value.0; c.dec(s.sEnc, c.dec(s.sMac1, c.dec(s.sMac2, s.rMac))) == pdRandom + cpRandom
  {
  }

  // With any keys it succeeds exactly when the two session keys agree on both proofs.
  lemma SucceedsWhenProofsAgree(c: Cipher, cpKey: Block, pdKey: Block, cpRandom: Random, pdRandom: Random)
    requires c.Valid()
    ensures var cp := SessionKeys(c, cpKey, Party(cpRandom, pdRandom, Setup()));
            var pd := SessionKeys(c, pdKey, Party(cpRandom, pdRandom, Setup()));
            Handshake(c, cpKey, pdKey, cpRandom, pdRandom).Some?
            <==> PdCryptogram(c, cp) == PdCryptogram(c, pd) && CpCryptogram(c, cp) == CpCryptogram(c, pd)
  {
  }

  // A proof made under the panel's session key is worth nothing for any other pair of random numbers.
  lemma NoReplay(c: Cipher, cpKey: Block, p: Party, cpRandom: Random)
    requires c.Valid() && p.session.sEnc == SessionKeys(c, cpKey, Party(cpRandom, p.pdRandom, Setup())).session.sEnc
    ensures Checked(c, cpKey, cpRandom, Ccrypt(p.pdRandom, PdCryptogram(c, p))).Some? <==> p.cpRandom == cpRandom
  {
    var q := SessionKeys(c, cpKey, Party(cpRandom, p.pdRandom, Setup()));
    var k, x, y := p.session.sEnc, p.cpRandom + p.pdRandom, cpRandom + p.pdRandom;
    if c.enc(k, x) == c.enc(k, y) {
      assert c.dec(k, c.enc(k, x)) == x && c.dec(k, c.enc(k, y)) == y;
      assert x[..8] == p.cpRandom && y[..8] == cpRandom;
    }
  }

  // ---- osdp_ct_compare ----

  // Inclusive or of the low n bits.
  function OrBits(n: nat, a: nat, b: nat): (r: nat)
    ensures r < Pow2(n)
  {
    if n == 0 then 0 else (if a % 2 == 1 || b % 2 == 1 then 1 else 0) + 2 * OrBits(n - 1, a / 2, b / 2)
  }

  lemma {:induction false} OrZero(n: nat, a: nat, b: nat)
    requires a < Pow2(n) && b < Pow2(n)
    ensures OrBits(n, a, b) == 0 <==> a == b == 0
  {
    if n > 0 {
      OrZero(n - 1, a / 2, b / 2);
    }
  }

  lemma Parity(a: nat, b: nat)
    ensures (a + b) % 2 == 0 <==> a % 2 == b % 2
    ensures a == b <==> a % 2 == b % 2 && a / 2 == b / 2
  {
  }

  lemma {:induction false} XorZero(n: nat, a: nat, b: nat)
    requires a < Pow2(n) && b < Pow2(n)
    ensures XorBits(n, a, b) == 0 <==> a == b
  {
    if n > 0 {
      XorZero(n - 1, a / 2, b / 2);
      Parity(a, b);
    }
  }

  lemma ByteCompared(ret: nat, a: byte, b: byte)
    requires ret < 256
    ensures var r := OrBits(8, ret, Xor(a, b)); r < 256 && (r == 0 <==> ret == 0 && a == b)
  {
    assert Pow2(8) == 256 by { assert Pow2(4) == 16; }
    XorZero(8, a, b);
    OrZero(8, ret, Xor(a, b));
  }

  // Looks at every byte whatever it finds, and is zero exactly for equal blocks.
  method Compare(s1: seq<byte>, s2: seq<byte>) returns (ret: nat)
    requires |s1| == |s2|
    ensures ret == 0 <==> s1 == s2
  {
    hide OrBits, Xor;
    ret := 0;
    for i := 0 to |s1|
      invariant ret < 256 && (ret == 0 <==> s1[..i] == s2[..i])
    {
      ByteCompared(ret, s1[i], s2[i]);
      assert s1[..i + 1] == s1[..i] + [s1[i]] && s2[..i + 1] == s2[..i] + [s2[i]];
      ret := OrBits(8, ret, Xor(s1[i], s2[i]));
    }
    assert s1[..|s1|] == s1 && s2[..|s2|] == s2;
  }
}
