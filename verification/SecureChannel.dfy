// The secure-channel primitives of src/osdp_sc.c: CBC over 16-byte blocks, the 0x80 end marker,
// and the chained MAC. The block cipher itself is a parameter; all that is required of it is that
// decryption inverts encryption.
module SecureChannel {
  import opened Bytes

  const EOM: byte := 0x80

  type Block = b: seq<byte> | |b| == 16 witness Zeros(16)

  datatype Cipher = Cipher(enc: (Block, Block) -> Block, dec: (Block, Block) -> Block) {
    // Block decryption inverts block encryption under the same key.
    ghost predicate Valid() {
      forall k: Block, b: Block :: dec(k, enc(k, b)) == b
    }
  }

  // Session keys and the two chained MACs of one end (struct osdp_secure_channel).
  datatype Session = Session(sEnc: Block, sMac1: Block, sMac2: Block, rMac: Block, cMac: Block)

  function XorBlock(a: Block, b: Block): Block {
    seq(16, i requires 0 <= i < 16 => Xor(a[i], b[i]))
  }

  lemma XorBlockCancels(a: Block, b: Block)
    ensures XorBlock(XorBlock(a, b), b) == a
  {
    forall i | 0 <= i < 16
      ensures XorBlock(XorBlock(a, b), b)[i] == a[i]
    {
      XorCancels(a[i], b[i]);
    }
  }

  function Complement(b: Block): Block {
    seq(16, i requires 0 <= i < 16 => 255 - b[i])
  }

  // ---- CBC (osdp_encrypt and osdp_decrypt with an IV) ----

  function CbcEncrypt(c: Cipher, key: Block, iv: Block, data: seq<byte>): (r: seq<byte>)
    requires |data| % 16 == 0
    ensures |r| == |data|
    decreases |data|
  {
    if data == [] then [] else
      var b: Block := c.enc(key, XorBlock(data[..16], iv));
      b + CbcEncrypt(c, key, b, data[16..])
  }

  function CbcDecrypt(c: Cipher, key: Block, iv: Block, data: seq<byte>): (r: seq<byte>)
    requires |data| % 16 == 0
    ensures |r| == |data|
    decreases |data|
  {
    if data == [] then [] else
      XorBlock(c.dec(key, data[..16]), iv) + CbcDecrypt(c, key, data[..16], data[16..])
  }

  lemma {:induction false} CbcRoundTrip(c: Cipher, key: Block, iv: Block, data: seq<byte>)
    requires c.Valid()
    requires |data| % 16 == 0
    ensures CbcDecrypt(c, key, iv, CbcEncrypt(c, key, iv, data)) == data
    decreases |data|
  {
    if data != [] {
      var b: Block := c.enc(key, XorBlock(data[..16], iv));
      var rest := CbcEncrypt(c, key, b, data[16..]);
      assert (b + rest)[..16] == b && (b + rest)[16..] == rest;
      XorBlockCancels(data[..16], iv);
      CbcRoundTrip(c, key, b, data[16..]);
    }
  }

  // ---- Data block: end marker, zero fill, encrypt; and back ----

  // AES_PAD_LEN
  function PadLen(n: nat): (m: nat)
    ensures n <= m < n + 16 && m % 16 == 0
  {
    (n + 15) / 16 * 16
  }

  function Pad(data: seq<byte>): (r: seq<byte>)
    ensures |r| == PadLen(|data| + 1)
  {
    data + [EOM] + Zeros(PadLen(|data| + 1) - |data| - 1)
  }

  // Drop trailing zeros, then the end marker; None when there is no marker to drop.
  function Strip(data: seq<byte>): (r: Option<seq<byte>>)
    ensures r.Some? ==> |r.value| < |data| && r.value == data[..|r.value|] && data[|r.value|] == EOM
  {
    if data == [] then None
    else if data[|data| - 1] == EOM then Some(data[..|data| - 1])
    else if data[|data| - 1] == 0 && |data| > 1 then Strip(data[..|data| - 1])
    else None
  }

  lemma {:induction false} StripZeros(data: seq<byte>, n: nat)
    ensures Strip(data + [EOM] + Zeros(n)) == Some(data)
  {
    var s := data + [EOM] + Zeros(n);
    if n == 0 {
      assert s[..|s| - 1] == data;
    } else {
      assert s[..|s| - 1] == data + [EOM] + Zeros(n - 1);
      StripZeros(data, n - 1);
    }
  }

  // IV of the data block: the complement of the MAC the other direction last produced.
  function DataIv(s: Session, isCmd: bool): Block {
    Complement(if isCmd then s.rMac else s.cMac)
  }

  function EncryptData(c: Cipher, s: Session, isCmd: bool, data: seq<byte>): (r: seq<byte>)
    ensures |r| == PadLen(|data| + 1)
  {
    CbcEncrypt(c, s.sEnc, DataIv(s, isCmd), Pad(data))
  }

  // None is the source's negative return. An empty block is an error unless the peer is allowed
  // to send one.
  function DecryptData(c: Cipher, s: Session, isCmd: bool, allowEmpty: bool, data: seq<byte>)
    : (r: Option<seq<byte>>)
  {
    if |data| % 16 != 0 then None
    else if data == [] then (if allowEmpty then Some([]) else None)
    else Strip(CbcDecrypt(c, s.sEnc, DataIv(s, isCmd), data))
  }

  lemma DataRoundTrip(c: Cipher, s: Session, isCmd: bool, allowEmpty: bool, data: seq<byte>)
    requires c.Valid()
    ensures DecryptData(c, s, isCmd, allowEmpty, EncryptData(c, s, isCmd, data)) == Some(data)
  {
    CbcRoundTrip(c, s.sEnc, DataIv(s, isCmd), Pad(data));
    StripZeros(data, PadLen(|data| + 1) - |data| - 1);
  }

  // ---- MAC ----

  // The message as the MAC sees it: a whole number of blocks, at least one.
  function MacPadded(data: seq<byte>): (r: seq<byte>)
    ensures |r| % 16 == 0 && |r| > 0
  {
    if |data| % 16 == 0 && |data| > 0 then data else Pad(data)
  }

  // CBC under S-MAC1 for every block but the last; the last under S-MAC2.
  function MacChain(c: Cipher, s: Session, iv: Block, blocks: seq<byte>): Block
    requires |blocks| % 16 == 0 && |blocks| > 0
    decreases |blocks|
  {
    if |blocks| == 16 then c.enc(s.sMac2, XorBlock(blocks, iv))
    else MacChain(c, s, c.enc(s.sMac1, XorBlock(blocks[..16], iv)), blocks[16..])
  }

  // A command is chained from R-MAC, a reply from C-MAC.
  function Mac(c: Cipher, s: Session, isCmd: bool, data: seq<byte>): Block {
    MacChain(c, s, if isCmd then s.rMac else s.cMac, MacPadded(data))
  }

  // osdp_compute_mac stores a command's MAC in C-MAC and a reply's in R-MAC.
  function WithMac(c: Cipher, s: Session, isCmd: bool, data: seq<byte>): Session {
    var m := Mac(c, s, isCmd, data);
    if isCmd then s.(cMac := m) else s.(rMac := m)
  }
}
