// osdp_compute_mac, osdp_encrypt_data and osdp_decrypt_data in the form the source has them: loops
// over byte buffers, MACs stored back into the channel. Each is proved equal to the recursive
// definition in SecureChannel.
module SecureChannelInPlace {
  import opened Bytes
  import opened SecureChannel

  // block[i] ^= iv[i]
  method XorInto(block: array<byte>, iv: array<byte>)
    requires block.Length == iv.Length == 16 && block != iv
    modifies block
    ensures block[..] == XorBlock(old(block[..]), iv[..])
  {
    for i := 0 to 16
      invariant forall k :: 0 <= k < i ==> block[k] == Xor(old(block[k]), iv[k])
      invariant forall k :: i <= k < 16 ==> block[k] == old(block[k])
      invariant iv[..] == old(iv[..])
    {
      block[i] := Xor(block[i], iv[i]);
    }
  }

  // memcpy to buf + off.
  method WriteAt(buf: array<byte>, off: nat, src: seq<byte>)
    requires off + |src| <= buf.Length
    modifies buf
    ensures buf[..] == Over(old(buf[..]), off, src)
  {
    for i := 0 to |src|
      invariant forall k :: 0 <= k < off || off + i <= k < buf.Length ==> buf[k] == old(buf[k])
      invariant forall k :: 0 <= k < i ==> buf[off + k] == src[k]
    {
      buf[off + i] := src[i];
    }
  }

  // memset to zero from buf + off.
  method FillZeros(buf: array<byte>, off: nat, n: nat)
    requires off + n <= buf.Length
    modifies buf
    ensures buf[..] == old(buf[..off]) + Zeros(n) + old(buf[off + n..])
  {
    for i := 0 to n
      invariant forall k :: 0 <= k < off || off + i <= k < buf.Length ==> buf[k] == old(buf[k])
      invariant forall k :: off <= k < off + i ==> buf[k] == 0
    {
      buf[off + i] := 0;
    }
  }

  method CopyBlock(dst: array<byte>, src: Block)
    requires dst.Length == 16
    modifies dst
    ensures dst[..] == src
  {
    WriteAt(dst, 0, src);
  }

  class Channel {
    const cipher: Cipher
    var sEnc: Block
    var sMac1: Block
    var sMac2: Block
    var rMac: Block
    var cMac: Block

    function State(): Session
      reads this
    {
      Session(sEnc, sMac1, sMac2, rMac, cMac)
    }

    constructor (cipher: Cipher, s: Session)
      ensures this.cipher == cipher && State() == s
    {
      this.cipher := cipher;
      sEnc, sMac1, sMac2, rMac, cMac := s.sEnc, s.sMac1, s.sMac2, s.rMac, s.cMac;
    }

    // B[1] to B[n-1] of the message under S-MAC1; iv is left holding the last cipher block.
    method MacLeading(data: seq<byte>, iv: array<byte>, block: array<byte>, n: nat)
      requires iv.Length == block.Length == 16 && iv != block
      requires n > 0 && 16 * (n - 1) <= |data| <= 16 * n && |MacPadded(data)| == 16 * n
      modifies iv, block
      ensures MacChain(cipher, State(), iv[..], MacPadded(data)[16 * (n - 1)..])
           == MacChain(cipher, State(), old(iv[..]), MacPadded(data))
    {
      ghost var m, s := MacPadded(data), State();
      var i, p := 0, 0;
      assert m[0..] == m;
      while i < n - 1
        invariant 0 <= i <= n - 1 && p == 16 * i
        invariant MacChain(cipher, s, iv[..], m[p..]) == MacChain(cipher, s, old(iv[..]), m)
      {
        assert m[p..][..16] == data[p..p + 16] && m[p..][16..] == m[p + 16..];
        CopyBlock(block, data[p..p + 16]);
        XorInto(block, iv);
        var b: Block := cipher.enc(sMac1, block[..]);
        CopyBlock(block, b);
        CopyBlock(iv, block[..]);
        i, p := i + 1, p + 16;
      }
    }

    method ComputeMac(isCmd: bool, data: seq<byte>)
      modifies this
      ensures State() == WithMac(cipher, old(State()), isCmd, data)
    {
      var iv := new byte[16](_ => 0);
      var block := new byte[16](_ => 0);
      var fullBlocks, rem := |data| / 16, |data| % 16;
      var n := if rem == 0 then fullBlocks else fullBlocks + 1;
      if n == 0 {
        n := 1;
      }
      CopyBlock(iv, if isCmd then rMac else cMac);
      MacLeading(data, iv, block, n);
      LastBlock(block, data, n);
      XorInto(block, iv);
      var mac: Block := cipher.enc(sMac2, block[..]);
      if isCmd {
        cMac := mac;
      } else {
        rMac := mac;
      }
    }

    // Build B[n], with the 0x80 + zero padding when the message is not block aligned.
    static method LastBlock(block: array<byte>, data: seq<byte>, n: nat)
      requires block.Length == 16
      requires n > 0 && 16 * (n - 1) <= |data| <= 16 * n && |MacPadded(data)| == 16 * n
      modifies block
      ensures block[..] == MacPadded(data)[16 * (n - 1)..]
    {
      var p, rem := 16 * (n - 1), |data| % 16;
      CopyBlock(block, Zeros(16));
      if rem == 0 && |data| / 16 > 0 {
        CopyBlock(block, data[p..p + 16]);
      } else {
        WriteAt(block, 0, data[p..p + rem]);
        block[rem] := EOM;
      }
    }

    // 0x80 and zeros up to a whole number of blocks.
    static method PadBlock(buf: array<byte>, off: nat, length: nat)
      requires off + PadLen(length + 1) <= buf.Length
      modifies buf
      ensures buf[..] == Over(old(buf[..]), off, Pad(old(buf[off..off + length])))
    {
      buf[off + length] := EOM;
      FillZeros(buf, off + length + 1, PadLen(length + 1) - length - 1);
    }

    // Returns the padded length; the block is written over buf from off.
    method EncryptBlock(isCmd: bool, buf: array<byte>, off: nat, length: nat) returns (padLen: nat)
      requires off + PadLen(length + 1) <= buf.Length
      modifies buf
      ensures padLen == PadLen(length + 1)
      ensures buf[..] == Over(old(buf[..]), off, EncryptData(cipher, State(), isCmd, old(buf[off..off + length])))
    {
      hide CbcEncrypt, Pad;
      PadBlock(buf, off, length);
      padLen := PadLen(length + 1);
      assert buf[off..off + padLen] == Pad(old(buf[off..off + length]));
      // The cipher backend's CBC over the padded block.
      WriteAt(buf, off, CbcEncrypt(cipher, sEnc, DataIv(State(), isCmd), buf[off..off + padLen]));
    }

    // The tail of osdp_decrypt_data on an already decrypted, non-empty block: walk back over the
    // zero fill, require the end marker, clear it. -1 is the source's error.
    method StripInPlace(buf: array<byte>, off: nat, len: nat) returns (length: int)
      requires 0 < len && off + len <= buf.Length
      modifies buf
      ensures match Strip(old(buf[off..off + len]))
              case None => length == -1
              case Some(d) => length == |d| && buf[off..off + length] == d
      ensures buf[..off] == old(buf[..off]) && buf[off + len..] == old(buf[off + len..])
    {
      ghost var was := buf[off..off + len];
      length := len - 1;
      assert was[..length + 1] == was;
      while length != 0 && buf[off + length] == 0
        invariant 0 <= length < len
        invariant Strip(was[..length + 1]) == Strip(was)
      {
        assert was[..length + 1][..length] == was[..length];
        length := length - 1;
      }
      assert was[..length + 1][..length] == was[..length];
      if buf[off + length] != EOM {
        assert Strip(was[..length + 1]) == None;
        return -1;
      }
      assert Strip(was[..length + 1]) == Some(was[..length]);
      buf[off + length] := 0;
      assert buf[off..off + length] == was[..length];
    }
  }
}
