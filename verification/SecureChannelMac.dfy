// What the chained MAC and the data IV are made of, and what they depend on.
module SecureChannelMac {
  import opened Bytes
  import opened SecureChannel
  import opened Packet

  // ---- The MAC as CBC ----

  function Last(iv: Block, cbc: seq<byte>): Block
    requires |cbc| % 16 == 0
  {
    if cbc == [] then iv else cbc[|cbc| - 16..]
  }

  // All blocks but the last are CBC under S-MAC1; the last is chained from that, under S-MAC2.
  lemma {:induction false} MacIsCbc(c: Cipher, s: Session, iv: Block, blocks: seq<byte>)
    requires |blocks| % 16 == 0 && |blocks| > 0
    ensures var n := |blocks| - 16;
            && var chained := Last(iv, CbcEncrypt(c, s.sMac1, iv, blocks[..n]));
            MacChain(c, s, iv, blocks) == c.enc(s.sMac2, XorBlock(blocks[n..], chained))
    decreases |blocks|
  {
    hide XorBlock;
    var n := |blocks| - 16;
    if n == 0 {
      assert blocks[0..] == blocks;
    } else {
      var b: Block := c.enc(s.sMac1, XorBlock(blocks[..16], iv));
      MacIsCbc(c, s, b, blocks[16..]);
      var rest := CbcEncrypt(c, s.sMac1, b, blocks[..n][16..]);
      assert blocks[16..][n - 16..] == blocks[n..] && blocks[16..][..n - 16] == blocks[..n][16..];
      assert blocks[..n][..16] == blocks[..16];
      assert CbcEncrypt(c, s.sMac1, iv, blocks[..n]) == b + rest;
      assert rest != [] ==> (b + rest)[|b + rest| - 16..] == rest[|rest| - 16..];
      assert rest == [] ==> (b + rest)[|b + rest| - 16..] == b;
    }
  }

  // CBC itself, block by block: each deciphers to the plain block with the cipher block before it, or the
  // IV, on top.
  lemma {:induction false} CbcBlocks(c: Cipher, key: Block, iv: Block, data: seq<byte>, i: nat)
    requires c.Valid() && |data| % 16 == 0 && i % 16 == 0 && i < |data|
    ensures i + 16 <= |data|
    ensures var r := CbcEncrypt(c, key, iv, data);
            && var before: Block := if i >= 16 then r[i - 16..i] else iv;
            c.dec(key, r[i..i + 16]) == XorBlock(data[i..i + 16], before)
    decreases i
  {
    hide XorBlock, CbcEncrypt;
    var b := FirstBlock(c, key, iv, data);
    var rest := CbcEncrypt(c, key, b, data[16..]);
    if i > 0 {
      CbcBlocks(c, key, b, data[16..], i - 16);
      Tail(data[..16], data[16..], i - 16, i);
      assert data[..16] + data[16..] == data;
      Tail(b, rest, i - 16, i);
      if i > 16 {
        Tail(b, rest, i - 32, i - 16);
      }
    }
  }

  lemma FirstBlock(c: Cipher, key: Block, iv: Block, data: seq<byte>) returns (b: Block)
    requires c.Valid() && |data| % 16 == 0 && data != []
    ensures CbcEncrypt(c, key, iv, data) == b + CbcEncrypt(c, key, b, data[16..])
    ensures c.dec(key, b) == XorBlock(data[..16], iv)
    ensures CbcEncrypt(c, key, iv, data)[..16] == b
  {
    hide XorBlock;
    b := c.enc(key, XorBlock(data[..16], iv));
  }

  lemma Tail(head: seq<byte>, rest: seq<byte>, i: nat, j: nat)
    requires |head| == 16 && i <= j <= |rest|
    ensures (head + rest)[16 + i..16 + j] == rest[i..j]
  {
  }

  // The data of a packet is CBC under S-ENC, from the complement of the other direction's last MAC, of the
  // data and its padding.
  lemma DataIsCbc(c: Cipher, s: Session, isCmd: bool, data: seq<byte>, i: nat)
    requires c.Valid() && i % 16 == 0 && i + 16 <= |Pad(data)|
    ensures var r, p := EncryptData(c, s, isCmd, data), Pad(data);
            && |r| == |p|
            && var before: Block := if i >= 16 then r[i - 16..i] else Complement(if isCmd then s.rMac else s.cMac);
            c.dec(s.sEnc, r[i..i + 16]) == XorBlock(p[i..i + 16], before)
  {
    hide XorBlock, CbcEncrypt, Pad;
    CbcBlocks(c, s.sEnc, DataIv(s, isCmd), Pad(data), i);
  }

  // ---- What it depends on ----

  lemma {:induction false} XorBitsCommutes(n: nat, a: nat, b: nat)
    ensures XorBits(n, a, b) == XorBits(n, b, a)
  {
    if n > 0 {
      XorBitsCommutes(n - 1, a / 2, b / 2);
    }
  }

  lemma XorBlockInjective(m: Block, x: Block, y: Block)
    requires XorBlock(m, x) == XorBlock(m, y)
    ensures x == y
  {
    forall i | 0 <= i < 16 ensures x[i] == y[i] {
      assert XorBlock(m, x)[i] == XorBlock(m, y)[i];
      XorBitsCommutes(8, m[i], x[i]);
      XorBitsCommutes(8, m[i], y[i]);
      XorCancels(x[i], m[i]);
      XorCancels(y[i], m[i]);
    }
  }

  lemma EncInjective(c: Cipher, k: Block, x: Block, y: Block)
    requires c.Valid() && c.enc(k, x) == c.enc(k, y)
    ensures x == y
  {
    assert c.dec(k, c.enc(k, x)) == x && c.dec(k, c.enc(k, y)) == y;
  }

  lemma {:induction false} ChainInjective(c: Cipher, s: Session, x: Block, y: Block, blocks: seq<byte>)
    requires c.Valid() && |blocks| % 16 == 0 && |blocks| > 0 && MacChain(c, s, x, blocks) == MacChain(c, s, y, blocks)
    ensures x == y
    decreases |blocks|
  {
    hide XorBlock;
    if |blocks| == 16 {
      EncInjective(c, s.sMac2, XorBlock(blocks, x), XorBlock(blocks, y));
      XorBlockInjective(blocks, x, y);
    } else {
      var u, v := XorBlock(blocks[..16], x), XorBlock(blocks[..16], y);
      ChainInjective(c, s, c.enc(s.sMac1, u), c.enc(s.sMac1, v), blocks[16..]);
      EncInjective(c, s.sMac1, u, v);
      XorBlockInjective(blocks[..16], x, y);
    }
  }

  // The MAC of a command turns on the last reply's MAC and on no earlier command's; that of a reply on the
  // command's and on no earlier reply's. So the same packet after another answer has another MAC.
  lemma MacsChain(c: Cipher, s: Session, t: Session, isCmd: bool, data: seq<byte>)
    requires c.Valid() && s.sMac1 == t.sMac1 && s.sMac2 == t.sMac2
    ensures Mac(c, s, isCmd, data) == Mac(c, t, isCmd, data) <==> (if isCmd then s.rMac == t.rMac else s.cMac == t.cMac)
  {
    hide MacChain, MacPadded;
    var x, y := if isCmd then s.rMac else s.cMac, if isCmd then t.rMac else t.cMac;
    SameChain(c, s, t, x, MacPadded(data));
    SameChain(c, s, t, y, MacPadded(data));
    if Mac(c, s, isCmd, data) == Mac(c, t, isCmd, data) {
      ChainInjective(c, s, x, y, MacPadded(data));
    }
  }

  lemma {:induction false} SameChain(c: Cipher, s: Session, t: Session, iv: Block, blocks: seq<byte>)
    requires s.sMac1 == t.sMac1 && s.sMac2 == t.sMac2 && |blocks| % 16 == 0 && |blocks| > 0
    ensures MacChain(c, s, iv, blocks) == MacChain(c, t, iv, blocks)
    decreases |blocks|
  {
    if |blocks| > 16 {
      SameChain(c, s, t, c.enc(s.sMac1, XorBlock(blocks[..16], iv)), blocks[16..]);
    }
  }

  // Data is encrypted from the complement of the other direction's last MAC.
  lemma IvComplements(s: Session, i: nat)
    requires i < 16
    ensures DataIv(s, true)[i] + s.rMac[i] == 255 && DataIv(s, false)[i] + s.cMac[i] == 255
  {
  }

  // Padding is the end marker and the fewest zeros that fill the block.
  lemma PadForm(data: seq<byte>)
    ensures var p := Pad(data);
            && data < p && p[|data|] == 0x80 && |p| % 16 == 0 && |p| <= |data| + 16
            && forall i :: |data| < i < |p| ==> p[i] == 0
    ensures MacPadded(data) == if |data| % 16 == 0 && data != [] then data else Pad(data)
  {
  }

  // ---- What goes on the line ----

  // A protected packet ends in the first four bytes of the MAC over all of it before them, chained from the
  // other direction's last MAC; the sender then holds that MAC as its own direction's, and nothing else
  // of its session has changed.
  lemma CarriesItsMac(a: Algorithms, isCmd: bool, s: Session, d: Draft, max: int)
    requires d.Valid() && d.scb != [] && Protect(a, isCmd, s, d, max).Some?
    ensures var (out, t) := Protect(a, isCmd, s, d, max).value;
            && |out| > 4
            && var m := MacChain(a.cipher, s, if isCmd then s.rMac else s.cMac, MacPadded(out[..|out| - 4]));
            && out[|out| - 4..] == m[..4]
            && t == (if isCmd then s.(cMac := m) else s.(rMac := m))
  {
    hide MacChain, MacPadded, EncryptData, HasCrc, HasScb, CheckLen, PadLen, Encrypts, Image, Sealed, Le16;
    var (out, t) := Protect(a, isCmd, s, d, max).value;
    var d' := Sealed(a, isCmd, s, d);
    var image := Image(d', d'.Len() + CheckLen(d.control) + 4);
    Ends(image, OwnMac(isCmd, t)[..4], out);
  }

  lemma Ends(head: seq<byte>, tail: seq<byte>, whole: seq<byte>)
    requires whole == head + tail && |tail| == 4
    ensures |whole| >= 4 && whole[..|whole| - 4] == head && whole[|whole| - 4..] == tail
  {
  }
}
