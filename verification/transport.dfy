/** The boundary between the drivers and the outside world. A USB read
    either delivers a 32-byte encrypted block or fails with an errno; the AES
    decryption is a parameter, since it is a foreign call into PyCrypto
    (epoc.py lines 192-193, epoc_iohub.py lines 93-94). */
module Transport {
  import opened Bits
  import opened Layout

  /** One encrypted or decrypted 32-byte report. */
  type Block = s: seq<byte> | |s| == 32 witness seq(32, _ => 0)

  /** `cipher.decrypt` under a key: any function from key and block to block. */
  type Cipher = (seq<byte>, Block) -> Block

  /** The outcome of one `read(32, ...)` on the endpoint. */
  datatype Read = Frame(raw: Block) | UsbError(errno: int)

  /** The 256 bits the decoder sees: the decrypted block read as a
      big-endian bit string, as `BitArray(bytes=...)` does. */
  function Plaintext(decrypt: Cipher, key: seq<byte>, raw: Block): (r: Bits256)
    ensures LeadByte(r) == decrypt(key, raw)[0]
  {
    var r := BitsOf(decrypt(key, raw));
    BitsOfByte(decrypt(key, raw), 0);
    assert r[0..8] == r[8 * 0..8 * 0 + 8];
    r
  }

  /** Byte i of the decrypted block is bits 8i to 8i+7 of the plaintext. */
  lemma PlaintextBytes(decrypt: Cipher, key: seq<byte>, raw: Block)
    ensures forall i :: 0 <= i < 32 ==>
      Uint(Plaintext(decrypt, key, raw)[8 * i..8 * i + 8]) == decrypt(key, raw)[i]
  {
    forall i | 0 <= i < 32
      ensures Uint(Plaintext(decrypt, key, raw)[8 * i..8 * i + 8]) == decrypt(key, raw)[i]
    {
      BitsOfByte(decrypt(key, raw), i);
    }
  }
}
