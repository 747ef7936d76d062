/** The hashes and the case folding the pipeline calls: any functions of the right shape. */
module Digests {
  import opened Octets

  /** An MD5 digest is sixteen bytes, section 3.5 of RFC 1321. */
  type Md5 = d: Bytes | |d| == 16 witness seq(16, _ => 0)

  predicate IsHex(c: char) {
    '0' <= c <= '9' || 'a' <= c <= 'f'
  }

  /** A SHA-256 digest as `digest('hex')` writes it. */
  type HexDigest = s: string | |s| == 64 && forall c <- s :: IsHex(c) witness seq(64, _ => '0')

  datatype Hashes = Hashes(
    md5: Bytes -> Md5,
    crc32: Bytes -> uint32,
    sha256: Bytes -> HexDigest,
    lower: string -> string)
}
