/** The hash a share's fsid is derived from: FNV-1a over the UTF-8 bytes of `key/share`. */
module FsidHash {
  const FSID_BASE: nat := 1000
  const FSID_SPAN: nat := 0x4000_0000

  predicate InWindow(f: nat) {
    FSID_BASE <= f < FSID_BASE + FSID_SPAN
  }

  /** An fsid the plan may hand out. */
  type Slot = f: nat | FSID_BASE <= f < FSID_BASE + FSID_SPAN witness FSID_BASE

  function Utf8(c: char): seq<bv8> {
    var n := c as int;
    if n < 0x80 then [n as bv8]
    else if n < 0x800 then [(0xC0 + n / 64) as bv8, (0x80 + n % 64) as bv8]
    else if n < 0x1_0000 then
      [(0xE0 + n / 4096) as bv8, (0x80 + n / 64 % 64) as bv8, (0x80 + n % 64) as bv8]
    else
      [(0xF0 + n / 262144) as bv8, (0x80 + n / 4096 % 64) as bv8,
       (0x80 + n / 64 % 64) as bv8, (0x80 + n % 64) as bv8]
  }

  function FnvMixed(h: bv32, b: bv8): bv32 {
    (h ^ (b as bv32)) * 0x0100_0193
  }

  function FnvBytes(h: bv32, bytes: seq<bv8>): bv32
    decreases bytes
  {
    if bytes == [] then h else FnvBytes(FnvMixed(h, bytes[0]), bytes[1..])
  }

  function FnvFrom(h: bv32, s: string): bv32
    decreases s
  {
    if s == [] then h else FnvFrom(FnvBytes(h, Utf8(s[0])), s[1..])
  }

  function Fnv1a(s: string): bv32 {
    FnvFrom(0x811c_9dc5, s)
  }

  /** The fsid a share's name hashes to on this server. */
  function HashedFsid(key: string, share: string): Slot {
    FSID_BASE + (Fnv1a(key + "/" + share) as nat) % FSID_SPAN
  }
}
