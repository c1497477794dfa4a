/** Bytes as machine words. */
module MachineByte {
  lemma ByteBack(n: int)
    requires 0 <= n < 256
    ensures (n as bv8) as int == n
  {}
}

/** What the fsid hash is: RFC 3629's bytes, FNV-1a's published values, and the range of an fsid. */
module FsidHashLaws {
  import opened FsidHash
  import opened MachineByte

  // ---- The bytes of a character (section 3 of RFC 3629) --------------------------------------

  /** Digits to the base 64. */
  lemma Sextets(n: nat)
    ensures n == n / 64 * 64 + n % 64
    ensures n == (n / 4096 * 64 + n / 64 % 64) * 64 + n % 64
    ensures n == ((n / 262144 * 64 + n / 4096 % 64) * 64 + n / 64 % 64) * 64 + n % 64
  {
    assert n / 64 / 64 == n / 4096 && n / 4096 / 64 == n / 262144;
  }

  predicate IsTail(b: int) {
    0x80 <= b <= 0xBF
  }

  /** The number that bytes encode. */
  function Decoded(bytes: seq<int>): int {
    if |bytes| == 1 then bytes[0]
    else if |bytes| == 2 then (bytes[0] - 0xC0) * 64 + (bytes[1] - 0x80)
    else if |bytes| == 3 then ((bytes[0] - 0xE0) * 64 + (bytes[1] - 0x80)) * 64 + (bytes[2] - 0x80)
    else if |bytes| == 4 then
      (((bytes[0] - 0xF0) * 64 + (bytes[1] - 0x80)) * 64 + (bytes[2] - 0x80)) * 64 + (bytes[3] - 0x80)
    else -1
  }

  /** The first byte tells how many there are. */
  predicate WellFormed(b: seq<int>) {
    && 1 <= |b| <= 4
    && (|b| == 1 ==> 0 <= b[0] <= 0x7F) && (|b| == 2 ==> 0xC2 <= b[0] <= 0xDF)
    && (|b| == 3 ==> 0xE0 <= b[0] <= 0xEF) && (|b| == 4 ==> 0xF0 <= b[0] <= 0xF4)
    && forall i | 1 <= i < |b| :: IsTail(b[i])
  }

  /** The bytes of `n` as numbers. */
  function Bytes(n: nat): seq<int> {
    if n < 0x80 then [n]
    else if n < 0x800 then [0xC0 + n / 64, 0x80 + n % 64]
    else if n < 0x1_0000 then [0xE0 + n / 4096, 0x80 + n / 64 % 64, 0x80 + n % 64]
    else [0xF0 + n / 262144, 0x80 + n / 4096 % 64, 0x80 + n / 64 % 64, 0x80 + n % 64]
  }

  lemma BytesDecode(n: nat)
    requires n <= 0x10_FFFF
    ensures WellFormed(Bytes(n)) && Decoded(Bytes(n)) == n
    ensures |Bytes(n)| == if n <= 0x7F then 1 else if n <= 0x7FF then 2 else if n <= 0xFFFF then 3 else 4
  {
    Sextets(n);
  }

  ghost predicate AreBytes(b: seq<bv8>, numbers: seq<int>) {
    |b| == |numbers| && forall i | 0 <= i < |b| :: b[i] as int == numbers[i]
  }

  predicate IsByte(n: int) {
    0 <= n < 256
  }

  lemma TwoBack(x: int, y: int)
    requires IsByte(x) && IsByte(y)
    ensures AreBytes([x as bv8, y as bv8], [x, y])
  {
    ByteBack(x);
    ByteBack(y);
  }

  lemma ThreeBack(x: int, y: int, z: int)
    requires IsByte(x) && IsByte(y) && IsByte(z)
    ensures AreBytes([x as bv8, y as bv8, z as bv8], [x, y, z])
  {
    ByteBack(x);
    ByteBack(y);
    ByteBack(z);
  }

  lemma FourBack(w: int, x: int, y: int, z: int)
    requires IsByte(w) && IsByte(x) && IsByte(y) && IsByte(z)
    ensures AreBytes([w as bv8, x as bv8, y as bv8, z as bv8], [w, x, y, z])
  {
    ByteBack(w);
    ByteBack(x);
    ByteBack(y);
    ByteBack(z);
  }

  lemma AsciiIsByte(c: char)
    requires c as int < 0x80
    ensures AreBytes(Utf8(c), [c as int])
  {
    ByteBack(c as int);
  }

  lemma TwoAreBytes(c: char)
    requires 0x80 <= c as int < 0x800
    ensures AreBytes(Utf8(c), Bytes(c as int))
  {
    var n := c as int;
    hide AreBytes;
    TwoBack(0xC0 + n / 64, 0x80 + n % 64);
  }

  lemma ThreeAreBytes(c: char)
    requires 0x800 <= c as int < 0x1_0000
    ensures AreBytes(Utf8(c), Bytes(c as int))
  {
    var n := c as int;
    hide AreBytes;
    ThreeBack(0xE0 + n / 4096, 0x80 + n / 64 % 64, 0x80 + n % 64);
  }

  lemma FourAreBytes(c: char)
    requires 0x1_0000 <= c as int
    ensures AreBytes(Utf8(c), Bytes(c as int))
  {
    var n := c as int;
    hide AreBytes;
    FourBack(0xF0 + n / 262144, 0x80 + n / 4096 % 64, 0x80 + n / 64 % 64, 0x80 + n % 64);
  }

  lemma Utf8IsBytes(c: char)
    ensures AreBytes(Utf8(c), Bytes(c as int))
  {
    hide Utf8;
    var n := c as int;
    if n < 0x80 {
      AsciiIsByte(c);
    } else if n < 0x800 {
      TwoAreBytes(c);
    } else if n < 0x1_0000 {
      ThreeAreBytes(c);
    } else {
      FourAreBytes(c);
    }
  }

  /**
   One byte up to U+007F, two up to U+07FF, three up to U+FFFF, else four, each in its range; and
   they decode to the character.
   */
  lemma Utf8Decodes(c: char) returns (b: seq<int>)
    ensures AreBytes(Utf8(c), b) && WellFormed(b) && Decoded(b) == c as int
    ensures |b| == if c <= '\U{007F}' then 1 else if c <= '\U{07FF}' then 2 else if c <= '\U{FFFF}' then 3 else 4
  {
    b := Bytes(c as int);
    Utf8IsBytes(c);
    BytesDecode(c as int);
  }

  // ---- FNV-1a -----------------------------------------------------------------------------------

  lemma Utf8Ascii(c: char, b: bv8)
    requires c as int == b as int && b < 0x80
    ensures Utf8(c) == [b]
  {
    ByteBack(b as int);
  }

  /** One ASCII character is one byte, taken in with one multiplication. */
  lemma FnvAscii(h: bv32, c: char, b: bv8, rest: string)
    requires c as int == b as int && b < 0x80
    ensures FnvFrom(h, [c] + rest) == FnvFrom((h ^ (b as bv32)) * 0x0100_0193, rest)
  {
    Utf8Ascii(c, b);
    FnvByte(h, b);
    hide Utf8, FnvBytes;
    assert ([c] + rest)[1..] == rest;
    assert FnvMixed(h, b) == (h ^ (b as bv32)) * 0x0100_0193;
    hide FnvMixed;
  }

  lemma FnvByte(h: bv32, b: bv8)
    ensures FnvBytes(h, [b]) == FnvMixed(h, b)
  {
    hide FnvMixed;
    assert [b][1..] == [];
    assert FnvBytes(h, [b]) == FnvBytes(FnvMixed(h, [b][0]), []);
  }

  lemma FnvDone(h: bv32)
    ensures FnvFrom(h, "") == h
  {}

  lemma HashOfA()
    ensures FnvFrom(0x811c_9dc5, "a") == 0xe40c292c
  {
    hide *;
    assert "a" == ['a'] + "";
    FnvAscii(0x811c9dc5, 'a', 97, "");
    FnvDone(0xe40c292c);
  }

  lemma HashOfFoobar()
    ensures FnvFrom(0x811c_9dc5, "foobar") == 0xbf9cf968
  {
    hide *;
    assert "foobar" == ['f'] + "oobar";
    FnvAscii(0x811c9dc5, 'f', 102, "oobar");
    assert "oobar" == ['o'] + "obar";
    FnvAscii(0xe30c2799, 'o', 111, "obar");
    assert "obar" == ['o'] + "bar";
    FnvAscii(0x6222e842, 'o', 111, "bar");
    assert "bar" == ['b'] + "ar";
    FnvAscii(0xa9f37ed7, 'b', 98, "ar");
    assert "ar" == ['a'] + "r";
    FnvAscii(0x3f5076ef, 'a', 97, "r");
    assert "r" == ['r'] + "";
    FnvAscii(0x39aaa18a, 'r', 114, "");
    FnvDone(0xbf9cf968);
  }

  lemma HashOfKeyAndShare()
    ensures FnvFrom(0x811c_9dc5, "k/pbs") == 0x48113b5a
  {
    hide *;
    assert "k/pbs" == ['k'] + "/pbs";
    FnvAscii(0x811c9dc5, 'k', 107, "/pbs");
    assert "/pbs" == ['/'] + "pbs";
    FnvAscii(0xee0c38ea, '/', 47, "pbs");
    assert "pbs" == ['p'] + "bs";
    FnvAscii(0x823d5e1f, 'p', 112, "bs");
    assert "bs" == ['b'] + "s";
    FnvAscii(0x759ba8bd, 'b', 98, "s");
    assert "s" == ['s'] + "";
    FnvAscii(0x030ad70d, 's', 115, "");
    FnvDone(0x48113b5a);
  }

  /** The values published for the empty text, `a` and `foobar`. */
  lemma GoldenVectors()
    ensures Fnv1a("") == 0x811c_9dc5 && Fnv1a("a") == 0xe40c_292c && Fnv1a("foobar") == 0xbf9c_f968
  {
    HashOfA();
    HashOfFoobar();
    FnvDone(0x811c_9dc5);
    hide FnvFrom;
  }

  /** An fsid is the hash of the server's key and the share, `/` between them, brought into 1000 to 2^30 + 999. */
  lemma FsidOfShare(key: string, share: string)
    ensures HashedFsid(key, share) == 1000 + (Fnv1a(key + "/" + share) as nat) % 0x4000_0000
    ensures 1000 <= HashedFsid(key, share) <= 0x4000_03E7
    ensures forall f: nat :: InWindow(f) <==> 1000 <= f <= 0x4000_03E7
  {
    hide Fnv1a;
  }

  lemma FsidNumber(h: bv32)
    requires h == 0x4811_3b5a
    ensures 1000 + (h as nat) % 0x4000_0000 == 135_348_034
  {}

  /** And one such fsid. */
  lemma FsidOfPbs()
    ensures HashedFsid("k", "pbs") == 135_348_034
  {
    assert "k" + "/" + "pbs" == "k/pbs";
    HashOfKeyAndShare();
    hide FnvFrom, HashedFsid;
    assert Fnv1a("k/pbs") == 0x4811_3b5a;
    hide Fnv1a;
    FsidNumber(Fnv1a("k/pbs"));
    FsidOfShare("k", "pbs");
  }
}
