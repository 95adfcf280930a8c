/**
 * FNV-1a namespacing of data directories and the Linux default endpoint: crates/proto/src/lib.rs.
 *
 * 64-bit words are numbers below 2^64; wrapping multiplication is reduction modulo 2^64.
 */
module Namespace {
  const MODULUS := 0x1_0000_0000_0000_0000
  const OFFSET := 0xcbf2_9ce4_8422_2325
  const PRIME := 0x100_0000_01b3
  /** PRIME * INVERSE == 1 + QUOTIENT * MODULUS. */
  const INVERSE := 0xce96_5057_aff6_957b
  const QUOTIENT := 0xce9650590f

  type Word = n: nat | n < 0x1_0000_0000_0000_0000

  /** Bitwise exclusive or. */
  function Xor(a: nat, b: nat): nat
    decreases a + b
  {
    if a == 0 && b == 0 then 0 else 2 * Xor(a / 2, b / 2) + (a + b) % 2
  }

  function Pow2(k: nat): nat { if k == 0 then 1 else 2 * Pow2(k - 1) }

  lemma {:induction false} XorBelow(a: nat, b: nat, k: nat)
    requires a < Pow2(k) && b < Pow2(k)
    ensures Xor(a, b) < Pow2(k)
  {
    if k == 0 {
    } else {
      XorBelow(a / 2, b / 2, k - 1);
    }
  }

  /** One binary digit of the definition. */
  lemma XorDigit(a: nat, b: nat)
    ensures Xor(a, b) / 2 == Xor(a / 2, b / 2) && Xor(a, b) % 2 == (a + b) % 2
  {
  }

  /** The k-th binary digit. */
  function Bit(n: nat, k: nat): nat {
    if k == 0 then n % 2 else Bit(n / 2, k - 1)
  }

  /** Bit for bit, the exclusive or is set where exactly one of the two is. */
  lemma {:induction false} XorBits(a: nat, b: nat, k: nat)
    ensures Bit(Xor(a, b), k) == if Bit(a, k) == Bit(b, k) then 0 else 1
    decreases k
  {
    XorDigit(a, b);
    if k == 0 {
    } else {
      XorBits(a / 2, b / 2, k - 1);
    }
  }

  lemma {:induction false} XorUndoes(a: nat, b: nat)
    ensures Xor(Xor(a, b), b) == a
    decreases a + b
  {
    if a == 0 && b == 0 {
    } else {
      XorUndoes(a / 2, b / 2);
      var x := Xor(a, b);
      XorDigit(a, b);
      XorDigit(x, b);
      ParityUndone(a, b, x);
      Halves(Xor(x, b), a);
    }
  }

  lemma ParityUndone(a: nat, b: nat, x: nat)
    requires x % 2 == (a + b) % 2
    ensures (x + b) % 2 == a % 2
  {
  }

  lemma Halves(a: nat, b: nat)
    requires a / 2 == b / 2 && a % 2 == b % 2
    ensures a == b
  {
  }

  lemma Pow2Byte(k: nat)
    ensures Pow2(k + 8) == 256 * Pow2(k)
  {
    assert Pow2(k + 4) == 16 * Pow2(k) by {
      assert Pow2(k + 2) == 4 * Pow2(k);
    }
    assert Pow2(k + 6) == 4 * Pow2(k + 4);
  }

  lemma Pow2Word()
    ensures Pow2(64) == MODULUS
  {
    Pow2Byte(0);
    Pow2Byte(8);
    Pow2Byte(16);
    Pow2Byte(24);
    Pow2Byte(32);
    Pow2Byte(40);
    Pow2Byte(48);
    Pow2Byte(56);
  }

  lemma WordXor(h: Word, byte: nat)
    requires byte < 256
    ensures Xor(h, byte) < MODULUS
  {
    Pow2Word();
    XorBelow(h, byte, 64);
  }

  /** One round: xor the byte in, multiply by the prime, wrap. */
  function Round(h: Word, byte: nat): Word
    requires byte < 256
  {
    (Xor(h, byte) * PRIME) % MODULUS
  }

  /** The round's inverse for the same byte. */
  ghost function Unround(h: Word, byte: nat): nat
    requires byte < 256
  {
    Xor((h * INVERSE) % MODULUS, byte)
  }

  lemma Residue(a: int, x: nat, k: int)
    requires a == x + MODULUS * k && x < MODULUS
    ensures a % MODULUS == x
  {
  }

  lemma MultiplyUndone(x: Word)
    ensures (x * PRIME) % MODULUS * INVERSE % MODULUS == x
    ensures (x * INVERSE) % MODULUS * PRIME % MODULUS == x
  {
    assert PRIME * INVERSE == 1 + QUOTIENT * MODULUS;
    var q, r := x * PRIME / MODULUS, x * PRIME % MODULUS;
    assert r * INVERSE == x + MODULUS * (x * QUOTIENT - q * INVERSE);
    Residue(r * INVERSE, x, x * QUOTIENT - q * INVERSE);
    var p, s := x * INVERSE / MODULUS, x * INVERSE % MODULUS;
    assert s * PRIME == x + MODULUS * (x * QUOTIENT - p * PRIME);
    Residue(s * PRIME, x, x * QUOTIENT - p * PRIME);
  }

  /** For each byte the round is a bijection on 64-bit words. */
  lemma RoundIsBijective(h: Word, byte: nat)
    requires byte < 256
    ensures Unround(Round(h, byte), byte) == h
    ensures Unround(h, byte) < MODULUS && Round(Unround(h, byte), byte) == h
  {
    WordXor(h, byte);
    MultiplyUndone(Xor(h, byte));
    XorUndoes(h, byte);
    var m := (h * INVERSE) % MODULUS;
    WordXor(m, byte);
    XorUndoes(m, byte);
    MultiplyUndone(h);
  }

  lemma RoundSeparates(g: Word, x: nat, h: Word, y: nat)
    requires x < 256 && y < 256 && Round(g, x) == Round(h, y)
    ensures Xor(g, x) == Xor(h, y)
  {
    WordXor(g, x);
    WordXor(h, y);
    MultiplyUndone(Xor(g, x));
    MultiplyUndone(Xor(h, y));
  }

  lemma SameByte(g: Word, h: Word, byte: nat)
    requires byte < 256 && Round(g, byte) == Round(h, byte)
    ensures g == h
  {
    RoundSeparates(g, byte, h, byte);
    XorUndoes(g, byte);
    XorUndoes(h, byte);
  }

  lemma SameHash(h: Word, x: nat, y: nat)
    requires x < 256 && y < 256 && Round(h, x) == Round(h, y)
    ensures x == y
  {
    RoundSeparates(h, x, h, y);
    XorSeparates(h, x, y);
  }

  type Bytes = s: seq<nat> | forall i :: 0 <= i < |s| ==> s[i] < 256

  /** The fold over the encoded path. */
  function Hash(h: Word, bytes: Bytes): Word
    decreases |bytes|
  {
    if bytes == [] then h else Hash(Round(h, bytes[0]), bytes[1..])
  }

  /** A common tail can neither merge two different hashes nor split equal ones. */
  lemma {:induction false} TailKeepsDifference(a: Word, b: Word, tail: Bytes)
    ensures Hash(a, tail) == Hash(b, tail) <==> a == b
    decreases |tail|
  {
    if tail == [] {
    } else {
      var p, q := Round(a, tail[0]), Round(b, tail[0]);
      TailKeepsDifference(p, q, tail[1..]);
      if p == q {
        SameByte(a, b, tail[0]);
      }
    }
  }

  lemma {:induction false} XorSeparates(h: nat, x: nat, y: nat)
    requires Xor(h, x) == Xor(h, y)
    ensures x == y
    decreases h + x + y
  {
    if h + x + y == 0 {
    } else {
      XorDigit(h, x);
      XorDigit(h, y);
      XorSeparates(h / 2, x / 2, y / 2);
      ParityUndone(x, h, Xor(h, x));
      ParityUndone(y, h, Xor(h, y));
      Halves(x, y);
    }
  }

  /** Two directories of equal length that differ in exactly one byte hash differently. */
  lemma {:induction false} OneByteSeparates(h: Word, a: Bytes, b: Bytes, i: nat)
    requires |a| == |b| && i < |a| && a[i] != b[i]
    requires forall j :: 0 <= j < |a| && j != i ==> a[j] == b[j]
    ensures Hash(h, a) != Hash(h, b)
    decreases |a|
  {
    var p, q := Round(h, a[0]), Round(h, b[0]);
    if i == 0 {
      assert a[1..] == b[1..];
      if p == q {
        SameHash(h, a[0], b[0]);
      }
      TailKeepsDifference(p, q, a[1..]);
    } else {
      OneByteSeparates(p, a[1..], b[1..], i - 1);
    }
  }

  lemma {:induction false} XorZero(n: nat)
    ensures Xor(n, 0) == n
  {
    if n == 0 {
    } else {
      XorZero(n / 2);
    }
  }

  /** One more binary digit. */
  lemma XorUp(a: nat, b: nat, x: nat)
    requires Xor(a / 2, b / 2) == x
    ensures Xor(a, b) == 2 * x + (a + b) % 2
  {
  }

  lemma FirstXor(h: nat, byte: nat)
    requires h == OFFSET && byte == 97
    ensures Xor(h, byte) == 0xcbf2_9ce4_8422_2344
  {
    XorZero(0x197_e539_c908_4446);
    XorUp(0x32f_ca73_9210_888c, 1, 0x197_e539_c908_4446);
    XorUp(0x65f_94e7_2421_1119, 3, 0x32f_ca73_9210_888d);
    XorUp(0xcbf_29ce_4842_2232, 6, 0x65f_94e7_2421_111a);
    XorUp(0x197e_539c_9084_4464, 12, 0xcbf_29ce_4842_2234);
    XorUp(0x32fc_a739_2108_88c9, 24, 0x197e_539c_9084_4468);
    XorUp(0x65f9_4e72_4211_1192, 48, 0x32fc_a739_2108_88d1);
    XorUp(0xcbf2_9ce4_8422_2325, 97, 0x65f9_4e72_4211_11a2);
  }

  lemma FirstProduct(x: nat)
    requires x == 0xcbf2_9ce4_8422_2344
    ensures (x * PRIME) % MODULUS == 0xaf63_dc4c_8601_ec8c
  {
    Residue(x * PRIME, 0xaf63_dc4c_8601_ec8c, 0xcbf29ce5de);
  }

  /** The published FNV-1a values of the empty string and of "a". */
  lemma KnownHashes(start: Word, empty: Bytes, a: Bytes)
    requires start == OFFSET && empty == [] && a == [97]
    ensures Hash(start, empty) == 0xcbf2_9ce4_8422_2325
    ensures Hash(start, a) == 0xaf63_dc4c_8601_ec8c
  {
    var byte := a[0];
    FirstXor(start, byte);
    FirstProduct(Xor(start, byte));
    Wrap(start, byte, Xor(start, byte));
    OneByte(start, byte);
    assert a == [byte];
  }

  lemma Wrap(h: Word, byte: nat, x: nat)
    requires byte < 256 && Xor(h, byte) == x
    ensures Round(h, byte) == (x * PRIME) % MODULUS
  {
  }

  lemma OneByte(h: Word, byte: nat)
    requires byte < 256
    ensures Hash(h, [byte]) == Round(h, byte)
  {
    var bytes: Bytes := [byte];
    assert bytes[1..] == [] && Hash(Round(h, byte), bytes[1..]) == Round(h, byte);
  }

  // ----- The namespace and the endpoint -----

  function HexDigit(n: nat): char
    requires n < 16
  {
    "0123456789abcdef"[n]
  }

  /** The low `width` hexadecimal digits of a number, zero padded. */
  function Hex(n: nat, width: nat): (s: string)
    ensures |s| == width
  {
    if width == 0 then "" else Hex(n / 16, width - 1) + [HexDigit(n % 16)]
  }

  function Pow16(k: nat): nat { if k == 0 then 1 else 16 * Pow16(k - 1) }

  lemma DigitSeparates(a: nat, b: nat)
    requires a < 16 && b < 16 && HexDigit(a) == HexDigit(b)
    ensures a == b
  {
  }

  lemma SameSnoc(s: string, c: char, t: string, d: char)
    requires s + [c] == t + [d]
    ensures s == t && c == d
  {
    assert s == (s + [c])[..|s|] && c == (s + [c])[|s|];
    assert t == (t + [d])[..|t|] && d == (t + [d])[|t|];
  }

  lemma {:induction false} HexSeparates(a: nat, b: nat, width: nat)
    requires a < Pow16(width) && b < Pow16(width) && Hex(a, width) == Hex(b, width)
    ensures a == b
  {
    if width == 0 {
    } else {
      SameSnoc(Hex(a / 16, width - 1), HexDigit(a % 16), Hex(b / 16, width - 1), HexDigit(b % 16));
      DigitSeparates(a % 16, b % 16);
      HexSeparates(a / 16, b / 16, width - 1);
    }
  }

  lemma Pow16Half(k: nat)
    ensures Pow16(k + 4) == 0x1_0000 * Pow16(k)
  {
    assert Pow16(k + 2) == 256 * Pow16(k);
  }

  lemma Pow16Word()
    ensures Pow16(16) == MODULUS
  {
    Pow16Half(0);
    Pow16Half(4);
    Pow16Half(8);
    Pow16Half(12);
  }

  lemma HexOfWord(a: Word, b: Word)
    requires Hex(a, 16) == Hex(b, 16)
    ensures a == b
  {
    Pow16Word();
    HexSeparates(a, b, 16);
  }

  function DigitValue(c: char): nat {
    if '0' <= c <= '9' then (c - '0') as int else if 'a' <= c <= 'f' then (c - 'a') as int + 10 else 0
  }

  /** The number a string of hexadecimal digits stands for. */
  function HexValue(s: string): nat {
    if s == "" then 0 else 16 * HexValue(s[..|s| - 1]) + DigitValue(s[|s| - 1])
  }

  predicate IsHex(s: string) { forall i :: 0 <= i < |s| ==> '0' <= s[i] <= '9' || 'a' <= s[i] <= 'f' }

  lemma HexSnoc(s: string, c: char)
    ensures HexValue(s + [c]) == 16 * HexValue(s) + DigitValue(c)
    ensures IsHex(s) && ('0' <= c <= '9' || 'a' <= c <= 'f') ==> IsHex(s + [c])
  {
    assert (s + [c])[..|s|] == s && (s + [c])[|s|] == c;
  }

  lemma HexUnfolds(n: nat, width: nat)
    requires width > 0
    ensures Hex(n, width) == Hex(n / 16, width - 1) + [HexDigit(n % 16)]
  {
  }

  lemma Pow16Snoc(n: nat, width: nat)
    requires width > 0 && n < Pow16(width)
    ensures n / 16 < Pow16(width - 1)
  {
  }

  /** The digits are lower-case hexadecimal ones and stand for the number. */
  lemma {:induction false} HexMeaning(n: nat, width: nat)
    requires n < Pow16(width)
    ensures HexValue(Hex(n, width)) == n && IsHex(Hex(n, width))
  {
    if width == 0 {
    } else {
      var s, c := Hex(n / 16, width - 1), HexDigit(n % 16);
      Pow16Snoc(n, width);
      HexMeaning(n / 16, width - 1);
      DigitMeaning(n % 16);
      HexSnoc(s, c);
      HexUnfolds(n, width);
    }
  }

  lemma DigitMeaning(n: nat)
    requires n < 16
    ensures DigitValue(HexDigit(n)) == n && ('0' <= HexDigit(n) <= '9' || 'a' <= HexDigit(n) <= 'f')
  {
  }

  function DataDirNamespace(dataDir: Bytes): string { Hex(Hash(OFFSET, dataDir), 16) }

  const APP_DIR := "yagna"
  const SOCKET_NAME := "gsb.sock"

  /** `Path::join` with a relative component. */
  function Join(base: string, name: string): string {
    if base == "" then name
    else if base[|base| - 1] == '/' then base + name
    else base + "/" + name
  }

  function DefaultSocket(runtimeDir: string): string {
    Join(Join(runtimeDir, APP_DIR), SOCKET_NAME)
  }

  function CustomSocket(runtimeDir: string, space: string): string {
    Join(Join(Join(runtimeDir, APP_DIR), space), SOCKET_NAME)
  }

  /** The socket path of the Linux default endpoint, when the runtime directory is absolute. */
  function SocketPath(runtimeDir: string, dataDir: Bytes, isDefault: bool): string {
    if isDefault then DefaultSocket(runtimeDir) else CustomSocket(runtimeDir, DataDirNamespace(dataDir))
  }

  predicate PlainName(s: string) { s != "" && s[|s| - 1] != '/' }

  lemma JoinPlain(base: string, name: string)
    requires PlainName(name)
    ensures PlainName(Join(base, name))
    ensures PlainName(base) ==> Join(base, name) == base + "/" + name
  {
    var j := Join(base, name);
    assert j[|j| - 1] == name[|name| - 1];
  }

  lemma NamespaceIsPlain(dataDir: Bytes)
    ensures PlainName(DataDirNamespace(dataDir)) && |DataDirNamespace(dataDir)| == 16
  {
    var h := Hash(OFFSET, dataDir);
    assert Hex(h, 16)[15] == HexDigit(h % 16);
  }

  lemma SocketShape(runtimeDir: string, space: string)
    requires PlainName(space)
    ensures var dir := Join(runtimeDir, APP_DIR);
            && DefaultSocket(runtimeDir) == dir + "/" + SOCKET_NAME
            && CustomSocket(runtimeDir, space) == dir + "/" + space + ("/" + SOCKET_NAME)
  {
    var dir := Join(runtimeDir, APP_DIR);
    JoinPlain(runtimeDir, APP_DIR);
    JoinPlain(dir, SOCKET_NAME);
    JoinPlain(dir, space);
    JoinPlain(Join(dir, space), SOCKET_NAME);
    assert dir + "/" + space + "/" + SOCKET_NAME == dir + "/" + space + ("/" + SOCKET_NAME);
  }

  lemma PathsDiffer(head: string, x: string, y: string, tail: string)
    requires |x| == |y| && x != y
    ensures head + x + tail != head + y + tail
  {
    var p, q := head + x + tail, head + y + tail;
    assert p[|head|..|head| + |x|] == x && q[|head|..|head| + |y|] == y;
  }

  lemma SocketsDiffer(runtimeDir: string, x: string, y: string)
    requires PlainName(x) && PlainName(y) && |x| == |y|
    ensures x != y ==> CustomSocket(runtimeDir, x) != CustomSocket(runtimeDir, y)
    ensures CustomSocket(runtimeDir, x) != DefaultSocket(runtimeDir)
  {
    SocketShape(runtimeDir, x);
    SocketShape(runtimeDir, y);
    var tail := "/" + SOCKET_NAME;
    if x != y {
      PathsDiffer(Join(runtimeDir, APP_DIR) + "/", x, y, tail);
    }
    assert |CustomSocket(runtimeDir, x)| == |DefaultSocket(runtimeDir)| + |x| + 1;
  }

  lemma Regrouped(dir: string, app: string, space: string, name: string)
    ensures dir + "/" + app + "/" + name == dir + ("/" + app + "/" + name)
    ensures dir + "/" + app + "/" + space + ("/" + name) == dir + ("/" + app + "/") + space + ("/" + name)
  {
  }

  /** The two socket paths under a runtime directory written without a trailing slash. */
  lemma SocketPaths(runtimeDir: string, dataDir: Bytes)
    requires PlainName(runtimeDir)
    ensures SocketPath(runtimeDir, dataDir, true) == runtimeDir + "/yagna/gsb.sock"
    ensures SocketPath(runtimeDir, dataDir, false) == runtimeDir + "/yagna/" + DataDirNamespace(dataDir) + "/gsb.sock"
  {
    var space := DataDirNamespace(dataDir);
    NamespaceIsPlain(dataDir);
    SocketShape(runtimeDir, space);
    JoinPlain(runtimeDir, APP_DIR);
    Regrouped(runtimeDir, APP_DIR, space, SOCKET_NAME);
    Literals();
  }

  lemma Literals()
    ensures "/" + APP_DIR + "/" + SOCKET_NAME == "/yagna/gsb.sock"
    ensures "/" + APP_DIR + "/" == "/yagna/" && "/" + SOCKET_NAME == "/gsb.sock"
  {
  }

  /** A namespace is the hash, as sixteen lower-case hexadecimal digits. */
  lemma NamespaceIsTheHash(dataDir: Bytes)
    ensures var s := DataDirNamespace(dataDir); |s| == 16 && IsHex(s) && HexValue(s) == Hash(OFFSET, dataDir)
  {
    Pow16Word();
    HexMeaning(Hash(OFFSET, dataDir), 16);
  }

  /** Custom data directories one byte apart get different namespaces and never share a socket under the
      same runtime directory, and none shares the default installation's. */
  lemma CustomSocketsAreDistinct(runtimeDir: string, a: Bytes, b: Bytes, i: nat)
    requires |a| == |b| && i < |a| && a[i] != b[i]
    requires forall j :: 0 <= j < |a| && j != i ==> a[j] == b[j]
    ensures DataDirNamespace(a) != DataDirNamespace(b)
    ensures SocketPath(runtimeDir, a, false) != SocketPath(runtimeDir, b, false)
    ensures SocketPath(runtimeDir, a, false) != SocketPath(runtimeDir, b, true)
  {
    OneByteSeparates(OFFSET, a, b, i);
    if DataDirNamespace(a) == DataDirNamespace(b) {
      HexOfWord(Hash(OFFSET, a), Hash(OFFSET, b));
    }
    NamespaceIsPlain(a);
    NamespaceIsPlain(b);
    SocketsDiffer(runtimeDir, DataDirNamespace(a), DataDirNamespace(b));
  }
}
