/**
  The three key encodings of trie/encoding.go.

  KEYBYTES is the raw key, HEX holds one nibble per byte and ends with the
  terminator 16 when the key leads to a value, COMPACT is the hex-prefix
  encoding of Appendix C of the Ethereum Yellow Paper.
 */
module Keys {
  import opened Bytes

  const TERMINATOR: byte := 16

  predicate HasTerm(s: Bytes) {
    |s| > 0 && s[|s| - 1] == TERMINATOR
  }

  predicate Nibbles(s: Bytes) {
    forall i :: 0 <= i < |s| ==> s[i] < 16
  }

  /** A stretch of a hex key: nibbles, possibly closed by the terminator. */
  predicate HexPath(s: Bytes) {
    if HasTerm(s) then Nibbles(s[..|s| - 1]) else Nibbles(s)
  }

  /** A whole hex key, or what is left of one after some nibbles were consumed. */
  predicate HexKey(s: Bytes) {
    HasTerm(s) && HexPath(s)
  }

  // ---------- packing nibbles into bytes ----------

  function Pack(s: Bytes): (r: Bytes)
    requires Nibbles(s) && |s| % 2 == 0
    ensures |r| == |s| / 2
  {
    if s == [] then [] else [s[0] * 16 + s[1]] + Pack(s[2..])
  }

  function Unpack(s: Bytes): (r: Bytes)
    ensures |r| == 2 * |s| && Nibbles(r)
  {
    if s == [] then [] else [s[0] / 16, s[0] % 16] + Unpack(s[1..])
  }

  lemma {:induction false} UnpackPack(s: Bytes)
    requires Nibbles(s) && |s| % 2 == 0
    ensures Unpack(Pack(s)) == s
  {
    if s != [] {
      UnpackPack(s[2..]);
      assert Pack(s)[1..] == Pack(s[2..]);
      assert s == [s[0], s[1]] + s[2..];
    }
  }

  lemma {:induction false} PackUnpack(s: Bytes)
    ensures Pack(Unpack(s)) == s
  {
    if s != [] {
      PackUnpack(s[1..]);
      assert Unpack(s)[2..] == Unpack(s[1..]);
    }
  }

  lemma {:induction false} PackAt(s: Bytes, j: nat)
    requires Nibbles(s) && |s| % 2 == 0 && j < |s| / 2
    ensures Pack(s)[j] == s[2 * j] * 16 + s[2 * j + 1]
  {
    if j > 0 {
      PackAt(s[2..], j - 1);
    }
  }

  lemma {:induction false} UnpackAt(s: Bytes, j: nat)
    requires j < |s|
    ensures Unpack(s)[2 * j] == s[j] / 16 && Unpack(s)[2 * j + 1] == s[j] % 16
  {
    if j > 0 {
      UnpackAt(s[1..], j - 1);
    }
  }

  // ---------- the encodings as functions ----------

  function KeybytesToHex(s: Bytes): (r: Bytes)
    ensures HexKey(r) && |r| == 2 * |s| + 1
  {
    assert (Unpack(s) + [TERMINATOR])[..2 * |s|] == Unpack(s);
    Unpack(s) + [TERMINATOR]
  }

  function DropTerm(s: Bytes): (r: Bytes)
    ensures HexPath(s) ==> Nibbles(r)
  {
    if HasTerm(s) then s[..|s| - 1] else s
  }

  function HexToKeybytes(s: Bytes): (r: Result<Bytes>)
    requires HexPath(s)
    ensures r.Ok? <==> |DropTerm(s)| % 2 == 0
  {
    var body := DropTerm(s);
    if |body| % 2 != 0 then Err(Panic) else Ok(Pack(body))
  }

  function HexToCompact(s: Bytes): (r: Bytes)
    requires HexPath(s)
    ensures |r| == |DropTerm(s)| / 2 + 1
  {
    var flag := if HasTerm(s) then 32 else 0;
    var body := DropTerm(s);
    assert Nibbles(body);
    if |body| % 2 == 1 then [flag + 16 + body[0]] + Pack(body[1..])
    else [flag] + Pack(body)
  }

  /** `HexToCompact` as a flag byte and the nibbles from `start` on. */
  lemma HexToCompactParts(s: Bytes, start: nat)
    requires HexPath(s) && start == |DropTerm(s)| % 2
    ensures Nibbles(DropTerm(s)[start..]) && |DropTerm(s)[start..]| % 2 == 0
    ensures HexToCompact(s) ==
            [(if HasTerm(s) then 32 else 0) + (if start == 1 then 16 + DropTerm(s)[0] else 0)]
            + Pack(DropTerm(s)[start..])
  {
    assert DropTerm(s)[0..] == DropTerm(s);
  }

  /** Removes the flag nibble of an unpacked compact key, and what the flag says is not part of the key. */
  function ChopFlag(base: Bytes): (r: Bytes)
    requires |base| >= 3
  {
    var cut := if base[0] < 2 then base[..|base| - 1] else base;
    cut[2 - base[0] % 2..]
  }

  function CompactToHex(c: Bytes): (r: Bytes) {
    if c == [] then c else ChopFlag(KeybytesToHex(c))
  }

  // ---------- the encodings undo each other ----------

  lemma KeybytesRoundTrip(s: Bytes)
    ensures HexToKeybytes(KeybytesToHex(s)) == Ok(s)
  {
    PackUnpack(s);
    assert DropTerm(KeybytesToHex(s)) == Unpack(s);
  }

  lemma HexRoundTrip(k: Bytes)
    requires HexKey(k) && |k| % 2 == 1
    ensures HexToKeybytes(k).Ok?
    ensures KeybytesToHex(HexToKeybytes(k).value) == k
  {
    UnpackPack(DropTerm(k));
  }

  lemma CompactRoundTrip(k: Bytes)
    requires HexPath(k)
    ensures CompactToHex(HexToCompact(k)) == k
  {
    hide CompactToHex, HexToCompact, Pack, Unpack;
    var body := DropTerm(k);
    var start := |body| % 2;
    HexToCompactParts(k, start);
    UnpackPack(body[start..]);
    CompactToHexOfParts(
      (if HasTerm(k) then 2 else 0) + start, if start == 1 then body[0] else 0, Pack(body[start..]));
    assert k == (if start == 1 then [body[0]] + body[start..] else body[start..]) +
                (if HasTerm(k) then [TERMINATOR] else []);
  }

  /** What `CompactToHex` makes of a flag nibble, a low nibble and packed nibbles. */
  lemma CompactToHexOfParts(flag: byte, low: byte, packed: Bytes)
    requires flag < 4 && low < 16
    ensures CompactToHex([flag * 16 + low] + packed) ==
            (if flag == 1 || flag == 3 then [low] + Unpack(packed) else Unpack(packed)) +
            (if flag < 2 then [] else [TERMINATOR])
  {
    hide ChopFlag;
    UnpackCons(flag, low, packed);
    ChopFlagOfParts(flag, low, Unpack(packed));
  }

  lemma UnpackCons(flag: byte, low: byte, packed: Bytes)
    requires flag < 16 && low < 16
    ensures Unpack([flag * 16 + low] + packed) == [flag, low] + Unpack(packed)
  {
    var c := [flag * 16 + low] + packed;
    assert c[0] / 16 == flag && c[0] % 16 == low;
    assert c[1..] == packed;
  }

  lemma ChopFlagOfParts(flag: byte, low: byte, nibbles: Bytes)
    requires flag < 4
    ensures ChopFlag([flag, low] + nibbles + [TERMINATOR]) ==
            (if flag == 1 || flag == 3 then [low] + nibbles else nibbles) +
            (if flag < 2 then [] else [TERMINATOR])
  {
    assert flag % 2 == 1 <==> flag == 1 || flag == 3;
  }

  lemma KeybytesToHexInjective(a: Bytes, b: Bytes)
    requires KeybytesToHex(a) == KeybytesToHex(b)
    ensures a == b
  {
    KeybytesRoundTrip(a);
    KeybytesRoundTrip(b);
  }

  // ---------- common prefixes ----------

  function PrefixLen(a: Bytes, b: Bytes): (n: nat)
    ensures n <= |a| && n <= |b|
    ensures a[..n] == b[..n]
    ensures n < |a| && n < |b| ==> a[n] != b[n]
  {
    if a != [] && b != [] && a[0] == b[0]
    then
      var m := PrefixLen(a[1..], b[1..]);
      assert a[..m + 1] == [a[0]] + a[1..][..m];
      assert b[..m + 1] == [b[0]] + b[1..][..m];
      m + 1
    else 0
  }

  lemma {:induction false} PrefixLenUnique(a: Bytes, b: Bytes, n: nat)
    requires n <= |a| && n <= |b| && a[..n] == b[..n]
    requires n < |a| && n < |b| ==> a[n] != b[n]
    ensures PrefixLen(a, b) == n
  {
    if n > 0 {
      assert a[0] == a[..n][0] && b[0] == b[..n][0];
      assert a[1..][..n - 1] == a[..n][1..] && b[1..][..n - 1] == b[..n][1..];
      PrefixLenUnique(a[1..], b[1..], n - 1);
    }
  }

  method CommonPrefix(a: Bytes, b: Bytes) returns (i: nat)
    ensures i == PrefixLen(a, b)
  {
    i := 0;
    var length := |a|;
    if |b| < length {
      length := |b|;
    }
    while i < length
      invariant i <= length && a[..i] == b[..i]
    {
      if a[i] != b[i] {
        break;
      }
      i := i + 1;
    }
    PrefixLenUnique(a, b, i);
  }

  // ---------- the loops of trie/encoding.go ----------

  method DecodeNibbles(nibbles: Bytes, bytes: array<byte>, from: nat)
    requires Nibbles(nibbles) && |nibbles| % 2 == 0
    requires from + |nibbles| / 2 <= bytes.Length
    modifies bytes
    ensures bytes[..] ==
            old(bytes[..from]) + Pack(nibbles) + old(bytes[from + |nibbles| / 2..])
  {
    var bi, ni := 0, 0;
    while ni < |nibbles|
      invariant ni == 2 * bi <= |nibbles|
      invariant forall j :: 0 <= j < bytes.Length && !(from <= j < from + bi) ==> bytes[j] == old(bytes[j])
      invariant forall j :: from <= j < from + bi ==> bytes[j] == Pack(nibbles)[j - from]
    {
      PackAt(nibbles, bi);
      bytes[from + bi] := nibbles[ni] * 16 + nibbles[ni + 1];
      bi, ni := bi + 1, ni + 2;
    }
  }

  method KeybytesToHexLoop(str: Bytes) returns (nibbles: array<byte>)
    ensures nibbles[..] == KeybytesToHex(str)
  {
    var l := |str| * 2 + 1;
    nibbles := new byte[l](_ => 0);
    for i := 0 to |str|
      invariant forall j :: 0 <= j < 2 * i ==> nibbles[j] == Unpack(str)[j]
    {
      UnpackAt(str, i);
      nibbles[i * 2] := str[i] / 16;
      nibbles[i * 2 + 1] := str[i] % 16;
    }
    nibbles[l - 1] := TERMINATOR;
  }

  method HexToCompactAlloc(hex: Bytes) returns (buf: array<byte>)
    requires HexPath(hex)
    ensures buf[..] == HexToCompact(hex)
  {
    var body := DropTerm(hex);
    buf := new byte[|body| / 2 + 1](_ => 0);
    buf[0] := if HasTerm(hex) then 32 else 0;
    if |body| % 2 == 1 {
      buf[0] := buf[0] + 16 + body[0];
      body := body[1..];
    }
    DecodeNibbles(body, buf, 1);
  }

  /** The loop of the in-place form: the pairs from `start` on move, packed, to index 1 and up. */
  method PackPairs(hex: array<byte>, start: nat, hexLen: nat)
    requires start <= 1 && start <= hexLen <= hex.Length && 0 < hex.Length && (hexLen - start) % 2 == 0
    requires Nibbles(hex[start..hexLen])
    modifies hex
    ensures (hexLen - start) / 2 < hex.Length
    ensures forall j :: 0 <= j < (hexLen - start) / 2 ==> hex[1 + j] == Pack(old(hex[start..hexLen]))[j]
  {
    hide Pack;
    ghost var was := hex[start..hexLen];
    var ni, bi := start, 1;
    while ni < hexLen
      invariant ni == start + 2 * (bi - 1) && 1 <= bi && ni <= hexLen
      invariant forall j :: start <= j < hexLen && bi <= j && ni <= j ==> hex[j] == was[j - start]
      invariant ni == 0 < hexLen ==> hex[0] == was[0]
      invariant forall j :: 0 <= j < bi - 1 ==> hex[1 + j] == Pack(was)[j]
    {
      PackAt(was, bi - 1);
      assert hex[ni] == was[ni - start] && hex[ni + 1] == was[ni + 1 - start];
      hex[bi] := hex[ni] * 16 + hex[ni + 1];
      bi, ni := bi + 1, ni + 2;
    }
  }

  /** Packs the key inside its own buffer; only the first `size` bytes of the buffer count afterwards. */
  method HexToCompactInPlace(hex: array<byte>) returns (size: nat)
    requires hex.Length > 0 && HexPath(hex[..])
    modifies hex
    ensures size <= hex.Length
    ensures hex[..size] == HexToCompact(old(hex[..]))
  {
    hide HexToCompact, Pack;
    ghost var was := hex[..];
    ghost var body := DropTerm(was);
    var hexLen := hex.Length;
    var firstByte := 0;
    if hex[hexLen - 1] == TERMINATOR {
      firstByte := 32;
      hexLen := hexLen - 1;
    }
    var start := hexLen % 2;
    assert body == was[..hexLen];
    if start == 1 {
      assert body[0] < 16;
      firstByte := firstByte + 16 + hex[0];
    }
    HexToCompactParts(was, start);
    assert hex[start..hexLen] == body[start..];
    PackPairs(hex, start, hexLen);
    hex[0] := firstByte;
    size := hexLen / 2 + 1;
    assert hex[..size] == [firstByte] + Pack(body[start..]);
  }
}
