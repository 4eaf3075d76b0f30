/**
  Recursive Length Prefix encoding, Appendix B of the Ethereum Yellow Paper, as
  far as trie nodes and accounts need it: byte strings, lists, and the reader
  that takes one item off the front of a buffer and refuses non-canonical sizes.
 */
module Rlp {
  import opened Bytes

  /** The first length that does not fit the eight length bytes of a long item. */
  const SIZE_LIMIT: nat := 0x1_0000_0000_0000_0000

  // ---------- big-endian numbers ----------

  function BigEndian(n: nat): (r: Bytes)
    ensures n == 0 <==> r == []
    ensures r != [] ==> r[0] != 0
  {
    if n == 0 then [] else BigEndian(n / 256) + [n % 256]
  }

  function FromBigEndian(s: Bytes): (n: nat) {
    if s == [] then 0 else FromBigEndian(s[..|s| - 1]) * 256 + s[|s| - 1]
  }

  lemma {:induction false} BigEndianRoundTrip(n: nat)
    ensures FromBigEndian(BigEndian(n)) == n
  {
    if n != 0 {
      BigEndianRoundTrip(n / 256);
      var s := BigEndian(n);
      assert s[..|s| - 1] == BigEndian(n / 256);
    }
  }

  function Pow256(k: nat): (p: nat)
    ensures p > 0
  {
    if k == 0 then 1 else 256 * Pow256(k - 1)
  }

  lemma {:induction false} BigEndianLength(n: nat, k: nat)
    requires n < Pow256(k)
    ensures |BigEndian(n)| <= k
  {
    if n != 0 {
      BigEndianLength(n / 256, k - 1);
    }
  }

  lemma SizeLength(n: nat)
    requires n < SIZE_LIMIT
    ensures |BigEndian(n)| <= 8
  {
    assert Pow256(2) == 0x1_0000;
    assert Pow256(4) == 0x1_0000_0000;
    assert Pow256(6) == 0x1_0000_0000_0000;
    assert Pow256(8) == SIZE_LIMIT;
    BigEndianLength(n, 8);
  }

  // ---------- writing ----------

  /** The tag of an item with `n` bytes of content; the tag byte is truncated as in Go. */
  function Header(base: byte, n: nat): (r: Bytes)
    requires base == 0x80 || base == 0xc0
    ensures |r| >= 1
  {
    if n < 56 then [base + n]
    else [(base + 55 + |BigEndian(n)|) % 256] + BigEndian(n)
  }

  function EncodeString(s: Bytes): (r: Bytes)
    ensures |r| >= 1 && |r| >= |s|
  {
    if |s| == 1 && s[0] < 0x80 then s else Header(0x80, |s|) + s
  }

  function EncodeList(payload: Bytes): (r: Bytes)
    ensures |r| > |payload|
  {
    Header(0xc0, |payload|) + payload
  }

  // ---------- reading ----------

  datatype Kind = Byte | String | List

  datatype Tag = Tag(kind: Kind, tagSize: nat, contentSize: nat)

  datatype Item = Item(kind: Kind, content: Bytes, rest: Bytes)

  function ReadSize(s: Bytes, n: nat): (r: Result<nat>)
    requires n > 0
  {
    if n > |s| then Err(Malformed)
    else
      var size := FromBigEndian(s[..n]);
      if size < 56 || s[0] == 0 then Err(Malformed) else Ok(size)
  }

  function ReadTag(buf: Bytes): (r: Result<Tag>)
    ensures r.Ok? ==> r.value.tagSize + r.value.contentSize > 0
    ensures r.Ok? && r.value.kind.List? ==> r.value.tagSize > 0
  {
    if buf == [] then Err(Malformed)
    else
      var b := buf[0];
      if b < 0x80 then Ok(Tag(Byte, 0, 1))
      else if b < 0xb8 then
        if b == 0x81 && |buf| > 1 && buf[1] < 0x80 then Err(Malformed) else Ok(Tag(String, 1, b - 0x80))
      else if b < 0xc0 then
        var size := ReadSize(buf[1..], b - 0xb7);
        if size.Err? then Err(Malformed) else Ok(Tag(String, b - 0xb7 + 1, size.value))
      else if b < 0xf8 then Ok(Tag(List, 1, b - 0xc0))
      else
        var size := ReadSize(buf[1..], b - 0xf7);
        if size.Err? then Err(Malformed) else Ok(Tag(List, b - 0xf7 + 1, size.value))
  }

  function Split(buf: Bytes): (r: Result<Item>)
    ensures r.Ok? ==> |r.value.content| + |r.value.rest| <= |buf| && |r.value.rest| < |buf|
    ensures r.Ok? && r.value.kind.List? ==> |r.value.content| < |buf|
  {
    var tag := ReadTag(buf);
    if tag.Err? then Err(Malformed)
    else
      var Tag(kind, start, size) := tag.value;
      if start + size > |buf| then Err(Malformed)
      else Ok(Item(kind, buf[start..start + size], buf[start + size..]))
  }

  /** The number of items in a buffer, or an error if the buffer is not a row of whole items. */
  function CountValues(buf: Bytes): (n: Result<nat>)
    decreases |buf|
  {
    if buf == [] then Ok(0)
    else
      var item := Split(buf);
      if item.Err? then Err(Malformed)
      else
        var more := CountValues(item.value.rest);
        if more.Err? then more else Ok(1 + more.value)
  }

  // ---------- the reader undoes the writer ----------

  lemma ReadSizeOfBigEndian(n: nat, rest: Bytes)
    requires 56 <= n
    ensures ReadSize(BigEndian(n) + rest, |BigEndian(n)|) == Ok(n)
  {
    BigEndianRoundTrip(n);
    assert (BigEndian(n) + rest)[..|BigEndian(n)|] == BigEndian(n);
  }

  lemma ReadHeader(base: byte, n: nat, rest: Bytes)
    requires base == 0x80 || base == 0xc0
    requires n < SIZE_LIMIT
    requires base == 0x80 && n == 1 ==> rest != [] && rest[0] >= 0x80
    ensures ReadTag(Header(base, n) + rest) ==
            Ok(Tag(if base == 0x80 then String else List, |Header(base, n)|, n))
  {
    hide BigEndian, ReadSize;
    SizeLength(n);
    if n >= 56 {
      ReadSizeOfBigEndian(n, rest);
      var buf := Header(base, n) + rest;
      assert buf[1..] == BigEndian(n) + rest;
    }
  }

  lemma ReadSingleByte(b: byte, rest: Bytes)
    requires b < 0x80
    ensures ReadTag([b] + rest) == Ok(Tag(Byte, 0, 1))
  {
  }

  lemma SplitString(s: Bytes, rest: Bytes)
    requires |s| < SIZE_LIMIT
    ensures Split(EncodeString(s) + rest) ==
            Ok(Item(if |s| == 1 && s[0] < 0x80 then Byte else String, s, rest))
  {
    hide ReadTag, Header;
    var buf := EncodeString(s) + rest;
    if |s| == 1 && s[0] < 0x80 {
      ReadSingleByte(s[0], rest);
      assert buf == [s[0]] + rest;
      assert buf[0..1] == s && buf[1..] == rest;
    } else {
      var h := Header(0x80, |s|);
      assert buf == h + (s + rest);
      ReadHeader(0x80, |s|, s + rest);
      assert buf[|h|..|h| + |s|] == s && buf[|h| + |s|..] == rest;
    }
  }

  lemma SplitList(payload: Bytes, rest: Bytes)
    requires |payload| < SIZE_LIMIT
    ensures Split(EncodeList(payload) + rest) == Ok(Item(List, payload, rest))
  {
    hide ReadTag, Header;
    var buf := EncodeList(payload) + rest;
    var h := Header(0xc0, |payload|);
    assert buf == h + (payload + rest);
    ReadHeader(0xc0, |payload|, payload + rest);
    assert buf[|h|..|h| + |payload|] == payload && buf[|h| + |payload|..] == rest;
  }

  /** A row of items, each the encoding of a string or a list that fits the length bytes. */
  function Concat(items: seq<Bytes>): (r: Bytes)
    ensures forall i :: 0 <= i < |items| ==> |items[i]| <= |r|
  {
    if items == [] then [] else items[0] + Concat(items[1..])
  }

  lemma {:induction false} ConcatSnoc(items: seq<Bytes>, last: Bytes)
    ensures Concat(items + [last]) == Concat(items) + last
  {
    if items == [] {
      assert [last][1..] == [] && last + [] == last;
    } else {
      ConcatSnoc(items[1..], last);
      assert (items + [last])[1..] == items[1..] + [last];
      assert items[0] + (Concat(items[1..]) + last) == items[0] + Concat(items[1..]) + last;
    }
  }

  ghost predicate IsItem(x: Bytes) {
    (exists s: Bytes :: |s| < SIZE_LIMIT && x == EncodeString(s)) ||
    (exists p: Bytes :: |p| < SIZE_LIMIT && x == EncodeList(p))
  }

  lemma SplitItem(x: Bytes, rest: Bytes)
    requires IsItem(x)
    ensures Split(x + rest).Ok? && Split(x + rest).value.rest == rest
  {
    hide Split;
    if s: Bytes :| |s| < SIZE_LIMIT && x == EncodeString(s) {
      SplitString(s, rest);
    } else {
      var p: Bytes :| |p| < SIZE_LIMIT && x == EncodeList(p);
      SplitList(p, rest);
    }
  }

  lemma {:induction false} CountItems(items: seq<Bytes>)
    requires forall i :: 0 <= i < |items| ==> IsItem(items[i])
    ensures CountValues(Concat(items)) == Ok(|items|)
  {
    hide Split, IsItem;
    if items != [] {
      SplitItem(items[0], Concat(items[1..]));
      CountItems(items[1..]);
    }
  }
}
