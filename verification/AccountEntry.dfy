/**
  An account as the state trie stores it (core/state_account.go): a list of four
  strings. The shard writes it, the committee reads it and writes it again.
 */
module AccountEntry {
  import opened Bytes
  import opened Rlp
  import opened Ledger

  datatype Entry = Entry(nonce: Nonce, balance: nat, root: Hash, codeHash: Bytes)

  function EncodeEntry(e: Entry): (r: Bytes)
    ensures |r| >= 32
  {
    EncodeList(EncodeString(BigEndian(e.nonce)) + EncodeString(BigEndian(e.balance)) +
               EncodeString(e.root) + EncodeString(e.codeHash))
  }

  // ---------- what an entry holds ----------

  /** The contents of a row of strings, in order. */
  function StringsIn(buf: Bytes): (r: Result<seq<Bytes>>)
    decreases |buf|
  {
    if buf == [] then Ok([])
    else
      var item := Split(buf);
      if item.Err? || item.value.kind.List? then Err(Malformed)
      else
        var more := StringsIn(item.value.rest);
        if more.Err? then more else Ok([item.value.content] + more.value)
  }

  lemma StringsCons(s: Bytes, rest: Bytes)
    requires |s| < SIZE_LIMIT && StringsIn(rest).Ok?
    ensures StringsIn(EncodeString(s) + rest) == Ok([s] + StringsIn(rest).value)
  {
    hide Split;
    SplitString(s, rest);
  }

  /** An entry is one list of four strings: nonce and balance as numbers, storage root, code hash. */
  lemma EntryLayout(e: Entry) returns (payload: Bytes)
    requires |EncodeEntry(e)| < SIZE_LIMIT
    ensures Split(EncodeEntry(e)) == Ok(Item(List, payload, []))
    ensures StringsIn(payload) == Ok([BigEndian(e.nonce), BigEndian(e.balance), e.root, e.codeHash])
    ensures FromBigEndian(BigEndian(e.nonce)) == e.nonce && FromBigEndian(BigEndian(e.balance)) == e.balance
  {
    hide Split, BigEndian, EncodeString;
    var n, b := BigEndian(e.nonce), BigEndian(e.balance);
    payload := EncodeString(n) + EncodeString(b) + EncodeString(e.root) + EncodeString(e.codeHash);
    assert EncodeEntry(e) == EncodeList(payload) + [];
    SplitList(payload, []);
    var c := EncodeString(e.codeHash) + [];
    StringsCons(e.codeHash, []);
    StringsCons(e.root, c);
    StringsCons(b, EncodeString(e.root) + c);
    StringsCons(n, EncodeString(b) + (EncodeString(e.root) + c));
    assert payload == EncodeString(n) + (EncodeString(b) + (EncodeString(e.root) + c));
    var none: seq<Bytes> := [];
    assert StringsIn([]) == Ok(none);
    assert [n] + ([b] + ([e.root] + ([e.codeHash] + none))) == [n, b, e.root, e.codeHash];
    BigEndianRoundTrip(e.nonce);
    BigEndianRoundTrip(e.balance);
  }

  // ---------- reading ----------

  /** A number without leading zeros. */
  predicate Minimal(s: Bytes) {
    s == [] || s[0] != 0
  }

  /** Reading an entry: a nonce of at most eight bytes, a root of exactly 32, nothing left over. */
  function DecodeEntry(buf: Bytes): (r: Result<Entry>) {
    var item := Split(buf);
    if item.Err? || !item.value.kind.List? || item.value.rest != [] then Err(Malformed)
    else
      var fields := StringsIn(item.value.content);
      if fields.Err? || |fields.value| != 4 then Err(Malformed)
      else
        var n, b, root := fields.value[0], fields.value[1], fields.value[2];
        if !Minimal(n) || FromBigEndian(n) >= NONCES || !Minimal(b) || |root| != 32 then Err(Malformed)
        else Ok(Entry(FromBigEndian(n), FromBigEndian(b), root, fields.value[3]))
  }

  lemma EntryRoundTrip(e: Entry)
    requires |EncodeEntry(e)| < SIZE_LIMIT
    ensures DecodeEntry(EncodeEntry(e)) == Ok(e)
  {
    hide Split, EncodeEntry, StringsIn, FromBigEndian;
    var payload := EntryLayout(e);
  }

  // ---------- accounts ----------

  /** An account without code and storage. */
  function EntryOf(kec: Keccak, a: Account): (e: Entry)
    requires a.balance >= 0
  {
    Entry(a.nonce, a.balance, kec(EncodeString([])), kec([]))
  }

  function EncodeAccount(kec: Keccak, a: Account): (r: Bytes)
    requires a.balance >= 0
    ensures |r| >= 32
  {
    EncodeEntry(EntryOf(kec, a))
  }

  /** Different accounts have different entries. */
  lemma AccountInjective(kec: Keccak, a: Account, b: Account)
    requires a.balance >= 0 && b.balance >= 0 && EncodeAccount(kec, a) == EncodeAccount(kec, b)
    requires |EncodeAccount(kec, a)| < SIZE_LIMIT
    ensures a == b
  {
    hide EncodeEntry, DecodeEntry;
    EntryRoundTrip(EntryOf(kec, a));
    EntryRoundTrip(EntryOf(kec, b));
  }
}
