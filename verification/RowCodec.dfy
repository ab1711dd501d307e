/**
 The byte layout of account and address rows (waddrmgr/db.go), through both the outer layer (row
 kind and raw data) and the inner layers (one per kind).

 Lengths and offsets are uint32 in the source, and a slice out of bounds is a run-time panic; both
 are modelled.  Names and keys are byte strings.
 */
module RowCodec {
  import opened Wrappers

  type byte = x: int | 0 <= x < 256
  type Bytes = seq<byte>
  type u32 = x: int | 0 <= x < TWO_TO_32
  type u64 = x: int | 0 <= x < TWO_TO_64

  const TWO_TO_32 := 0x1_0000_0000
  const TWO_TO_64 := 0x1_0000_0000_0000_0000

  datatype DbError = Malformed | Panic | UnexpectedEof | UnsupportedType

  // ---------------------------------------------------------------- little-endian numbers

  function Pow256(k: nat): nat {
    if k == 0 then 1 else 256 * Pow256(k - 1)
  }

  function ToLE(n: nat, k: nat): (b: Bytes)
    ensures |b| == k
  {
    if k == 0 then [] else [n % 256] + ToLE(n / 256, k - 1)
  }

  /** The k-byte number at an offset. */
  function LEAt(b: Bytes, off: nat, k: nat): nat
    requires off + k <= |b|
    decreases k
  {
    if k == 0 then 0 else b[off] + 256 * LEAt(b, off + 1, k - 1)
  }

  const WORD_SIZE: nat := 4

  function U32(n: u32): (b: Bytes)
    ensures |b| == 4
  {
    ToLE(n, WORD_SIZE)
  }

  function U64(n: u64): (b: Bytes)
    ensures |b| == 8
  {
    ToLE(n, 8)
  }

  lemma PowValues()
    ensures Pow256(4) == TWO_TO_32 && Pow256(8) == TWO_TO_64
  {
    assert Pow256(1) == 256 && Pow256(2) == 0x1_0000 && Pow256(3) == 0x100_0000;
    assert Pow256(4) == TWO_TO_32 && Pow256(5) == 0x100_0000_0000 && Pow256(6) == 0x1_0000_0000_0000;
    assert Pow256(7) == 0x100_0000_0000_0000;
  }

  /** b has the bytes x at offset off. */
  ghost predicate Has(b: Bytes, off: nat, x: Bytes) {
    off + |x| <= |b| && b[off..off + |x|] == x
  }

  lemma HasSplit(b: Bytes, off: nat, x: Bytes, y: Bytes)
    ensures Has(b, off, x + y) <==> Has(b, off, x) && Has(b, off + |x|, y)
  {
    if Has(b, off, x + y) {
      assert b[off..off + |x|] == (x + y)[..|x|] == x;
      assert b[off + |x|..off + |x| + |y|] == (x + y)[|x|..] == y;
    }
    if Has(b, off, x) && Has(b, off + |x|, y) {
      assert b[off..off + |x + y|] == b[off..off + |x|] + b[off + |x|..off + |x| + |y|];
    }
  }

  /** Reading back a number that fits in k bytes, and the bytes of a number read. */
  lemma {:induction false} LERoundTrip(b: Bytes, off: nat, n: nat, k: nat)
    requires n < Pow256(k) && Has(b, off, ToLE(n, k))
    ensures LEAt(b, off, k) == n
    decreases k
  {
    if k > 0 {
      HasSplit(b, off, [n % 256], ToLE(n / 256, k - 1));
      assert b[off..off + 1] == [n % 256];
      LERoundTrip(b, off + 1, n / 256, k - 1);
    }
  }

  lemma LowByte(x: byte, y: nat)
    ensures (x + 256 * y) % 256 == x && (x + 256 * y) / 256 == y
  {
  }

  lemma {:induction false} LECanonical(b: Bytes, off: nat, k: nat)
    requires off + k <= |b|
    ensures LEAt(b, off, k) < Pow256(k) && Has(b, off, ToLE(LEAt(b, off, k), k))
    decreases k
  {
    if k > 0 {
      LECanonical(b, off + 1, k - 1);
      var n := LEAt(b, off, k);
      LowByte(b[off], LEAt(b, off + 1, k - 1));
      assert b[off..off + 1] == [b[off]];
      HasSplit(b, off, [n % 256], ToLE(n / 256, k - 1));
    }
  }

  function Word(b0: nat, b1: nat, b2: nat, b3: nat): nat {
    b0 + 0x100 * b1 + 0x1_0000 * b2 + 0x100_0000 * b3
  }

  /** The uint32 n is stored at an offset, least significant byte first. */
  ghost predicate NumberAt(b: Bytes, off: nat, n: u32) {
    off + 4 <= |b| && n == Word(b[off], b[off + 1], b[off + 2], b[off + 3])
  }

  lemma FourBytes(b: Bytes, off: nat)
    requires off + 4 <= |b|
    ensures LEAt(b, off, 4) == Word(b[off], b[off + 1], b[off + 2], b[off + 3])
  {
    assert LEAt(b, off + 4, 0) == 0;
    assert LEAt(b, off + 3, 1) == Word(b[off + 3], 0, 0, 0);
    assert LEAt(b, off + 2, 2) == Word(b[off + 2], b[off + 3], 0, 0);
  }

  /** A field is stored at an offset: its length, then its bytes. */
  ghost predicate FieldAt(b: Bytes, off: nat, x: Bytes) {
    |x| < TWO_TO_32 && NumberAt(b, off, |x|) && Has(b, off + 4, x)
  }

  function Len32(x: Bytes): u32 {
    if |x| < TWO_TO_32 then |x| else |x| % TWO_TO_32
  }

  function Field(x: Bytes): Bytes {
    U32(Len32(x)) + x
  }

  lemma NumberMeans(b: Bytes, off: nat, n: u32)
    ensures Has(b, off, U32(n)) <==> NumberAt(b, off, n)
  {
    PowValues();
    if off + 4 <= |b| {
      FourBytes(b, off);
      if Has(b, off, U32(n)) {
        LERoundTrip(b, off, n, 4);
      }
      if NumberAt(b, off, n) {
        LECanonical(b, off, 4);
      }
    }
  }

  lemma FieldMeans(b: Bytes, off: nat, x: Bytes)
    requires |x| < TWO_TO_32
    ensures Has(b, off, Field(x)) <==> FieldAt(b, off, x)
  {
    HasSplit(b, off, U32(Len32(x)), x);
    NumberMeans(b, off, |x|);
  }

  lemma U64At(b: Bytes, off: nat, n: u64)
    requires Has(b, off, U64(n))
    ensures LEAt(b, off, 8) == n
  {
    PowValues();
    LERoundTrip(b, off, n, 8);
  }

  lemma Number32(b: Bytes, off: nat)
    requires off + 4 <= |b|
    ensures LEAt(b, off, 4) < TWO_TO_32
  {
    LECanonical(b, off, 4);
    PowValues();
  }

  // ---------------------------------------------------------------- slices

  function Add32(x: u32, y: u32): u32 {
    if x + y < TWO_TO_32 then x + y else x + y - TWO_TO_32
  }

  function Slice(b: Bytes, lo: nat, hi: nat): Result<Bytes, DbError> {
    if lo <= hi <= |b| then Ok(b[lo..hi]) else Err(Panic)
  }

  function GetU32(b: Bytes, off: nat): u32
    requires off + 4 <= |b|
  {
    Number32(b, off);
    LEAt(b, off, 4)
  }

  function GetU64(b: Bytes, off: nat): u64
    requires off + 8 <= |b|
  {
    LECanonical(b, off, 8);
    PowValues();
    LEAt(b, off, 8)
  }

  /** Read the uint32 at an offset, and the length-prefixed field at an offset with where it ends. */
  function ReadU32(b: Bytes, off: u32): (r: Result<u32, DbError>)
    ensures r.Err? ==> r.error == Panic
  {
    if off <= Add32(off, 4) <= |b| then Ok(GetU32(b, off)) else Err(Panic)
  }

  function ReadField(b: Bytes, off: u32): (r: Result<(Bytes, u32), DbError>)
    ensures r.Err? ==> r.error == Panic
  {
    var n :- ReadU32(b, off);
    var start := Add32(off, 4);
    var s :- Slice(b, start, Add32(start, n));
    Ok((s, Add32(start, n)))
  }

  lemma ReadU32Means(b: Bytes, off: u32, n: u32)
    requires |b| < TWO_TO_32
    ensures ReadU32(b, off) == Ok(n) <==> NumberAt(b, off, n)
    ensures ReadU32(b, off).Ok? ==> Add32(off, 4) == off + 4
  {
    if off + 4 <= |b| {
      FourBytes(b, off);
    }
  }

  lemma ReadFieldMeans(b: Bytes, off: u32, x: Bytes)
    requires |b| < TWO_TO_32
    ensures ReadField(b, off).Ok? && ReadField(b, off).value.0 == x <==> FieldAt(b, off, x)
    ensures ReadField(b, off).Ok? ==> ReadField(b, off).value.1 == off + 4 + |ReadField(b, off).value.0| <= |b|
  {
    if off + 4 <= |b| {
      ReadU32Means(b, off, GetU32(b, off));
    }
  }

  /** Two length-prefixed fields from an offset on, and where they end. */
  function ReadTwo(b: Bytes, off: u32): (r: Result<(Bytes, Bytes, u32), DbError>)
    ensures r.Err? ==> r.error == Panic
  {
    var (x, off1) :- ReadField(b, off);
    var (y, off2) :- ReadField(b, off1);
    Ok((x, y, off2))
  }

  ghost predicate TwoAt(b: Bytes, off: nat, x: Bytes, y: Bytes) {
    FieldAt(b, off, x) && FieldAt(b, off + 4 + |x|, y)
  }

  lemma TwoLayout(b: Bytes, off: nat, x: Bytes, y: Bytes)
    requires |x| < TWO_TO_32 && |y| < TWO_TO_32
    ensures Has(b, off, Field(x) + Field(y)) <==> TwoAt(b, off, x, y)
  {
    HasSplit(b, off, Field(x), Field(y));
    FieldMeans(b, off, x);
    FieldMeans(b, off + 4 + |x|, y);
  }

  lemma ReadTwoMeans(b: Bytes, off: u32, x: Bytes, y: Bytes)
    requires |b| < TWO_TO_32
    ensures ReadTwo(b, off).Ok? && ReadTwo(b, off).value.0 == x && ReadTwo(b, off).value.1 == y <==> TwoAt(b, off, x, y)
    ensures TwoAt(b, off, x, y) ==> ReadTwo(b, off).Ok? && ReadTwo(b, off).value.2 == off + 8 + |x| + |y| <= |b|
  {
    ReadFieldMeans(b, off, x);
    if off + 4 + |x| < TWO_TO_32 {
      ReadFieldMeans(b, off + 4 + |x|, y);
    }
  }

  // ---------------------------------------------------------------- account rows

  datatype Schema = Schema(internalType: byte, externalType: byte)

  datatype AccountRow =
    | DefaultRow(pubKey: Bytes, privKey: Bytes, nextExternal: u32, nextInternal: u32, name: Bytes)
    | WatchOnlyRow(pubKey: Bytes, fingerprint: u32, nextExternal: u32, nextInternal: u32, name: Bytes,
                   schema: Option<Schema>)

  function SerializeIndicesAndName(nextExternal: u32, nextInternal: u32, name: Bytes): Bytes {
    U32(nextExternal) + (U32(nextInternal) + Field(name))
  }

  function SerializeDefault(pubKey: Bytes, privKey: Bytes, nextExternal: u32, nextInternal: u32, name: Bytes): Bytes {
    (Field(pubKey) + Field(privKey)) + SerializeIndicesAndName(nextExternal, nextInternal, name)
  }

  function DeserializeDefault(raw: Bytes): (r: Result<AccountRow, DbError>)
    ensures |raw| < 20 ==> r == Err(Malformed)
    ensures |raw| >= 20 && r.Err? ==> r.error == Panic
  {
    if |raw| < 20 then Err(Malformed)
    else
      var (pub, priv, off) :- ReadTwo(raw, 0);
      var (ext, int_, name) :- ReadIndicesAndName(raw, off);
      Ok(DefaultRow(pub, priv, ext, int_, name))
  }

  function ReadIndicesAndName(raw: Bytes, off: u32): (r: Result<(u32, u32, Bytes), DbError>)
    ensures r.Err? ==> r.error == Panic
  {
    var ext :- ReadU32(raw, off);
    var off1 := Add32(off, 4);
    var int_ :- ReadU32(raw, off1);
    var (name, _) :- ReadField(raw, Add32(off1, 4));
    Ok((ext, int_, name))
  }

  ghost predicate TailAt(raw: Bytes, off: nat, ext: u32, int_: u32, name: Bytes) {
    NumberAt(raw, off, ext) && NumberAt(raw, off + 4, int_) && FieldAt(raw, off + 8, name)
  }

  lemma TailLayout(raw: Bytes, off: nat, ext: u32, int_: u32, name: Bytes)
    requires |name| < TWO_TO_32
    ensures Has(raw, off, SerializeIndicesAndName(ext, int_, name)) <==> TailAt(raw, off, ext, int_, name)
  {
    HasSplit(raw, off, U32(ext), U32(int_) + Field(name));
    HasSplit(raw, off + 4, U32(int_), Field(name));
    NumberMeans(raw, off, ext);
    NumberMeans(raw, off + 4, int_);
    FieldMeans(raw, off + 8, name);
  }

  lemma TailMeans(raw: Bytes, off: u32, ext: u32, int_: u32, name: Bytes)
    requires |raw| < TWO_TO_32
    ensures ReadIndicesAndName(raw, off) == Ok((ext, int_, name)) <==> TailAt(raw, off, ext, int_, name)
  {
    ReadU32Means(raw, off, ext);
    if ReadU32(raw, off).Ok? {
      ReadU32Means(raw, off + 4, int_);
      if ReadU32(raw, off + 4).Ok? {
        ReadFieldMeans(raw, off + 8, name);
      }
    }
  }

  ghost predicate DefaultAt(raw: Bytes, pub: Bytes, priv: Bytes, ext: u32, int_: u32, name: Bytes) {
    TwoAt(raw, 0, pub, priv) && TailAt(raw, 8 + |pub| + |priv|, ext, int_, name)
  }

  lemma PrefixHas(b: Bytes, x: Bytes)
    ensures x <= b <==> Has(b, 0, x)
  {
  }

  lemma PrefixSplit(b: Bytes, x: Bytes, y: Bytes)
    ensures x + y <= b <==> Has(b, 0, x) && Has(b, |x|, y)
  {
    PrefixHas(b, x + y);
    HasSplit(b, 0, x, y);
  }

  lemma LayoutFrom(raw: Bytes, keys: Bytes, tail: Bytes, pub: Bytes, priv: Bytes, ext: u32, int_: u32, name: Bytes)
    requires |keys| == 8 + |pub| + |priv|
    requires Has(raw, 0, keys) <==> TwoAt(raw, 0, pub, priv)
    requires Has(raw, |keys|, tail) <==> TailAt(raw, |keys|, ext, int_, name)
    ensures keys + tail <= raw <==> DefaultAt(raw, pub, priv, ext, int_, name)
  {
    PrefixSplit(raw, keys, tail);
  }

  lemma DefaultLayout(raw: Bytes, pub: Bytes, priv: Bytes, ext: u32, int_: u32, name: Bytes)
    requires |pub| < TWO_TO_32 && |priv| < TWO_TO_32 && |name| < TWO_TO_32
    ensures SerializeDefault(pub, priv, ext, int_, name) <= raw <==> DefaultAt(raw, pub, priv, ext, int_, name)
  {
    TwoLayout(raw, 0, pub, priv);
    TailLayout(raw, 8 + |pub| + |priv|, ext, int_, name);
    LayoutFrom(raw, Field(pub) + Field(priv), SerializeIndicesAndName(ext, int_, name), pub, priv, ext, int_, name);
  }

  lemma DefaultIsLong(raw: Bytes, pub: Bytes, priv: Bytes, ext: u32, int_: u32, name: Bytes)
    requires DefaultAt(raw, pub, priv, ext, int_, name)
    ensures |raw| >= 20 + |pub| + |priv| + |name|
  {
  }

  lemma DefaultMeans(raw: Bytes, pub: Bytes, priv: Bytes, ext: u32, int_: u32, name: Bytes)
    requires |raw| < TWO_TO_32
    ensures DeserializeDefault(raw) == Ok(DefaultRow(pub, priv, ext, int_, name))
       <==> DefaultAt(raw, pub, priv, ext, int_, name)
  {
    if |raw| < 20 {
      if DefaultAt(raw, pub, priv, ext, int_, name) {
        DefaultIsLong(raw, pub, priv, ext, int_, name);
      }
    } else {
      ReadTwoMeans(raw, 0, pub, priv);
      var off := 8 + |pub| + |priv|;
      if TwoAt(raw, 0, pub, priv) {
        TailMeans(raw, off, ext, int_, name);
      }
    }
  }

  /** A default account decodes from exactly those raw data that begin with its serialization: only
      trailing bytes are ignored. */
  lemma DefaultDecodes(raw: Bytes, pub: Bytes, priv: Bytes, ext: u32, int_: u32, name: Bytes)
    requires |raw| < TWO_TO_32
    ensures DeserializeDefault(raw) == Ok(DefaultRow(pub, priv, ext, int_, name))
       <==> SerializeDefault(pub, priv, ext, int_, name) <= raw
  {
    DefaultMeans(raw, pub, priv, ext, int_, name);
    if |pub| < TWO_TO_32 && |priv| < TWO_TO_32 && |name| < TWO_TO_32 {
      DefaultLayout(raw, pub, priv, ext, int_, name);
    }
  }

  /** A reader over the remaining bytes. */
  function Read(r: Bytes, n: nat): (res: Result<(Bytes, Bytes), DbError>)
    ensures res.Err? ==> res.error == UnexpectedEof
  {
    if n <= |r| then Ok((r[..n], r[n..])) else Err(UnexpectedEof)
  }

  function ReadNumber(r: Bytes): (res: Result<(u32, Bytes), DbError>)
    ensures res.Err? ==> res.error == UnexpectedEof
  {
    var (b, rest) :- Read(r, 4);
    Ok((GetU32(b, 0), rest))
  }

  function SerializeSchema(schema: Option<Schema>): Bytes {
    match schema
    case None => [0]
    case Some(s) => [1, s.internalType, s.externalType]
  }

  function SerializeTail(nextExternal: u32, nextInternal: u32, name: Bytes, schema: Option<Schema>): Bytes {
    U32(nextExternal) + (U32(nextInternal) + (Field(name) + SerializeSchema(schema)))
  }

  function SerializeWatchOnly(pubKey: Bytes, fingerprint: u32, nextExternal: u32, nextInternal: u32, name: Bytes,
                              schema: Option<Schema>): Bytes {
    Field(pubKey) + (U32(fingerprint) + SerializeTail(nextExternal, nextInternal, name, schema))
  }

  function NextField(r: Bytes): (res: Result<(Bytes, Bytes), DbError>)
    ensures res.Err? ==> res.error == UnexpectedEof
  {
    var (n, rest) :- ReadNumber(r);
    Read(rest, n)
  }

  function NextSchema(r: Bytes): (res: Result<Option<Schema>, DbError>)
    ensures res.Err? ==> res.error == UnexpectedEof
  {
    var (flag, rest) :- Read(r, 1);
    if flag[0] == 0 then Ok(None)
    else
      var (sb, _) :- Read(rest, 2);
      Ok(Some(Schema(sb[0], sb[1])))
  }

  /** The next indices, the name and the address schema. */
  function NextTail(r: Bytes): (res: Result<(u32, u32, Bytes, Option<Schema>), DbError>)
    ensures res.Err? ==> res.error == UnexpectedEof
  {
    var (ext, r1) :- ReadNumber(r);
    var (int_, r2) :- ReadNumber(r1);
    var (name, r3) :- NextField(r2);
    var schema :- NextSchema(r3);
    Ok((ext, int_, name, schema))
  }

  function DeserializeWatchOnly(raw: Bytes): (r: Result<AccountRow, DbError>)
    ensures |raw| < 21 ==> r == Err(Malformed)
    ensures |raw| >= 21 && r.Err? ==> r.error == UnexpectedEof
  {
    if |raw| < 21 then Err(Malformed)
    else
      var (pub, r1) :- NextField(raw);
      var (fp, r2) :- ReadNumber(r1);
      var (ext, int_, name, schema) :- NextTail(r2);
      Ok(WatchOnlyRow(pub, fp, ext, int_, name, schema))
  }

  lemma ReadBack(x: Bytes, rest: Bytes)
    ensures Read(x + rest, |x|) == Ok((x, rest))
  {
  }

  lemma ReadNumberBack(n: u32, rest: Bytes)
    ensures ReadNumber(U32(n) + rest) == Ok((n, rest))
  {
    ReadBack(U32(n), rest);
    NumberMeans(U32(n), 0, n);
  }

  lemma WatchOnlyRoundTrip(pub: Bytes, fp: u32, ext: u32, int_: u32, name: Bytes, schema: Option<Schema>)
    requires |pub| < TWO_TO_32 && |name| < TWO_TO_32
    ensures DeserializeWatchOnly(SerializeWatchOnly(pub, fp, ext, int_, name, schema))
         == Ok(WatchOnlyRow(pub, fp, ext, int_, name, schema))
  {
    var tail := SerializeTail(ext, int_, name, schema);
    TailRoundTrip(ext, int_, name, schema);
    ReadFieldBack(pub, U32(fp) + tail);
    ReadNumberBack(fp, tail);
  }

  lemma ReadFieldBack(x: Bytes, rest: Bytes)
    requires |x| < TWO_TO_32
    ensures NextField(Field(x) + rest) == Ok((x, rest))
  {
    assert Field(x) + rest == U32(|x|) + (x + rest);
    ReadNumberBack(|x|, x + rest);
    ReadBack(x, rest);
  }

  lemma SchemaRoundTrip(schema: Option<Schema>)
    ensures NextSchema(SerializeSchema(schema)) == Ok(schema)
  {
  }

  lemma TailRoundTrip(ext: u32, int_: u32, name: Bytes, schema: Option<Schema>)
    requires |name| < TWO_TO_32
    ensures NextTail(SerializeTail(ext, int_, name, schema)) == Ok((ext, int_, name, schema))
  {
    var r1 := Field(name) + SerializeSchema(schema);
    var r2 := U32(int_) + r1;
    ReadNumberBack(ext, r2);
    ReadNumberBack(int_, r1);
    ReadFieldBack(name, SerializeSchema(schema));
    SchemaRoundTrip(schema);
  }

  function SerializeAccountRow(kind: byte, raw: Bytes): Bytes {
    [kind] + Field(raw)
  }

  function DeserializeAccountRow(b: Bytes): (r: Result<(byte, Bytes), DbError>)
    ensures |b| < 5 ==> r == Err(Malformed)
    ensures |b| >= 5 && r.Err? ==> r.error == Panic
  {
    if |b| < 5 then Err(Malformed)
    else
      var (raw, _) :- ReadField(b, 1);
      Ok((b[0], raw))
  }

  const ACCOUNT_DEFAULT: byte := 0
  const ACCOUNT_WATCH_ONLY: byte := 1

  function EncodeAccount(row: AccountRow): Bytes {
    match row
    case DefaultRow(pub, priv, ext, int_, name) =>
      SerializeAccountRow(ACCOUNT_DEFAULT, SerializeDefault(pub, priv, ext, int_, name))
    case WatchOnlyRow(pub, fp, ext, int_, name, schema) =>
      SerializeAccountRow(ACCOUNT_WATCH_ONLY, SerializeWatchOnly(pub, fp, ext, int_, name, schema))
  }

  function DecodeAccount(b: Bytes): Result<AccountRow, DbError> {
    var (kind, raw) :- DeserializeAccountRow(b);
    if kind == ACCOUNT_DEFAULT then DeserializeDefault(raw)
    else if kind == ACCOUNT_WATCH_ONLY then DeserializeWatchOnly(raw)
    else Err(UnsupportedType)
  }

  /** The encoding is shorter than 2^32 bytes. */
  ghost predicate AccountFits(row: AccountRow) {
    |EncodeAccount(row)| < TWO_TO_32
  }

  lemma OuterRoundTrip(kind: byte, raw: Bytes)
    requires 5 + |raw| < TWO_TO_32
    ensures DeserializeAccountRow(SerializeAccountRow(kind, raw)) == Ok((kind, raw))
  {
    var b := SerializeAccountRow(kind, raw);
    assert Has(b, 0, b);
    HasSplit(b, 0, [kind], U32(Len32(raw)) + raw);
    HasSplit(b, 1, U32(Len32(raw)), raw);
    NumberMeans(b, 1, |raw|);
  }

  /** Decoding an encoded account row gives the row back, for every kind of account. */
  lemma AccountRoundTrip(row: AccountRow)
    requires AccountFits(row)
    ensures DecodeAccount(EncodeAccount(row)) == Ok(row)
  {
    match row {
      case DefaultRow(pub, priv, ext, int_, name) =>
        OuterRoundTrip(ACCOUNT_DEFAULT, SerializeDefault(pub, priv, ext, int_, name));
        var raw := SerializeDefault(pub, priv, ext, int_, name);
        DefaultDecodes(raw, pub, priv, ext, int_, name);
      case WatchOnlyRow(pub, fp, ext, int_, name, schema) =>
        OuterRoundTrip(ACCOUNT_WATCH_ONLY, SerializeWatchOnly(pub, fp, ext, int_, name, schema));
        WatchOnlyRoundTrip(pub, fp, ext, int_, name, schema);
    }
  }

  // ---------------------------------------------------------------- the layout, byte by byte

  /** An account row: its kind, the length of the raw data, the raw data. */
  lemma OuterLayout(kind: byte, raw: Bytes)
    requires 5 + |raw| < TWO_TO_32
    ensures var b := SerializeAccountRow(kind, raw);
            |b| == 5 + |raw| && b[0] == kind && FieldAt(b, 1, raw)
  {
    var b := SerializeAccountRow(kind, raw);
    PrefixHas(b, b);
    HasSplit(b, 0, [kind], Field(raw));
    FieldMeans(b, 1, raw);
  }

  /** The raw data of a default account: the two keys, the two next indices and the name, in this order. */
  lemma DefaultRawLayout(pub: Bytes, priv: Bytes, ext: u32, int_: u32, name: Bytes)
    requires |pub| < TWO_TO_32 && |priv| < TWO_TO_32 && |name| < TWO_TO_32
    ensures var raw, o := SerializeDefault(pub, priv, ext, int_, name), 8 + |pub| + |priv|;
            && |raw| == o + 12 + |name|
            && FieldAt(raw, 0, pub) && FieldAt(raw, 4 + |pub|, priv)
            && NumberAt(raw, o, ext) && NumberAt(raw, o + 4, int_) && FieldAt(raw, o + 8, name)
  {
    DefaultLayout(SerializeDefault(pub, priv, ext, int_, name), pub, priv, ext, int_, name);
  }

  /** The raw data of a watch-only account: the key and the fingerprint, then the two next indices, the name,
      and a flag that is followed by the internal and the external address type if it is set. */
  lemma WatchOnlyRawLayout(pub: Bytes, fp: u32, ext: u32, int_: u32, name: Bytes, schema: Option<Schema>)
    requires |pub| < TWO_TO_32
    ensures var raw := SerializeWatchOnly(pub, fp, ext, int_, name, schema);
            var tail := SerializeTail(ext, int_, name, schema);
            && |raw| == 8 + |pub| + |tail|
            && FieldAt(raw, 0, pub) && NumberAt(raw, 4 + |pub|, fp) && Has(raw, 8 + |pub|, tail)
  {
    var raw, tail := SerializeWatchOnly(pub, fp, ext, int_, name, schema), SerializeTail(ext, int_, name, schema);
    PrefixHas(raw, raw);
    HasSplit(raw, 0, Field(pub), U32(fp) + tail);
    HasSplit(raw, 4 + |pub|, U32(fp), tail);
    FieldMeans(raw, 0, pub);
    NumberMeans(raw, 4 + |pub|, fp);
  }

  lemma WatchOnlyTailLayout(ext: u32, int_: u32, name: Bytes, schema: Option<Schema>)
    requires |name| < TWO_TO_32
    ensures var tail := SerializeTail(ext, int_, name, schema);
            && |tail| == 13 + |name| + (if schema.None? then 0 else 2)
            && NumberAt(tail, 0, ext) && NumberAt(tail, 4, int_) && FieldAt(tail, 8, name)
            && Has(tail, 12 + |name|, match schema
                                      case None => [0]
                                      case Some(s) => [1, s.internalType, s.externalType])
  {
    var tail := SerializeTail(ext, int_, name, schema);
    var rest := Field(name) + SerializeSchema(schema);
    PrefixHas(tail, tail);
    HasSplit(tail, 0, U32(ext), U32(int_) + rest);
    HasSplit(tail, 4, U32(int_), rest);
    HasSplit(tail, 8, Field(name), SerializeSchema(schema));
    NumberMeans(tail, 0, ext);
    NumberMeans(tail, 4, int_);
    FieldMeans(tail, 8, name);
  }

  /** An encoded account: kind 0 or 1, then the raw data with its length. */
  lemma EncodedAccountLayout(row: AccountRow)
    requires AccountFits(row)
    ensures var b := EncodeAccount(row);
            match row
            case DefaultRow(pub, priv, ext, int_, name) =>
              |b| >= 5 && b[0] == 0 && FieldAt(b, 1, SerializeDefault(pub, priv, ext, int_, name))
            case WatchOnlyRow(pub, fp, ext, int_, name, schema) =>
              |b| >= 5 && b[0] == 1 && FieldAt(b, 1, SerializeWatchOnly(pub, fp, ext, int_, name, schema))
  {
    match row {
      case DefaultRow(pub, priv, ext, int_, name) => OuterLayout(0, SerializeDefault(pub, priv, ext, int_, name));
      case WatchOnlyRow(pub, fp, ext, int_, name, schema) =>
        OuterLayout(1, SerializeWatchOnly(pub, fp, ext, int_, name, schema));
    }
  }

  // ---------------------------------------------------------------- decoding first

  lemma DefaultDecodedFits(raw: Bytes)
    requires |raw| < TWO_TO_32 && DeserializeDefault(raw).Ok?
    ensures var r := DeserializeDefault(raw).value;
            && r.DefaultRow?
            && SerializeDefault(r.pubKey, r.privKey, r.nextExternal, r.nextInternal, r.name) <= raw
  {
    var r := DeserializeDefault(raw).value;
    DefaultDecodes(raw, r.pubKey, r.privKey, r.nextExternal, r.nextInternal, r.name);
  }

  lemma TailFits(r: Bytes)
    requires NextTail(r).Ok?
    ensures var (ext, int_, name, schema) := NextTail(r).value; |SerializeTail(ext, int_, name, schema)| <= |r|
  {
  }

  lemma WatchOnlyDecodedFits(raw: Bytes)
    requires |raw| < TWO_TO_32 && DeserializeWatchOnly(raw).Ok?
    ensures var r := DeserializeWatchOnly(raw).value;
            && r.WatchOnlyRow?
            && |SerializeWatchOnly(r.pubKey, r.fingerprint, r.nextExternal, r.nextInternal, r.name, r.schema)| <= |raw|
  {
    var (_, r1) := NextField(raw).value;
    var (_, r2) := ReadNumber(r1).value;
    TailFits(r2);
  }

  /** A row decoded from fewer than 2^32 bytes encodes into no more bytes than it came from. */
  lemma DecodedAccountFits(b: Bytes)
    requires |b| < TWO_TO_32 && DecodeAccount(b).Ok?
    ensures var row := DecodeAccount(b).value; AccountFits(row) && |EncodeAccount(row)| <= |b|
  {
    var (kind, raw) := DeserializeAccountRow(b).value;
    assert 5 + |raw| <= |b|;
    if kind == ACCOUNT_DEFAULT {
      DefaultDecodedFits(raw);
    } else {
      WatchOnlyDecodedFits(raw);
    }
  }

  // ---------------------------------------------------------------- address rows

  datatype Address =
    | Chained(branch: u32, index: u32)
    | Imported(pubKey: Bytes, privKey: Bytes)
    | Script(hash: Bytes, script: Bytes)
    | WitnessScript(version: byte, isSecret: bool, hash: Bytes, script: Bytes)

  datatype AddressRow = AddressRow(account: u32, addTime: u64, syncStatus: byte, address: Address)

  const ADT_CHAIN: byte := 0
  const ADT_IMPORT: byte := 1
  const ADT_SCRIPT: byte := 2
  const ADT_WITNESS_SCRIPT: byte := 3
  const ADT_TAPROOT_SCRIPT: byte := 4

  function KindOf(a: Address): byte {
    match a
    case Chained(_, _) => ADT_CHAIN
    case Imported(_, _) => ADT_IMPORT
    case Script(_, _) => ADT_SCRIPT
    case WitnessScript(version, _, _, _) => if version == 1 then ADT_TAPROOT_SCRIPT else ADT_WITNESS_SCRIPT
  }

  function SerializeAddress(a: Address): Bytes {
    match a
    case Chained(branch, index) => U32(branch) + U32(index)
    case Imported(pub, priv) => Field(pub) + Field(priv)
    case Script(hash, script) => Field(hash) + Field(script)
    case WitnessScript(version, isSecret, hash, script) =>
      [version, if isSecret then 1 else 0] + (Field(hash) + Field(script))
  }

  function DeserializeAddress(kind: byte, raw: Bytes): (r: Result<Address, DbError>)
    ensures r == Err(UnsupportedType) <==> kind > 4
    ensures r == Err(Malformed)
       <==> (kind == 0 && |raw| != 8) || (1 <= kind <= 2 && |raw| < 8) || (3 <= kind <= 4 && |raw| < 10)
  {
    if kind == ADT_CHAIN then
      if |raw| != 8 then Err(Malformed) else Ok(Chained(GetU32(raw, 0), GetU32(raw, 4)))
    else if kind == ADT_IMPORT then
      if |raw| < 8 then Err(Malformed)
      else
        var (x, y, _) :- ReadTwo(raw, 0);
        Ok(Imported(x, y))
    else if kind == ADT_SCRIPT then
      if |raw| < 8 then Err(Malformed)
      else
        var (x, y, _) :- ReadTwo(raw, 0);
        Ok(Script(x, y))
    else if kind == ADT_WITNESS_SCRIPT || kind == ADT_TAPROOT_SCRIPT then
      if |raw| < 10 then Err(Malformed)
      else
        var (x, y, _) :- ReadTwo(raw, 2);
        Ok(WitnessScript(raw[0], raw[1] == 1, x, y))
    else Err(UnsupportedType)
  }

  datatype RawRow = RawRow(kind: byte, account: u32, addTime: u64, syncStatus: byte, raw: Bytes)

  function SerializeAddressRow(row: RawRow): Bytes {
    [row.kind] + (U32(row.account) + (U64(row.addTime) + ([row.syncStatus] + Field(row.raw))))
  }

  function DeserializeAddressRow(b: Bytes): (r: Result<RawRow, DbError>)
    ensures |b| < 18 ==> r == Err(Malformed)
    ensures |b| >= 18 && r.Err? ==> r.error == Panic
  {
    if |b| < 18 then Err(Malformed)
    else
      var (raw, _) :- ReadField(b, 14);
      Ok(RawRow(b[0], GetU32(b, 1), GetU64(b, 5), b[13], raw))
  }

  function ToRaw(r: AddressRow): RawRow {
    RawRow(KindOf(r.address), r.account, r.addTime, r.syncStatus, SerializeAddress(r.address))
  }

  function EncodeAddress(r: AddressRow): Bytes {
    SerializeAddressRow(ToRaw(r))
  }

  function DecodeAddress(b: Bytes): Result<AddressRow, DbError> {
    var row :- DeserializeAddressRow(b);
    var a :- DeserializeAddress(row.kind, row.raw);
    Ok(AddressRow(row.account, row.addTime, row.syncStatus, a))
  }

  ghost predicate AddressFits(r: AddressRow) {
    |EncodeAddress(r)| < TWO_TO_32
  }

  lemma TwoRoundTrip(pre: Bytes, x: Bytes, y: Bytes)
    requires |pre| + 8 + |x| + |y| < TWO_TO_32
    ensures var raw := pre + (Field(x) + Field(y));
            ReadTwo(raw, |pre|).Ok? && ReadTwo(raw, |pre|).value.0 == x && ReadTwo(raw, |pre|).value.1 == y
  {
    var raw := pre + (Field(x) + Field(y));
    PrefixHas(raw, raw);
    HasSplit(raw, 0, pre, Field(x) + Field(y));
    TwoLayout(raw, |pre|, x, y);
    ReadTwoMeans(raw, |pre|, x, y);
  }

  lemma ChainedRoundTrip(branch: u32, index: u32)
    ensures var raw := U32(branch) + U32(index); GetU32(raw, 0) == branch && GetU32(raw, 4) == index
  {
    var raw := U32(branch) + U32(index);
    PrefixHas(raw, raw);
    HasSplit(raw, 0, U32(branch), U32(index));
    NumberMeans(raw, 0, branch);
    NumberMeans(raw, 4, index);
  }

  lemma AddressInnerRoundTrip(a: Address)
    requires |SerializeAddress(a)| < TWO_TO_32
    ensures DeserializeAddress(KindOf(a), SerializeAddress(a)) == Ok(a)
  {
    match a {
      case Chained(branch, index) => ChainedRoundTrip(branch, index);
      case Imported(x, y) =>
        TwoRoundTrip([], x, y);
        assert [] + (Field(x) + Field(y)) == Field(x) + Field(y);
      case Script(x, y) =>
        TwoRoundTrip([], x, y);
        assert [] + (Field(x) + Field(y)) == Field(x) + Field(y);
      case WitnessScript(v, secret, x, y) => TwoRoundTrip([v, if secret then 1 else 0], x, y);
    }
  }

  /** Where the parts of an encoded address lie. */
  ghost predicate RawRowAt(b: Bytes, row: RawRow) {
    && |b| >= 18 && b[0] == row.kind && b[13] == row.syncStatus
    && NumberAt(b, 1, row.account) && LEAt(b, 5, 8) == row.addTime && FieldAt(b, 14, row.raw)
  }

  lemma AddressLayout(row: RawRow)
    requires |SerializeAddressRow(row)| < TWO_TO_32
    ensures RawRowAt(SerializeAddressRow(row), row)
  {
    var b := SerializeAddressRow(row);
    var t3 := [row.syncStatus] + Field(row.raw);
    var t2 := U64(row.addTime) + t3;
    assert Has(b, 0, b);
    HasSplit(b, 0, [row.kind], U32(row.account) + t2);
    HasSplit(b, 1, U32(row.account), t2);
    HasSplit(b, 5, U64(row.addTime), t3);
    HasSplit(b, 13, [row.syncStatus], Field(row.raw));
    NumberMeans(b, 1, row.account);
    U64At(b, 5, row.addTime);
    FieldMeans(b, 14, row.raw);
    assert b[13..14] == [row.syncStatus];
  }

  lemma AddressReads(b: Bytes, row: RawRow)
    requires |b| < TWO_TO_32 && RawRowAt(b, row)
    ensures DeserializeAddressRow(b) == Ok(row)
  {
    ReadFieldMeans(b, 14, row.raw);
  }

  /** Two fields after some leading bytes. */
  lemma TwoAfter(pre: Bytes, x: Bytes, y: Bytes)
    requires |pre| + 8 + |x| + |y| < TWO_TO_32
    ensures var raw := pre + (Field(x) + Field(y));
            |raw| == |pre| + 8 + |x| + |y| && pre <= raw && FieldAt(raw, |pre|, x) && FieldAt(raw, |pre| + 4 + |x|, y)
  {
    var raw := pre + (Field(x) + Field(y));
    PrefixHas(raw, raw);
    HasSplit(raw, 0, pre, Field(x) + Field(y));
    TwoLayout(raw, |pre|, x, y);
  }

  /** The raw data of a chained address: branch and index. */
  lemma ChainedLayout(branch: u32, index: u32)
    ensures var raw := SerializeAddress(Chained(branch, index));
            |raw| == 8 && NumberAt(raw, 0, branch) && NumberAt(raw, 4, index)
  {
    var raw := U32(branch) + U32(index);
    PrefixHas(raw, raw);
    HasSplit(raw, 0, U32(branch), U32(index));
    NumberMeans(raw, 0, branch);
    NumberMeans(raw, 4, index);
  }

  /** The raw data of an imported key or a script: two fields. */
  lemma TwoFieldsLayout(x: Bytes, y: Bytes)
    requires 8 + |x| + |y| < TWO_TO_32
    ensures var raw := SerializeAddress(Imported(x, y));
            && raw == SerializeAddress(Script(x, y))
            && |raw| == 8 + |x| + |y| && FieldAt(raw, 0, x) && FieldAt(raw, 4 + |x|, y)
  {
    TwoAfter([], x, y);
    assert [] + (Field(x) + Field(y)) == Field(x) + Field(y);
  }

  /** The raw data of a witness script: version, secret flag, then two fields. */
  lemma WitnessLayout(version: byte, secret: bool, x: Bytes, y: Bytes)
    requires 10 + |x| + |y| < TWO_TO_32
    ensures var raw := SerializeAddress(WitnessScript(version, secret, x, y));
            && |raw| == 10 + |x| + |y| && raw[0] == version && raw[1] == (if secret then 1 else 0)
            && FieldAt(raw, 2, x) && FieldAt(raw, 6 + |x|, y)
  {
    TwoAfter([version, if secret then 1 else 0], x, y);
  }

  /** An encoded address: the kind (0 chained, 1 imported, 2 script, 3 witness script, 4 taproot script), the
      account, the time added as eight bytes, the sync status, and the raw data with its length. */
  lemma EncodedAddressLayout(r: AddressRow)
    requires AddressFits(r)
    ensures var b := EncodeAddress(r);
            && |b| == 18 + |SerializeAddress(r.address)|
            && b[0] == (match r.address
                        case Chained(_, _) => 0
                        case Imported(_, _) => 1
                        case Script(_, _) => 2
                        case WitnessScript(version, _, _, _) => if version == 1 then 4 else 3)
            && NumberAt(b, 1, r.account)
            && r.addTime == Word(b[5], b[6], b[7], b[8]) + 0x1_0000_0000 * Word(b[9], b[10], b[11], b[12])
            && b[13] == r.syncStatus
            && FieldAt(b, 14, SerializeAddress(r.address))
  {
    AddressLayout(ToRaw(r));
    EightBytes(EncodeAddress(r), 5);
  }

  lemma EightBytes(b: Bytes, off: nat)
    requires off + 8 <= |b|
    ensures LEAt(b, off, 8) == Word(b[off], b[off + 1], b[off + 2], b[off + 3])
                               + 0x1_0000_0000 * Word(b[off + 4], b[off + 5], b[off + 6], b[off + 7])
  {
    FourBytes(b, off + 4);
    assert LEAt(b, off + 3, 5) == b[off + 3] + 0x100 * LEAt(b, off + 4, 4);
    assert LEAt(b, off + 2, 6) == b[off + 2] + 0x100 * LEAt(b, off + 3, 5);
    assert LEAt(b, off + 1, 7) == b[off + 1] + 0x100 * LEAt(b, off + 2, 6);
  }

  /** Decoding an encoded address row gives the row back, for every kind of address. */
  lemma AddressRoundTrip(r: AddressRow)
    requires AddressFits(r)
    ensures DecodeAddress(EncodeAddress(r)) == Ok(r)
  {
    AddressLayout(ToRaw(r));
    AddressReads(EncodeAddress(r), ToRaw(r));
    AddressInnerRoundTrip(r.address);
  }

  // ---------------------------------------------------------------- storing a chained address

  const INTERNAL_BRANCH := 1

  /** The account row with the next index of one branch moved past `index`. */
  function Bump(row: AccountRow, branch: u32, index: u32): AccountRow {
    if branch == INTERNAL_BRANCH then row.(nextInternal := Add32(index, 1)) else row.(nextExternal := Add32(index, 1))
  }

  lemma BumpFits(row: AccountRow, branch: u32, index: u32)
    requires AccountFits(row)
    ensures AccountFits(Bump(row, branch, index)) && |EncodeAccount(Bump(row, branch, index))| == |EncodeAccount(row)|
  {
  }

  /** The bytes stored for an account row whose next index is moved. */
  function BumpBytes(b: Bytes, branch: u32, index: u32): Result<Bytes, DbError> {
    var (kind, raw) :- DeserializeAccountRow(b);
    if kind != ACCOUNT_DEFAULT && kind != ACCOUNT_WATCH_ONLY then Ok(SerializeAccountRow(kind, raw))
    else
      var row :- DecodeAccount(b);
      Ok(EncodeAccount(Bump(row, branch, index)))
  }

  /** The index after the one given, as a uint32. */
  ghost predicate After(index: u32, next: u32) {
    (index < 0xFFFF_FFFF ==> next == index + 1) && (index == 0xFFFF_FFFF ==> next == 0)
  }

  /** The row with just one next index changed: the internal one for branch 1, the external one otherwise. */
  ghost predicate OneIndexMoved(row: AccountRow, now: AccountRow, branch: u32, index: u32) {
    if branch == 1 then now == row.(nextInternal := now.nextInternal) && After(index, now.nextInternal)
    else now == row.(nextExternal := now.nextExternal) && After(index, now.nextExternal)
  }

  /** What storing a chained address does to the account rows: one next index of one row moves. */
  ghost predicate Bumped(was: map<u32, Bytes>, now: map<u32, Bytes>, account: u32, branch: u32, index: u32,
                         r: Option<DbError>) {
    && now.Keys == was.Keys
    && (forall a :: a in was && a != account ==> now[a] == was[a])
    && (account !in was ==> r == Some(Malformed))
    && (account in was && |was[account]| < TWO_TO_32 ==>
          match DecodeAccount(was[account])
          case Ok(row) =>
            && r == None && DecodeAccount(now[account]).Ok?
            && OneIndexMoved(row, DecodeAccount(now[account]).value, branch, index)
          case Err(UnsupportedType) =>
            r == None && DeserializeAccountRow(now[account]) == DeserializeAccountRow(was[account])
          case Err(e) => r == Some(e) && now == was)
  }

  lemma BumpMoves(row: AccountRow, branch: u32, index: u32)
    ensures OneIndexMoved(row, Bump(row, branch, index), branch, index)
  {
  }

  lemma BumpBytesMean(b: Bytes, branch: u32, index: u32)
    requires |b| < TWO_TO_32
    ensures var r := BumpBytes(b, branch, index);
            match DecodeAccount(b)
            case Ok(row) => r.Ok? && DecodeAccount(r.value) == Ok(Bump(row, branch, index))
            case Err(UnsupportedType) => r.Ok? && DeserializeAccountRow(r.value) == DeserializeAccountRow(b)
            case Err(e) => r == Err(e)
  {
    if DecodeAccount(b).Ok? {
      DecodedAccountFits(b);
      BumpFits(DecodeAccount(b).value, branch, index);
      AccountRoundTrip(Bump(DecodeAccount(b).value, branch, index));
    } else if DeserializeAccountRow(b).Ok? {
      var (kind, raw) := DeserializeAccountRow(b).value;
      ReadFieldMeans(b, 1, raw);
      OuterRoundTrip(kind, raw);
    }
  }

  lemma BumpedIs(was: map<u32, Bytes>, account: u32, branch: u32, index: u32)
    ensures var r := BumpBytes(if account in was then was[account] else [], branch, index);
            if r.Ok? then account in was && Bumped(was, was[account := r.value], account, branch, index, None)
            else Bumped(was, was, account, branch, index, Some(r.error))
  {
    if account in was && |was[account]| < TWO_TO_32 {
      BumpBytesMean(was[account], branch, index);
      if DecodeAccount(was[account]).Ok? {
        BumpMoves(DecodeAccount(was[account]).value, branch, index);
      }
    }
  }

  class ScopeBucket {
    var accounts: map<u32, Bytes>
    var addresses: map<nat, Bytes>

    /** Stores the address row and moves one next index of the account row: afterwards the account
        decodes to the same row with just that index changed, and no other entry has changed.  When the
        account row cannot be decoded the address is stored and an error returned. */
    method PutChainedAddress(addressId: nat, account: u32, addTime: u64, status: byte, branch: u32, index: u32)
      returns (r: Option<DbError>)
      modifies this
      ensures addresses.Keys == old(addresses).Keys + {addressId}
      ensures forall a :: a in old(addresses) && a != addressId ==> addresses[a] == old(addresses)[a]
      ensures DecodeAddress(addresses[addressId]) == Ok(AddressRow(account, addTime, status, Chained(branch, index)))
      ensures Bumped(old(accounts), accounts, account, branch, index, r)
    {
      PutAddress(addressId, AddressRow(account, addTime, status, Chained(branch, index)));
      r := BumpAccount(account, branch, index);
    }

    method PutAddress(addressId: nat, row: AddressRow)
      requires AddressFits(row)
      modifies this`addresses
      ensures addresses.Keys == old(addresses).Keys + {addressId}
      ensures forall a :: a in old(addresses) && a != addressId ==> addresses[a] == old(addresses)[a]
      ensures DecodeAddress(addresses[addressId]) == Ok(row)
    {
      AddressRoundTrip(row);
      addresses := addresses[addressId := EncodeAddress(row)];
    }

    method BumpAccount(account: u32, branch: u32, index: u32) returns (r: Option<DbError>)
      modifies this`accounts
      ensures Bumped(old(accounts), accounts, account, branch, index, r)
    {
      BumpedIs(accounts, account, branch, index);
      var serialized := if account in accounts then accounts[account] else [];
      match DeserializeAccountRow(serialized) {
        case Err(e) => return Some(e);
        case Ok((kind, raw)) =>
          var bytes := SerializeAccountRow(kind, raw);
          if kind == ACCOUNT_DEFAULT || kind == ACCOUNT_WATCH_ONLY {
            match DecodeAccount(serialized) {
              case Err(e) => return Some(e);
              case Ok(row) => bytes := EncodeAccount(Bump(row, branch, index));
            }
          }
          assert BumpBytes(serialized, branch, index) == Ok(bytes);
          accounts := accounts[account := bytes];
          return None;
      }
    }
  }
}
