/**
 Account creation and renaming in one scope (waddrmgr/scoped_manager.go, waddrmgr/db.go): the account
 rows, the index from number to name, the index from name to number, the last account number, and the
 names cached in memory.

 The reference model is one map from account number to name.  Key derivation and encryption either
 yield the encrypted keys or fail.
 */
module Accounts {
  import opened Wrappers
  import opened RowCodec

  type Name = Bytes

  const MAX_ACCOUNT_NUM: u32 := 0x7fff_fffe
  const IMPORTED_ACCOUNT: u32 := 0x7fff_ffff
  const DEFAULT_NAME: Name := [0x64, 0x65, 0x66, 0x61, 0x75, 0x6c, 0x74]
  const IMPORTED_NAME: Name := [0x69, 0x6d, 0x70, 0x6f, 0x72, 0x74, 0x65, 0x64]

  datatype Error = WatchingOnly | Locked | InvalidAccount | DuplicateAccount | KeyChain | AccountNotFound

  datatype Op =
    | New(watchOnly: bool, locked: bool, name: Name, keys: Option<(Bytes, Bytes)>)
    | NewWatching(name: Name, pubKey: Option<Bytes>, fingerprint: u32, schema: Option<Schema>)
    | Rename(account: u32, name: Name)
    | Cache(account: u32)

  predicate ValidName(name: Name) {
    name != [] && name != IMPORTED_NAME
  }

  // ---------------------------------------------------------------- the reference model

  type Book = map<u32, Name>

  const NEW_BOOK: Book := map[0 := DEFAULT_NAME, IMPORTED_ACCOUNT := IMPORTED_NAME]

  /** Creating the account whose number is one less than the number of accounts there are (one of which
      is the imported account). */
  function Enrol(book: Book, name: Name, keysMade: bool): (Book, Result<u32, Error>) {
    if !ValidName(name) then (book, Err(InvalidAccount))
    else if name in book.Values then (book, Err(DuplicateAccount))
    else if !keysMade then (book, Err(KeyChain))
    else
      var n: u32 := if 1 <= |book| <= TWO_TO_32 then |book| - 1 else 0;
      (book[n := name], Ok(n))
  }

  function BookStep(book: Book, op: Op): (Book, Result<u32, Error>) {
    match op
    case New(watchOnly, locked, name, keys) =>
      if watchOnly then (book, Err(WatchingOnly))
      else if locked then (book, Err(Locked))
      else Enrol(book, name, keys.Some? && |book| <= MAX_ACCOUNT_NUM + 1)
    case NewWatching(name, pubKey, _, _) => Enrol(book, name, pubKey.Some?)
    case Rename(account, name) =>
      if account == IMPORTED_ACCOUNT then (book, Err(InvalidAccount))
      else if name in book.Values then (book, Err(DuplicateAccount))
      else if !ValidName(name) then (book, Err(InvalidAccount))
      else if account !in book then (book, Err(AccountNotFound))
      else (book[account := name], Ok(account))
    case Cache(account) => (book, if account in book then Ok(account) else Err(AccountNotFound))
  }

  function BookRun(book: Book, ops: seq<Op>): (Book, seq<Result<u32, Error>>)
    decreases |ops|
  {
    if ops == [] then (book, [])
    else
      var (b, r) := BookStep(book, ops[0]);
      var (b', rs) := BookRun(b, ops[1..]);
      (b', [r] + rs)
  }

  // ---------------------------------------------------------------- what is stored

  datatype State = State(
    rows: map<u32, AccountRow>,
    idIndex: map<u32, Name>,
    nameIndex: map<Name, u32>,
    last: u32,
    cached: map<u32, Name>)

  /** Write the row and both index entries. */
  function Put(s: State, account: u32, row: AccountRow): State {
    s.(rows := s.rows[account := row], idIndex := s.idIndex[account := row.name],
       nameIndex := s.nameIndex[row.name := account])
  }

  /** A freshly created scope. */
  function Created(pubKey: Bytes, privKey: Bytes): State {
    var empty := State(map[], map[], map[], 0, map[]);
    Put(Put(empty, 0, DefaultRow(pubKey, privKey, 0, 0, DEFAULT_NAME)), IMPORTED_ACCOUNT,
        DefaultRow([], [], 0, 0, IMPORTED_NAME))
  }

  function CheckName(s: State, name: Name): Result<(), Error> {
    if !ValidName(name) then Err(InvalidAccount)
    else if name in s.nameIndex then Err(DuplicateAccount)
    else Ok(())
  }

  function NewAccount(s: State, account: u32, name: Name, keys: Option<(Bytes, Bytes)>): Result<State, Error> {
    var _ :- CheckName(s, name);
    if account > MAX_ACCOUNT_NUM || keys.None? then Err(KeyChain)
    else Ok(Put(s, account, DefaultRow(keys.value.0, keys.value.1, 0, 0, name)).(last := account))
  }

  function NewWatchingAccount(s: State, account: u32, name: Name, pubKey: Option<Bytes>, fingerprint: u32,
                              schema: Option<Schema>)
    : Result<State, Error>
  {
    var _ :- CheckName(s, name);
    if pubKey.None? then Err(KeyChain)
    else Ok(Put(s, account, WatchOnlyRow(pubKey.value, fingerprint, 0, 0, name, schema)).(last := account))
  }

  function RenameAccount(s: State, account: u32, name: Name): Result<State, Error> {
    if account == IMPORTED_ACCOUNT then Err(InvalidAccount)
    else if name in s.nameIndex then Err(DuplicateAccount)
    else if !ValidName(name) then Err(InvalidAccount)
    else if account !in s.rows then Err(AccountNotFound)
    else
      var row := s.rows[account];
      var removed := s.(idIndex := s.idIndex - {account}, nameIndex := s.nameIndex - {row.name});
      var put := Put(removed, account, row.(name := name));
      Ok(if account in s.cached then put.(cached := s.cached[account := name]) else put)
  }

  function CacheAccount(s: State, account: u32): Result<State, Error> {
    if account in s.rows then Ok(s.(cached := s.cached[account := s.rows[account].name])) else Err(AccountNotFound)
  }

  function Step(s: State, op: Op): (State, Result<u32, Error>) {
    var account := if op.New? || op.NewWatching? then Add32(s.last, 1) else op.account;
    var r :=
      match op
      case New(watchOnly, locked, name, keys) =>
        if watchOnly then Err(WatchingOnly)
        else if locked then Err(Locked)
        else NewAccount(s, account, name, keys)
      case NewWatching(name, pubKey, fingerprint, schema) =>
        NewWatchingAccount(s, account, name, pubKey, fingerprint, schema)
      case Rename(_, name) => RenameAccount(s, account, name)
      case Cache(_) => CacheAccount(s, account);
    match r
    case Ok(s') => (s', Ok(account))
    case Err(e) => (s, Err(e))
  }

  function Run(s: State, ops: seq<Op>): (State, seq<Result<u32, Error>>)
    decreases |ops|
  {
    if ops == [] then (s, [])
    else
      var (s1, r) := Step(s, ops[0]);
      var (s2, rs) := Run(s1, ops[1..]);
      (s2, [r] + rs)
  }

  // ---------------------------------------------------------------- one operation, spelled out

  /** The bytes of "imported". */
  predicate IsImported(name: Name) {
    name == [0x69, 0x6d, 0x70, 0x6f, 0x72, 0x74, 0x65, 0x64]
  }

  /** The account n was added with the given row: the row and both index entries are new, the account is the
      last one, and nothing else changed. */
  ghost predicate Added(s: State, t: State, n: u32, row: AccountRow) {
    && t.rows == s.rows[n := row]
    && t.idIndex == s.idIndex[n := row.name] && t.nameIndex == s.nameIndex[row.name := n]
    && t.last == n && t.cached == s.cached
  }

  /** Creating an account succeeds exactly for an unlocked wallet with keys, a new name that is neither empty
      nor "imported", and a number up to 2^31 - 2; it is the account after the last, with the keys given and
      next indices 0.  Otherwise nothing changes and the first check that fails gives the error. */
  lemma NewMeans(s: State, watchOnly: bool, locked: bool, name: Name, keys: Option<(Bytes, Bytes)>)
    requires s.last < 0xFFFF_FFFF
    ensures var (t, r) := Step(s, New(watchOnly, locked, name, keys));
            if watchOnly then t == s && r == Err(WatchingOnly)
            else if locked then t == s && r == Err(Locked)
            else if name == [] || IsImported(name) then t == s && r == Err(InvalidAccount)
            else if name in s.nameIndex then t == s && r == Err(DuplicateAccount)
            else if s.last + 1 > 0x7FFF_FFFE || keys.None? then t == s && r == Err(KeyChain)
            else r == Ok(s.last + 1) && Added(s, t, s.last + 1, DefaultRow(keys.value.0, keys.value.1, 0, 0, name))
  {
  }

  /** Creating a watch-only account, likewise, with the key, fingerprint and schema given and no bound on the
      number. */
  lemma NewWatchingMeans(s: State, name: Name, pubKey: Option<Bytes>, fingerprint: u32, schema: Option<Schema>)
    requires s.last < 0xFFFF_FFFF
    ensures var (t, r) := Step(s, NewWatching(name, pubKey, fingerprint, schema));
            if name == [] || IsImported(name) then t == s && r == Err(InvalidAccount)
            else if name in s.nameIndex then t == s && r == Err(DuplicateAccount)
            else if pubKey.None? then t == s && r == Err(KeyChain)
            else
              && r == Ok(s.last + 1)
              && Added(s, t, s.last + 1, WatchOnlyRow(pubKey.value, fingerprint, 0, 0, name, schema))
  {
  }

  /** Renaming succeeds exactly for an existing account other than 2^31 - 1 and a new name that is neither
      empty nor "imported"; the old name is free afterwards and a cached name follows. */
  lemma RenameMeans(s: State, account: u32, name: Name)
    requires IndexesAgree(s)
    ensures var (t, r) := Step(s, Rename(account, name));
            if account == 0x7FFF_FFFF then t == s && r == Err(InvalidAccount)
            else if name in s.nameIndex then t == s && r == Err(DuplicateAccount)
            else if name == [] || IsImported(name) then t == s && r == Err(InvalidAccount)
            else if account !in s.rows then t == s && r == Err(AccountNotFound)
            else
              && r == Ok(account)
              && t.rows == s.rows[account := s.rows[account].(name := name)]
              && t.idIndex == s.idIndex[account := name]
              && t.nameIndex == (s.nameIndex - {s.rows[account].name})[name := account]
              && t.last == s.last
              && t.cached == if account in s.cached then s.cached[account := name] else s.cached
  {
    Overwrite(s.idIndex, account, name);
  }

  // ---------------------------------------------------------------- what every run keeps

  /** The name in every row. */
  ghost function Names(rows: map<u32, AccountRow>): Book {
    map n | n in rows :: rows[n].name
  }

  predicate Holds<K(==), V(==)>(m: map<K, V>, k: K, v: V) {
    k in m && m[k] == v
  }

  ghost predicate Inverse(book: Book, index: map<Name, u32>) {
    forall n: u32, a: Name :: Holds(book, n, a) <==> Holds(index, a, n)
  }

  /** The two indexes are inverses of each other and say what the rows say. */
  ghost predicate IndexesAgree(s: State) {
    s.idIndex == Names(s.rows) && Inverse(s.idIndex, s.nameIndex)
  }

  /** The accounts are 0 to last and the imported account. */
  ghost predicate Numbered(s: State) {
    && s.last <= MAX_ACCOUNT_NUM
    && |s.rows| == s.last + 2
    && forall n: u32 :: n in s.rows <==> n <= s.last || n == IMPORTED_ACCOUNT
  }

  ghost predicate CacheAgrees(s: State) {
    forall n :: n in s.cached ==> n in s.rows && s.cached[n] == s.rows[n].name
  }

  ghost predicate Inv(s: State) {
    IndexesAgree(s) && Numbered(s) && CacheAgrees(s)
  }

  /** What a caller must see to before creating a watch-only account. */
  ghost predicate Guarded(s: State, op: Op) {
    op.NewWatching? ==> s.last < MAX_ACCOUNT_NUM
  }

  ghost predicate GuardedRun(s: State, ops: seq<Op>)
    decreases |ops|
  {
    ops == [] || (Guarded(s, ops[0]) && GuardedRun(Step(s, ops[0]).0, ops[1..]))
  }

  lemma NamesPut(rows: map<u32, AccountRow>, n: u32, row: AccountRow)
    ensures Names(rows[n := row]) == Names(rows)[n := row.name]
  {
  }

  lemma NamesSize(rows: map<u32, AccountRow>)
    ensures Names(rows).Keys == rows.Keys && |Names(rows)| == |rows|
  {
    assert |Names(rows)| == |Names(rows).Keys| && |rows| == |rows.Keys|;
  }

  lemma InverseAdd(book: Book, index: map<Name, u32>, n: u32, a: Name)
    requires Inverse(book, index) && n !in book && a !in index
    ensures Inverse(book[n := a], index[a := n])
  {
    var book', index' := book[n := a], index[a := n];
    forall m: u32, c: Name
      ensures Holds(book', m, c) <==> Holds(index', c, m)
    {
      assert Holds(book, m, c) <==> Holds(index, c, m);
    }
  }

  lemma InverseMove(book: Book, index: map<Name, u32>, n: u32, a: Name)
    requires Inverse(book, index) && n in book && a !in index
    ensures Inverse(book[n := a], (index - {book[n]})[a := n])
  {
    var book', index' := book[n := a], (index - {book[n]})[a := n];
    forall m: u32, c: Name
      ensures Holds(book', m, c) <==> Holds(index', c, m)
    {
      assert Holds(book, m, c) <==> Holds(index, c, m);
      assert Holds(book, n, book[n]);
    }
  }

  lemma InverseDomain(book: Book, index: map<Name, u32>, a: Name)
    requires Inverse(book, index)
    ensures a in index <==> a in book.Values
  {
    if a in index {
      assert Holds(index, a, index[a]);
    }
    if n :| n in book && book[n] == a {
      assert Holds(book, n, a);
    }
  }

  lemma CreatedInv(pubKey: Bytes, privKey: Bytes)
    ensures var s := Created(pubKey, privKey); Inv(s) && s.last == 0 && s.cached == map[] && s.idIndex == NEW_BOOK
    ensures var name := [0x64, 0x65, 0x66, 0x61, 0x75, 0x6c, 0x74];
            var imported := [0x69, 0x6d, 0x70, 0x6f, 0x72, 0x74, 0x65, 0x64];
            Created(pubKey, privKey).rows
            == map[0 := DefaultRow(pubKey, privKey, 0, 0, name), 0x7FFF_FFFF := DefaultRow([], [], 0, 0, imported)]
  {
    var s := Created(pubKey, privKey);
    assert DEFAULT_NAME[0] != IMPORTED_NAME[0];
    assert s.rows.Keys == {0, IMPORTED_ACCOUNT};
    assert |s.rows| == |s.rows.Keys|;
  }

  lemma AddKeepsInv(s: State, row: AccountRow)
    requires Inv(s) && s.last < MAX_ACCOUNT_NUM && row.name !in s.nameIndex
    ensures Inv(Put(s, s.last + 1, row).(last := s.last + 1))
  {
    NamesPut(s.rows, s.last + 1, row);
    InverseAdd(s.idIndex, s.nameIndex, s.last + 1, row.name);
  }

  lemma Overwrite<V>(m: map<u32, V>, n: u32, v: V)
    ensures (m - {n})[n := v] == m[n := v]
    ensures |m[n := v]| == if n in m then |m| else |m| + 1
  {
    assert m[n := v].Keys == m.Keys + {n};
    assert |m[n := v]| == |m[n := v].Keys| && |m| == |m.Keys|;
  }

  lemma RenamedIndexes(s: State, account: u32, name: Name)
    requires Inv(s) && RenameAccount(s, account, name).Ok?
    ensures var t := RenameAccount(s, account, name).value;
            t.rows == s.rows[account := s.rows[account].(name := name)] && t.last == s.last
    ensures var t := RenameAccount(s, account, name).value;
            IndexesAgree(t) && t.idIndex == s.idIndex[account := name]
  {
    Overwrite(s.idIndex, account, name);
    NamesPut(s.rows, account, s.rows[account].(name := name));
    InverseMove(s.idIndex, s.nameIndex, account, name);
  }

  lemma RenameKeepsInv(s: State, account: u32, name: Name)
    requires Inv(s) && RenameAccount(s, account, name).Ok?
    ensures Inv(RenameAccount(s, account, name).value)
    ensures RenameAccount(s, account, name).value.idIndex == s.idIndex[account := name]
  {
    RenamedIndexes(s, account, name);
    Overwrite(s.rows, account, s.rows[account].(name := name));
  }

  ghost predicate Refines(s: State, op: Op) {
    Inv(Step(s, op).0) && BookStep(s.idIndex, op) == (Step(s, op).0.idIndex, Step(s, op).1)
  }

  /** Enrolling a free name gives the account after the last. */
  lemma EnrolIs(s: State, name: Name, keysMade: bool)
    requires Inv(s)
    ensures name in s.idIndex.Values <==> name in s.nameIndex
    ensures |s.idIndex| == s.last + 2
    ensures ValidName(name) && name !in s.nameIndex && keysMade ==>
      Enrol(s.idIndex, name, keysMade) == (s.idIndex[s.last + 1 := name], Ok(s.last + 1))
  {
    NamesSize(s.rows);
    InverseDomain(s.idIndex, s.nameIndex, name);
  }

  lemma NewRefines(s: State, op: Op)
    requires Inv(s) && op.New?
    ensures Refines(s, op)
  {
    EnrolIs(s, op.name, op.keys.Some? && s.last < MAX_ACCOUNT_NUM);
    if Step(s, op).1.Ok? {
      AddKeepsInv(s, DefaultRow(op.keys.value.0, op.keys.value.1, 0, 0, op.name));
    }
  }

  lemma WatchingRefines(s: State, op: Op)
    requires Inv(s) && op.NewWatching? && s.last < MAX_ACCOUNT_NUM
    ensures Refines(s, op)
  {
    EnrolIs(s, op.name, op.pubKey.Some?);
    if Step(s, op).1.Ok? {
      AddKeepsInv(s, WatchOnlyRow(op.pubKey.value, op.fingerprint, 0, 0, op.name, op.schema));
    }
  }

  lemma RenameRefines(s: State, op: Op)
    requires Inv(s) && op.Rename?
    ensures Refines(s, op)
  {
    NamesSize(s.rows);
    InverseDomain(s.idIndex, s.nameIndex, op.name);
    if Step(s, op).1.Ok? {
      RenameKeepsInv(s, op.account, op.name);
    }
  }

  lemma CacheRefines(s: State, op: Op)
    requires Inv(s) && op.Cache?
    ensures Refines(s, op)
  {
    NamesSize(s.rows);
  }

  /** One operation keeps the invariant and does to the names what the reference model does, with the
      same result. */
  lemma StepRefines(s: State, op: Op)
    requires Inv(s) && Guarded(s, op)
    ensures Inv(Step(s, op).0) && BookStep(s.idIndex, op) == (Step(s, op).0.idIndex, Step(s, op).1)
  {
    if op.New? {
      NewRefines(s, op);
    } else if op.NewWatching? {
      WatchingRefines(s, op);
    } else if op.Rename? {
      RenameRefines(s, op);
    } else {
      CacheRefines(s, op);
    }
    assert Refines(s, op);
  }

  /** Every guarded run keeps the indexes inverse, the numbers contiguous and the cache right, and
      answers every operation as the map from number to name does. */
  lemma {:induction false} RunRefines(s: State, ops: seq<Op>)
    requires Inv(s) && GuardedRun(s, ops)
    ensures var (t, rs) := Run(s, ops); Inv(t) && BookRun(s.idIndex, ops) == (t.idIndex, rs)
    decreases |ops|
  {
    if ops != [] {
      StepRefines(s, ops[0]);
      RunRefines(Step(s, ops[0]).0, ops[1..]);
    }
  }

  lemma LookupsAreInverse(pubKey: Bytes, privKey: Bytes, ops: seq<Op>, n: u32, name: Name)
    requires GuardedRun(Created(pubKey, privKey), ops)
    ensures var t := Run(Created(pubKey, privKey), ops).0;
            && (Holds(t.nameIndex, name, n) <==> Holds(t.idIndex, n, name))
            && (Holds(t.idIndex, n, name) <==> n in t.rows && t.rows[n].name == name)
            && (n in t.rows <==> n <= t.last || n == IMPORTED_ACCOUNT)
  {
    CreatedInv(pubKey, privKey);
    RunRefines(Created(pubKey, privKey), ops);
  }

  /** Renaming changes nothing but the name of one account. */
  lemma RenameKeepsRest(s: State, account: u32, name: Name, n: u32)
    requires n in s.rows
    ensures var t := Step(s, Rename(account, name)).0;
            && t.rows.Keys == s.rows.Keys
            && (n != account ==> t.rows[n] == s.rows[n])
            && t.rows[n] in {s.rows[n], s.rows[n].(name := name)}
  {
  }

  ghost predicate ImportedIntact(s: State) {
    IMPORTED_ACCOUNT in s.rows && s.rows[IMPORTED_ACCOUNT].name == IMPORTED_NAME
  }

  lemma StepKeepsImported(s: State, op: Op)
    requires Numbered(s) && Guarded(s, op) && ImportedIntact(s)
    ensures ImportedIntact(Step(s, op).0) && Step(s, op).0.rows[IMPORTED_ACCOUNT] == s.rows[IMPORTED_ACCOUNT]
  {
  }

  /** The imported account can neither be renamed nor have its name taken. */
  lemma {:induction false} ImportedStays(s: State, ops: seq<Op>)
    requires Inv(s) && GuardedRun(s, ops) && ImportedIntact(s)
    ensures ImportedIntact(Run(s, ops).0) && Run(s, ops).0.rows[IMPORTED_ACCOUNT] == s.rows[IMPORTED_ACCOUNT]
    decreases |ops|
  {
    if ops != [] {
      StepRefines(s, ops[0]);
      StepKeepsImported(s, ops[0]);
      ImportedStays(Step(s, ops[0]).0, ops[1..]);
    }
  }

  // ---------------------------------------------------------------- the missing upper bound

  /** Creating a watch-only account does not check the number.  It keeps the invariant exactly when it
      is refused or the last account is below the maximum: at the maximum it overwrites the imported
      account. */
  lemma WatchingNeedsRoom(s: State, op: Op)
    requires Inv(s) && op.NewWatching?
    ensures Inv(Step(s, op).0)
       <==> s.last < MAX_ACCOUNT_NUM || !ValidName(op.name) || op.name in s.nameIndex || op.pubKey.None?
  {
    if s.last < MAX_ACCOUNT_NUM {
      StepRefines(s, op);
    }
  }

  /** Creating an account with keys does check it. */
  lemma NewStopsAtMaximum(s: State, op: Op)
    requires Inv(s) && op.New? && s.last == MAX_ACCOUNT_NUM
    ensures Step(s, op).1.Err? && Step(s, op).0 == s
  {
  }

  /** k + 1 zero bytes. */
  function Zeros(k: nat): Name {
    seq(k + 1, _ => 0)
  }

  predicate Ordinary(a: Name, k: nat) {
    a in {DEFAULT_NAME, IMPORTED_NAME} || (|a| <= k + 1 && a != [] && a[0] == 0)
  }

  /** A run to last account number k whose names are ordinary. */
  ghost predicate Fills(ops: seq<Op>, k: u32) {
    var s := Created([], []);
    var t := Run(s, ops).0;
    GuardedRun(s, ops) && t.last == k && forall a :: a in t.nameIndex ==> Ordinary(a, k)
  }

  lemma {:induction false} RunAppend(s: State, ops: seq<Op>, op: Op)
    ensures Run(s, ops + [op]).0 == Step(Run(s, ops).0, op).0
    ensures GuardedRun(s, ops) && Guarded(Run(s, ops).0, op) ==> GuardedRun(s, ops + [op])
    decreases |ops|
  {
    if ops == [] {
      assert ops + [op] == [op];
    } else {
      assert (ops + [op])[1..] == ops[1..] + [op];
      RunAppend(Step(s, ops[0]).0, ops[1..], op);
    }
  }

  /** Every last account number up to the maximum is reached by some run. */
  lemma {:induction false} Reachable(k: u32) returns (ops: seq<Op>)
    requires k <= MAX_ACCOUNT_NUM
    ensures Fills(ops, k)
  {
    CreatedInv([], []);
    var s := Created([], []);
    if k == 0 {
      ops := [];
    } else {
      var before := Reachable(k - 1);
      var op := NewWatching(Zeros(k), Some([]), 0, None);
      RunRefines(s, before);
      assert Zeros(k)[0] == 0 && |Zeros(k)| == k + 1;
      RunAppend(s, before, op);
      ops := before + [op];
    }
  }

  /** So the bound can be passed: some run of allowed operations ends at the maximum, and then creating a
      watch-only account succeeds, under the number of the imported account. */
  lemma WatchingOverwritesImported() returns (ops: seq<Op>, op: Op)
    ensures GuardedRun(Created([], []), ops) && op.NewWatching?
    ensures var s := Run(Created([], []), ops).0;
            && Inv(s) && Step(s, op).1 == Ok(IMPORTED_ACCOUNT) && !Inv(Step(s, op).0)
  {
    ops := Reachable(MAX_ACCOUNT_NUM);
    CreatedInv([], []);
    RunRefines(Created([], []), ops);
    op := NewWatching(Zeros(MAX_ACCOUNT_NUM + 1), Some([]), 0, None);
    assert Zeros(MAX_ACCOUNT_NUM + 1)[0] == 0 && |Zeros(MAX_ACCOUNT_NUM + 1)| == MAX_ACCOUNT_NUM + 2;
    WatchingNeedsRoom(Run(Created([], []), ops).0, op);
  }

  // ---------------------------------------------------------------- the buckets

  /** The buckets of one scope and the cached account infos, changed in place. */
  class ScopedAccounts {
    var rows: map<u32, AccountRow>
    var idIndex: map<u32, Name>
    var nameIndex: map<Name, u32>
    var last: u32
    var cached: map<u32, Name>

    function Value(): State
      reads this
    {
      State(rows, idIndex, nameIndex, last, cached)
    }

    /** The buckets as a new scope has them. */
    constructor (pubKey: Bytes, privKey: Bytes)
      ensures Value() == Created(pubKey, privKey)
    {
      rows, idIndex, nameIndex, last, cached := map[], map[], map[], 0, map[];
      new;
      PutAccountInfo(0, DefaultRow(pubKey, privKey, 0, 0, DEFAULT_NAME));
      PutAccountInfo(IMPORTED_ACCOUNT, DefaultRow([], [], 0, 0, IMPORTED_NAME));
    }

    method PutAccountInfo(account: u32, row: AccountRow)
      modifies this
      ensures Value() == Put(old(Value()), account, row)
    {
      rows := rows[account := row];
      idIndex := idIndex[account := row.name];
      nameIndex := nameIndex[row.name := account];
    }

    method NewAccount(watchOnly: bool, locked: bool, name: Name, keys: Option<(Bytes, Bytes)>)
      returns (r: Result<u32, Error>)
      modifies this
      ensures (Value(), r) == Step(old(Value()), New(watchOnly, locked, name, keys))
    {
      if watchOnly {
        return Err(WatchingOnly);
      }
      if locked {
        return Err(Locked);
      }
      var account := Add32(last, 1);
      if !ValidName(name) {
        return Err(InvalidAccount);
      }
      if name in nameIndex {
        return Err(DuplicateAccount);
      }
      if account > MAX_ACCOUNT_NUM || keys.None? {
        return Err(KeyChain);
      }
      PutAccountInfo(account, DefaultRow(keys.value.0, keys.value.1, 0, 0, name));
      last := account;
      return Ok(account);
    }

    method NewAccountWatchingOnly(name: Name, pubKey: Option<Bytes>, fingerprint: u32, schema: Option<Schema>)
      returns (r: Result<u32, Error>)
      modifies this
      ensures (Value(), r) == Step(old(Value()), NewWatching(name, pubKey, fingerprint, schema))
    {
      var account := Add32(last, 1);
      if !ValidName(name) {
        return Err(InvalidAccount);
      }
      if name in nameIndex {
        return Err(DuplicateAccount);
      }
      if pubKey.None? {
        return Err(KeyChain);
      }
      PutAccountInfo(account, WatchOnlyRow(pubKey.value, fingerprint, 0, 0, name, schema));
      last := account;
      return Ok(account);
    }

    method RenameAccount(account: u32, name: Name) returns (r: Result<u32, Error>)
      modifies this
      ensures (Value(), r) == Step(old(Value()), Rename(account, name))
    {
      if account == IMPORTED_ACCOUNT {
        return Err(InvalidAccount);
      }
      if name in nameIndex {
        return Err(DuplicateAccount);
      }
      if !ValidName(name) {
        return Err(InvalidAccount);
      }
      if account !in rows {
        return Err(AccountNotFound);
      }
      var row := rows[account];
      idIndex := idIndex - {account};
      nameIndex := nameIndex - {row.name};
      PutAccountInfo(account, row.(name := name));
      if account in cached {
        cached := cached[account := name];
      }
      return Ok(account);
    }
  }
}
