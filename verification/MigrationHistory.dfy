/** Finding a product's migrations and checking a database's ledger against them. */
module MigrationHistory {
  import opened Text

  datatype Migration = Migration(ordinal: nat, filename: string, checksum: string)

  /** A row of `schema_migrations`, under its ordinal. */
  datatype Record = Record(filename: string, checksum: string)

  type Ledger = map<nat, Record>

  function RecordOf(m: Migration): Record { Record(m.filename, m.checksum) }

  datatype Problem =
    | InvalidName(name: string) | DuplicateOrdinal(ordinal: nat) | NotText(name: string) | NoMigrations | OrdinalGap
    | UnknownMigration(ordinal: nat) | FilenameDrift(ordinal: nat) | ChecksumDrift(ordinal: nat) | HistoryGap
    | AppliedDifferently(ordinal: nat) | StatementFailed(ordinal: nat)

  // ---- the names of migrations -----------------------------------------------------------

  /** A directory entry: its name, the digest of its bytes, and whether they are UTF-8. */
  datatype File = File(name: string, checksum: string, utf8: bool)

  predicate NameChar(c: char) { 'a' <= c <= 'z' || Digit(c) || c == '_' }

  /** `^(\d{3})_[a-z0-9_]+\.sql$`. */
  predicate IsMigrationName(name: string) {
    && |name| >= 9 && Digit(name[0]) && Digit(name[1]) && Digit(name[2]) && name[3] == '_' && EndsWith(name, ".sql")
    && forall i :: 4 <= i < |name| - 4 ==> NameChar(name[i])
  }

  function Value(c: char): nat
    requires Digit(c)
  {
    c as int - '0' as int
  }

  function OrdinalOf(name: string): nat
    requires IsMigrationName(name)
  {
    100 * Value(name[0]) + 10 * Value(name[1]) + Value(name[2])
  }

  /** `candidate.suffix == ".sql"`. */
  predicate IsSql(name: string) { |name| > 4 && EndsWith(name, ".sql") }

  /** The name of migration `ordinal` that says `subject`. */
  function NameFor(ordinal: nat, subject: string): string
    requires ordinal < 1000
  {
    [DigitOf(ordinal / 100), DigitOf(ordinal / 10 % 10), DigitOf(ordinal % 10)] + "_" + subject + ".sql"
  }

  /** `name` is three digits for `ordinal`, then a subject in small letters, digits and underscores. */
  ghost predicate Names(name: string, ordinal: nat) {
    && ordinal < 1000
    && exists subject :: subject != "" && name == NameFor(ordinal, subject)
                      && forall i :: 0 <= i < |subject| ==> subject[i] == '_' || '0' <= subject[i] <= '9' || 'a' <= subject[i] <= 'z'
  }

  lemma {:induction false} NamedIsRead(name: string, ordinal: nat, subject: string)
    requires ordinal < 1000 && subject != "" && name == NameFor(ordinal, subject)
    ensures |name| == |subject| + 8 && EndsWith(name, ".sql") && name[4..|name| - 4] == subject
    ensures Digit(name[0]) && Digit(name[1]) && Digit(name[2]) && name[3] == '_'
    ensures 100 * Value(name[0]) + 10 * Value(name[1]) + Value(name[2]) == ordinal
  {
    var head, tail := NameFor(ordinal, subject)[..4], ".sql";
    assert name == head + subject + tail;
    assert name[|name| - 4..] == tail;
  }

  lemma {:induction false} ThreeDigits(a: nat, b: nat, c: nat)
    requires a < 10 && b < 10 && c < 10
    ensures var o := 100 * a + 10 * b + c; o / 100 == a && o / 10 % 10 == b && o % 10 == c && o < 1000
  {
    assert (100 * a + 10 * b + c) / 10 == 10 * a + b;
  }

  lemma {:induction false} DigitRead(c: char)
    requires Digit(c)
    ensures Value(c) < 10 && DigitOf(Value(c)) == c
  {}

  lemma {:induction false} ReadIsNamed(name: string)
    requires IsMigrationName(name)
    ensures OrdinalOf(name) < 1000 && name == NameFor(OrdinalOf(name), name[4..|name| - 4])
  {
    var subject := name[4..|name| - 4];
    assert name == [name[0], name[1], name[2]] + [name[3]] + subject + name[|name| - 4..];
    DigitRead(name[0]);
    DigitRead(name[1]);
    DigitRead(name[2]);
    hide Value, DigitOf, Digit, NameChar;
    ThreeDigits(Value(name[0]), Value(name[1]), Value(name[2]));
  }

  /** The names the pattern accepts are those, and the ordinal read from one is the one it was made with. */
  lemma {:induction false} NamesAre(name: string, ordinal: nat)
    ensures Names(name, ordinal) <==> IsMigrationName(name) && OrdinalOf(name) == ordinal
  {
    if Names(name, ordinal) {
      var subject :| subject != "" && name == NameFor(ordinal, subject)
                     && forall i :: 0 <= i < |subject| ==> subject[i] == '_' || '0' <= subject[i] <= '9' || 'a' <= subject[i] <= 'z';
      hide NameFor, EndsWith;
      NamedIsRead(name, ordinal, subject);
      assert forall i :: 4 <= i < |name| - 4 ==> name[i] == name[4..|name| - 4][i - 4];
    }
    if IsMigrationName(name) && OrdinalOf(name) == ordinal {
      hide NameFor, EndsWith, OrdinalOf;
      ReadIsNamed(name);
      var subject := name[4..|name| - 4];
      assert forall i :: 0 <= i < |subject| ==> subject[i] == name[i + 4];
    }
  }

  // ---- discovery ---------------------------------------------------------------------

  /** Consecutive ordinals from the first one on. */
  predicate Contiguous(ms: seq<Migration>) {
    ms != [] && forall i :: 0 <= i < |ms| ==> ms[i].ordinal == ms[0].ordinal + i
  }

  /** The migrations among the first `n` files. */
  function Found(files: seq<File>, n: nat): seq<Migration>
    requires n <= |files|
  {
    if n == 0 then []
    else
      var f := files[n - 1];
      Found(files, n - 1) + if IsMigrationName(f.name) then [Migration(OrdinalOf(f.name), f.name, f.checksum)] else []
  }

  /** What is wrong with file `i`, after those before it. */
  function Fault(files: seq<File>, i: nat): Option<Problem>
    requires i < |files|
  {
    var f := files[i];
    if !IsMigrationName(f.name) then if IsSql(f.name) then Some(InvalidName(f.name)) else Option.None
    else if HasOrdinal(Found(files, i), OrdinalOf(f.name)) then Some(DuplicateOrdinal(OrdinalOf(f.name)))
    else if !f.utf8 then Some(NotText(f.name))
    else Option.None
  }

  /** Every file is given `problem` as its first fault, or nothing is found, or there is a gap. */
  ghost predicate Refusal(files: seq<File>, problem: Problem) {
    || (exists i :: FirstFault(files, i) && Fault(files, i) == Some(problem))
    || ((forall i :: 0 <= i < |files| ==> Fault(files, i).None?)
        && problem == if Found(files, |files|) == [] then NoMigrations else OrdinalGap)
  }

  predicate FirstFault(files: seq<File>, i: int) {
    0 <= i < |files| && Fault(files, i).Some? && forall j :: 0 <= j < i ==> Fault(files, j).None?
  }

  /** `discover`, over the directory in name order. */
  method Discover(files: seq<File>) returns (r: Result<seq<Migration>, Problem>)
    ensures r.Ok? ==> r.value == Found(files, |files|)
    ensures r.Ok? <==> Contiguous(Found(files, |files|)) && forall i :: 0 <= i < |files| ==> Fault(files, i).None?
    ensures r.Err? ==> Refusal(files, r.error)
  {
    var migrations: seq<Migration>, ordinals: set<nat> := [], {};
    for i := 0 to |files|
      invariant migrations == Found(files, i)
      invariant forall o :: o in ordinals <==> HasOrdinal(migrations, o)
      invariant forall j :: 0 <= j < i ==> Fault(files, j).None?
    {
      var file := files[i];
      if !IsMigrationName(file.name) {
        if IsSql(file.name) {
          assert FirstFault(files, i);
          return Err(InvalidName(file.name));
        }
      } else {
        var ordinal := OrdinalOf(file.name);
        if ordinal in ordinals {
          assert FirstFault(files, i);
          return Err(DuplicateOrdinal(ordinal));
        }
        if !file.utf8 {
          assert FirstFault(files, i);
          return Err(NotText(file.name));
        }
        OrdinalAdded(migrations, Migration(ordinal, file.name, file.checksum));
        migrations := migrations + [Migration(ordinal, file.name, file.checksum)];
        ordinals := ordinals + {ordinal};
      }
    }
    if migrations == [] {
      return Err(NoMigrations);
    }
    if !Contiguous(migrations) {
      return Err(OrdinalGap);
    }
    return Ok(migrations);
  }

  predicate HasOrdinal(ms: seq<Migration>, ordinal: nat) { exists k :: 0 <= k < |ms| && ms[k].ordinal == ordinal }

  lemma {:induction false} OrdinalAdded(ms: seq<Migration>, m: Migration)
    ensures forall o :: HasOrdinal(ms + [m], o) <==> HasOrdinal(ms, o) || o == m.ordinal
  {
    forall o ensures HasOrdinal(ms + [m], o) <==> HasOrdinal(ms, o) || o == m.ordinal {
      if k :| 0 <= k < |ms| && ms[k].ordinal == o { assert (ms + [m])[k].ordinal == o; }
      if o == m.ordinal { assert (ms + [m])[|ms|].ordinal == o; }
    }
  }

  ghost predicate Named(f: File) { exists o: nat :: Names(f.name, o) }

  /** Which of the first `n` files are migrations, in order. */
  ghost predicate Picks(files: seq<File>, n: nat, at: seq<nat>) {
    n <= |files| && Ascending(at) && forall i: nat :: i in at <==> i < n && Named(files[i])
  }

  predicate Ascending(s: seq<nat>) { forall j, k :: 0 <= j < k < |s| ==> s[j] < s[k] }

  lemma {:induction false} AddedLast(s: seq<nat>, x: nat)
    requires Ascending(s) && forall y :: y in s ==> y < x
    ensures Ascending(s + [x]) && forall y :: y in s + [x] <==> y in s || y == x
  {
    assert (s + [x])[|s|] == x;
    forall j, k | 0 <= j < k < |s| + 1 ensures (s + [x])[j] < (s + [x])[k] {
      assert s[j] in s;
    }
  }

  /** A migration of the list is a file: its own name, its own digest, and the number its name starts with. */
  ghost predicate IsFile(m: Migration, f: File) { m.filename == f.name && m.checksum == f.checksum && Names(f.name, m.ordinal) }

  /** The list `ms` is those files. */
  ghost predicate AreFiles(ms: seq<Migration>, files: seq<File>, at: seq<nat>) {
    |ms| == |at| && forall k :: 0 <= k < |at| ==> at[k] < |files| && IsFile(ms[k], files[at[k]])
  }

  /** What is found among the files are the migrations, each once and in order. */
  lemma {:induction false} FoundMeans(files: seq<File>, n: nat) returns (at: seq<nat>)
    requires n <= |files|
    ensures Picks(files, n, at) && AreFiles(Found(files, n), files, at)
  {
    if n == 0 {
      return [];
    }
    var before := FoundMeans(files, n - 1);
    hide Picks, AreFiles;
    at := FoundNext(files, n - 1, before);
  }

  lemma {:induction false} FoundNext(files: seq<File>, n: nat, before: seq<nat>) returns (at: seq<nat>)
    requires n < |files| && Picks(files, n, before) && AreFiles(Found(files, n), files, before)
    ensures Picks(files, n + 1, at) && AreFiles(Found(files, n + 1), files, at)
  {
    var f := files[n];
    NamedAre(f);
    hide IsFile, Named, IsMigrationName, OrdinalOf, Picks, AreFiles;
    PickNext(files, n, before);
    if !IsMigrationName(f.name) {
      assert Found(files, n + 1) == Found(files, n);
      return before;
    }
    OneMoreFile(Found(files, n), files, before, Migration(OrdinalOf(f.name), f.name, f.checksum), n);
    return before + [n];
  }

  lemma {:induction false} OneMoreFile(ms: seq<Migration>, files: seq<File>, at: seq<nat>, m: Migration, i: nat)
    requires AreFiles(ms, files, at) && i < |files| && IsFile(m, files[i])
    ensures AreFiles(ms + [m], files, at + [i])
  {
    hide IsFile;
  }

  lemma {:induction false} PickNext(files: seq<File>, n: nat, at: seq<nat>)
    requires n < |files| && Picks(files, n, at)
    ensures Picks(files, n + 1, if Named(files[n]) then at + [n] else at)
  {
    AddedLast(at, n);
    hide Named, Ascending;
  }

  lemma {:induction false} NamedAre(f: File)
    ensures Named(f) <==> IsMigrationName(f.name)
    ensures IsMigrationName(f.name) ==> IsFile(Migration(OrdinalOf(f.name), f.name, f.checksum), f)
  {
    hide Names, IsMigrationName, OrdinalOf;
    forall o: nat ensures Names(f.name, o) <==> IsMigrationName(f.name) && OrdinalOf(f.name) == o { NamesAre(f.name, o); }
    if IsMigrationName(f.name) { assert Names(f.name, OrdinalOf(f.name)); }
  }

  // ---- what is discovered, said of the directory ------------------------------------------

  lemma {:induction false} FoundPrefix(files: seq<File>, n: nat, m: nat)
    requires n <= m <= |files|
    ensures Found(files, n) <= Found(files, m)
  {
    if n < m { FoundPrefix(files, n, m - 1); }
  }

  /** With two files of one ordinal the ordinals are not consecutive. */
  lemma {:induction false} FoundAgain(files: seq<File>, n: nat)
    requires n < |files| && IsMigrationName(files[n].name) && HasOrdinal(Found(files, n), OrdinalOf(files[n].name))
    ensures !Contiguous(Found(files, |files|))
  {
    hide IsMigrationName, OrdinalOf;
    FoundPrefix(files, n + 1, |files|);
    FoundPrefix(files, n, n + 1);
    var o := OrdinalOf(files[n].name);
    var k :| 0 <= k < |Found(files, n)| && Found(files, n)[k].ordinal == o;
    var all, j := Found(files, |files|), |Found(files, n)|;
    assert all[k] == Found(files, n + 1)[k] == Found(files, n)[k];
    assert all[j] == Found(files, n + 1)[j];
  }

  /** Files numbered in a row from some number on. */
  ghost predicate InSeries(files: seq<File>, at: seq<nat>) { exists first: nat :: NumberedFrom(files, at, first) }

  ghost predicate NumberedFrom(files: seq<File>, at: seq<nat>, first: nat) {
    forall k :: 0 <= k < |at| ==> at[k] < |files| && Names(files[at[k]].name, first + k)
  }

  lemma {:induction false} OneOrdinal(name: string, o: nat, q: nat)
    requires Names(name, o) && Names(name, q)
    ensures o == q
  {
    NamesAre(name, o);
    NamesAre(name, q);
  }

  lemma {:induction false} SeriesIsContiguous(ms: seq<Migration>, files: seq<File>, at: seq<nat>)
    requires AreFiles(ms, files, at)
    ensures Contiguous(ms) <==> at != [] && InSeries(files, at)
  {
    hide Names;
    if Contiguous(ms) {
      var first := ms[0].ordinal;
      forall k | 0 <= k < |at| ensures Names(files[at[k]].name, first + k) { assert IsFile(ms[k], files[at[k]]); }
      assert NumberedFrom(files, at, first);
    }
    if at != [] && InSeries(files, at) {
      var first: nat :| NumberedFrom(files, at, first);
      forall k | 0 <= k < |ms| ensures ms[k].ordinal == first + k {
        assert IsFile(ms[k], files[at[k]]);
        OneOrdinal(files[at[k]].name, ms[k].ordinal, first + k);
      }
    }
  }

  /**
   * The directory is accepted exactly when it has migrations, numbered in a row and
   * all text, and no other SQL file; the list is then those files in order.
   */
  lemma {:induction false} DiscoversExactly(files: seq<File>) returns (at: seq<nat>)
    ensures Picks(files, |files|, at) && AreFiles(Found(files, |files|), files, at)
    ensures (Contiguous(Found(files, |files|)) && forall i :: 0 <= i < |files| ==> Fault(files, i).None?)
            <==> at != [] && InSeries(files, at) && forall i :: 0 <= i < |files| ==> if i in at then files[i].utf8 else !IsSql(files[i].name)
  {
    at := FoundMeans(files, |files|);
    SeriesIsContiguous(Found(files, |files|), files, at);
    hide InSeries, AreFiles, IsMigrationName, OrdinalOf, IsSql;
    if Contiguous(Found(files, |files|)) {
      forall i | 0 <= i < |files|
        ensures Fault(files, i).None? <==> if i in at then files[i].utf8 else !IsSql(files[i].name)
      {
        NamedAre(files[i]);
        hide Named, Found, Contiguous;
        if IsMigrationName(files[i].name) && HasOrdinal(Found(files, i), OrdinalOf(files[i].name)) { FoundAgain(files, i); }
      }
    }
  }

  ghost predicate NumberedAmong(files: seq<File>, n: nat, o: nat)
    requires n <= |files|
  {
    exists j :: 0 <= j < n && Names(files[j].name, o)
  }

  /** Why a file is refused: its name, a number that an earlier file has, or its bytes. */
  lemma {:induction false} FaultMeans(files: seq<File>, i: nat, o: nat)
    requires i < |files|
    ensures !Named(files[i]) ==> Fault(files, i) == if IsSql(files[i].name) then Some(InvalidName(files[i].name)) else Option.None
    ensures Names(files[i].name, o) ==>
              Fault(files, i) == if NumberedAmong(files, i, o) then Some(DuplicateOrdinal(o))
                                 else if files[i].utf8 then Option.None else Some(NotText(files[i].name))
  {
    NamedAre(files[i]);
    NumberedBefore(files, i);
    NamesAre(files[i].name, o);
    hide Found, Names, Named, IsMigrationName, OrdinalOf, IsSql, HasOrdinal, NumberedAmong;
  }

  lemma {:induction false} NumberedBefore(files: seq<File>, n: nat)
    requires n <= |files|
    ensures forall o: nat :: HasOrdinal(Found(files, n), o) <==> NumberedAmong(files, n, o)
  {
    var at := FoundMeans(files, n);
    var ms := Found(files, n);
    hide Names, Found;
    forall o: nat ensures HasOrdinal(ms, o) <==> NumberedAmong(files, n, o) {
      if k :| 0 <= k < |ms| && ms[k].ordinal == o { assert IsFile(ms[k], files[at[k]]) && at[k] in at; }
      if j :| 0 <= j < n && Names(files[j].name, o) {
        assert Named(files[j]);
        var k :| 0 <= k < |at| && at[k] == j;
        assert IsFile(ms[k], files[j]);
        OneOrdinal(files[j].name, ms[k].ordinal, o);
      }
    }
  }

  // ---- the history check ---------------------------------------------------------------

  /** What is wrong with the ledger's row for an ordinal; a row beyond this image is ahead of it. */
  function RowProblem(ms: seq<Migration>, ordinal: nat, record: Record): Option<Problem>
    requires Contiguous(ms)
  {
    var first := ms[0].ordinal;
    if ordinal >= first + |ms| then Option.None
    else if ordinal < first then Some(UnknownMigration(ordinal))
    else if record.filename != ms[ordinal - first].filename then Some(FilenameDrift(ordinal))
    else if record.checksum != ms[ordinal - first].checksum then Some(ChecksumDrift(ordinal))
    else Option.None
  }

  /** The ordinals run from `first` without a gap: `sorted(history) == range(first, max + 1)`. */
  predicate Dense(ledger: Ledger, first: nat) {
    forall o :: o in ledger ==> first <= o && forall q :: first <= q <= o ==> q in ledger
  }

  /** The ledger has a migration's own filename and checksum, if it has that ordinal. */
  predicate Agrees(ledger: Ledger, m: Migration) {
    m.ordinal in ledger ==> ledger[m.ordinal].filename == m.filename && ledger[m.ordinal].checksum == m.checksum
  }

  /** What `verify_history` accepts: no gap, and the image's own names and digests wherever both have the ordinal. */
  predicate Accepts(ms: seq<Migration>, ledger: Ledger)
    requires Contiguous(ms)
  {
    Dense(ledger, ms[0].ordinal) && forall k :: 0 <= k < |ms| ==> Agrees(ledger, ms[k])
  }

  /** The refusal is about the lowest row with a problem; without one it is the gap. */
  ghost predicate RefusedFor(ms: seq<Migration>, ledger: Ledger, p: Problem)
    requires Contiguous(ms)
  {
    || (p == HistoryGap && !Dense(ledger, ms[0].ordinal) && forall o :: o in ledger ==> RowProblem(ms, o, ledger[o]).None?)
    || (exists o :: o in ledger && RowProblem(ms, o, ledger[o]) == Some(p)
                    && forall q :: q in ledger && q < o ==> RowProblem(ms, q, ledger[q]).None?)
  }

  method VerifyHistory(ms: seq<Migration>, ledger: Ledger) returns (r: Result<seq<nat>, Problem>)
    requires Contiguous(ms)
    ensures r.Ok? <==> Accepts(ms, ledger)
    ensures r.Ok? ==> Ascending(r.value) && forall o :: o in r.value <==> o in ledger && o > ms[|ms| - 1].ordinal
    ensures r.Err? ==> RefusedFor(ms, ledger, r.error)
  {
    var todo: set<nat>, ahead: seq<nat> := ledger.Keys, [];
    while todo != {}
      invariant todo <= ledger.Keys
      invariant forall o, q :: o in ledger && o !in todo && q in todo ==> o < q
      invariant forall o :: o in ledger && o !in todo ==> RowProblem(ms, o, ledger[o]).None?
      invariant Ascending(ahead) && forall o :: o in ahead <==> o in ledger && o !in todo && o > ms[|ms| - 1].ordinal
    {
      var ordinal := Least(todo);
      var problem := RowProblem(ms, ordinal, ledger[ordinal]);
      if problem.Some? {
        RowRefused(ms, ledger, ordinal);
        return Err(problem.value);
      }
      if ordinal > ms[|ms| - 1].ordinal {
        AddedLast(ahead, ordinal);
        ahead := ahead + [ordinal];
      }
      todo := todo - {ordinal};
    }
    RowsAgree(ms, ledger);
    if !Dense(ledger, ms[0].ordinal) {
      return Err(HistoryGap);
    }
    return Ok(ahead);
  }

  method Least(s: set<nat>) returns (m: nat)
    requires s != {}
    ensures m in s && forall x :: x in s ==> m <= x
  {
    m :| m in s;
    var rest := s - {m};
    while rest != {}
      invariant rest <= s && m in s && forall x :: x in s && x !in rest ==> m <= x
    {
      var x :| x in rest;
      if x < m { m := x; }
      rest := rest - {x};
    }
  }

  /** A row with a problem is below the image or drifts from it. */
  lemma {:induction false} RowRefused(ms: seq<Migration>, ledger: Ledger, o: nat)
    requires Contiguous(ms) && o in ledger && RowProblem(ms, o, ledger[o]).Some?
    ensures !Accepts(ms, ledger)
  {
    if o >= ms[0].ordinal { assert !Agrees(ledger, ms[o - ms[0].ordinal]); }
  }

  lemma {:induction false} RowsAgree(ms: seq<Migration>, ledger: Ledger)
    requires Contiguous(ms) && forall o :: o in ledger ==> RowProblem(ms, o, ledger[o]).None?
    ensures forall k :: 0 <= k < |ms| ==> Agrees(ledger, ms[k])
  {
    forall k | 0 <= k < |ms| ensures Agrees(ledger, ms[k]) {
      if ms[k].ordinal in ledger { assert RowProblem(ms, ms[k].ordinal, ledger[ms[k].ordinal]).None?; }
    }
  }

  /** What a refused row holds. */
  lemma {:induction false} RowProblemMeans(ms: seq<Migration>, o: nat, record: Record)
    requires Contiguous(ms)
    ensures RowProblem(ms, o, record) == Some(UnknownMigration(o)) <==> o < ms[0].ordinal
    ensures RowProblem(ms, o, record) == Some(FilenameDrift(o)) <==> exists m :: m in ms && m.ordinal == o && m.filename != record.filename
    ensures RowProblem(ms, o, record) == Some(ChecksumDrift(o))
            <==> exists m :: m in ms && m.ordinal == o && m.filename == record.filename && m.checksum != record.checksum
  {
    if ms[0].ordinal <= o < ms[0].ordinal + |ms| { assert ms[o - ms[0].ordinal] in ms && ms[o - ms[0].ordinal].ordinal == o; }
  }
}
